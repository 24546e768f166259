/** The local store (localstore/): write-once caches of signed rows, the peers table and the
    public-key cache. Whether a row is revoked is never read from its own `revoked` column: it is
    derived from the revocation rows of the same signer. */
module Stores {
  import opened Text
  import opened Payloads
  import opened Tables

  // ---- derived revocation ----

  predicate IsFor(body: Body, kind: Kind, target: ID) {
    IsKind(body, kind) && body.payload.targetID == target
  }

  /** Every id that some row of the given kind targets. */
  function Targets(rows: seq<Row>, kind: Kind): set<ID> {
    set r | r in rows && IsKind(r.body, kind) :: r.body.payload.targetID
  }

  /** A row with this id is stored, and its signer has stored another row that revokes it. */
  ghost predicate DerivedRevoked(rows: seq<Row>, kind: Kind, id: ID) {
    exists t, r :: t in rows && t.id == id && Revokes(rows, kind, r, t)
  }

  ghost predicate Revokes(rows: seq<Row>, kind: Kind, r: Row, t: Row) {
    r in rows && r.signer == t.signer && r.id != t.id && IsFor(r.body, kind, t.id)
  }

  /** A row counts as revoked when another row of its signer is a revocation that names it. */
  lemma RevokedMeans(rows: seq<Row>, kind: Kind, id: ID)
    ensures DerivedRevoked(rows, kind, id) <==> exists t, r ::
      && t in rows && r in rows && t.id == id && r.signer == t.signer && r.id != id
      && r.body.Parsed? && r.body.payload.kind == kind && r.body.payload.targetID == id
  {
    forall t, r | t in rows && t.id == id
      ensures Revokes(rows, kind, r, t) <==>
        && r in rows && r.signer == t.signer && r.id != id
        && r.body.Parsed? && r.body.payload.kind == kind && r.body.payload.targetID == id
    {
    }
  }

  ghost predicate EarliestRevocation(rows: seq<Row>, kind: Kind, id: ID, at: int) {
    && (exists t, r :: t in rows && t.id == id && Revokes(rows, kind, r, t) && r.at == at)
    && (forall t, r :: t in rows && t.id == id && Revokes(rows, kind, r, t) ==> at <= r.at)
  }

  lemma OwnListing(rows: seq<Row>, kind: Kind, t: Row)
    ensures forall r :: r in BySigner(rows, t.signer) ==> r.signer == t.signer
    ensures forall r :: Revokes(BySigner(rows, t.signer), kind, r, t) <==> Revokes(rows, kind, r, t)
  {
    forall r
      ensures r in BySigner(rows, t.signer) <==> r in rows && r.signer == t.signer
    {
      BySignerMembers(rows, t.signer, r);
    }
  }

  lemma DerivedByTarget(rows: seq<Row>, kind: Kind, t: Row)
    requires UniqueIds(rows) && t in rows
    ensures DerivedRevoked(rows, kind, t.id) <==> exists r :: Revokes(rows, kind, r, t)
    ensures forall at :: EarliestRevocation(rows, kind, t.id, at) <==>
      (exists r :: Revokes(rows, kind, r, t) && r.at == at) && (forall r :: Revokes(rows, kind, r, t) ==> at <= r.at)
  {
    forall u | u in rows && u.id == t.id
      ensures u == t
    {
      UniqueRow(rows, u, t);
    }
  }

  lemma OtherKindOtherId(rows: seq<Row>, kind: Kind, r: Row, t: Row)
    requires UniqueIds(rows) && r in rows && t in rows && IsKind(r.body, kind) && !IsKind(t.body, kind)
    ensures r.id != t.id
  {
    assert r != t;
  }

  /** The set of targets that the walk and the queries look rows up in says the same as the lookup
      of a single row. */
  lemma TargetedIffRevoked(rows: seq<Row>, kind: Kind, t: Row)
    requires UniqueIds(rows) && t in rows && !IsKind(t.body, kind)
    ensures t.id in Targets(BySigner(rows, t.signer), kind) <==> DerivedRevoked(rows, kind, t.id)
  {
    DerivedByTarget(rows, kind, t);
    OwnListing(rows, kind, t);
    forall r | r in BySigner(rows, t.signer) && IsFor(r.body, kind, t.id)
      ensures Revokes(rows, kind, r, t)
    {
      BySignerMembers(rows, t.signer, r);
      OtherKindOtherId(rows, kind, r, t);
    }
  }

  /** The loop that collects revoked ids, shared by the walk and the queries. */
  method CollectTargets(rows: seq<Row>, kind: Kind) returns (targets: set<ID>)
    ensures targets == Targets(rows, kind)
  {
    targets := {};
    for i := 0 to |rows|
      invariant targets == Targets(rows[..i], kind)
    {
      assert rows[..i + 1] == rows[..i] + [rows[i]];
      if IsKind(rows[i].body, kind) {
        targets := targets + {rows[i].body.payload.targetID};
      }
    }
    assert rows[..|rows|] == rows;
  }

  datatype RevocationState = NotFound | Unrevoked | RevokedSince(at: int)

  /** No save un-revokes anything: tables only grow, and stored rows never change. */
  lemma {:induction false} SavesNeverUnrevoke(rows: seq<Row>, more: seq<Row>, kind: Kind, id: ID)
    requires DerivedRevoked(rows, kind, id)
    ensures DerivedRevoked(SaveAll(rows, more), kind, id)
    decreases |more|
  {
    if more != [] {
      var t, r :| t in rows && t.id == id && Revokes(rows, kind, r, t);
      var saved := Save(rows, more[0]);
      assert t in saved && Revokes(saved, kind, r, t);
      SavesNeverUnrevoke(saved, more[1..], kind, id);
    }
  }

  // ---- active connections ----

  predicate IsActive(revoked: set<ID>, other: ID, c: Row) {
    c.otherID == other && c.id !in revoked && IsKind(c.body, Connection)
  }

  function NamedTargets(rows: seq<Row>): set<ID> {
    Targets(rows, ConnectionRevocation) - {""}
  }

  /** The active connections from `signer` to `other`. */
  ghost predicate Active(conns: seq<Row>, signer: ID, other: ID, c: Row) {
    c in conns && c.signer == signer && IsActive(NamedTargets(BySigner(conns, signer)), other, c)
  }

  /** The latest active row of a listing; of rows of equal time, the first. */
  function LatestActive(revoked: set<ID>, other: ID, listing: seq<Row>): Option<Row> {
    if listing == [] then None
    else
      var n := |listing| - 1;
      var best := LatestActive(revoked, other, listing[..n]);
      if IsActive(revoked, other, listing[n])
        && (best.None? || listing[n].at > best.value.at) then Some(listing[n]) else best
  }

  function ActiveConnection(conns: seq<Row>, signer: ID, other: ID): Option<Row> {
    var listing := BySigner(conns, signer);
    LatestActive(NamedTargets(listing), other, listing)
  }

  /** Every active row listed before this one is earlier. */
  ghost predicate NoneAsLate(revoked: set<ID>, other: ID, listing: seq<Row>, i: nat)
    requires i < |listing|
  {
    forall j :: 0 <= j < i && IsActive(revoked, other, listing[j]) ==> listing[j].at < listing[i].at
  }

  lemma {:induction false} LatestActiveIs(revoked: set<ID>, other: ID, listing: seq<Row>)
    ensures var best := LatestActive(revoked, other, listing);
      && (best.Some? ==> best.value in listing && IsActive(revoked, other, best.value))
      && (forall c :: c in listing && IsActive(revoked, other, c) ==> best.Some? && c.at <= best.value.at)
      && (best.Some? ==>
           exists i :: 0 <= i < |listing| && listing[i] == best.value && NoneAsLate(revoked, other, listing, i))
  {
    if listing != [] {
      var n := |listing| - 1;
      assert listing == listing[..n] + [listing[n]];
      LatestActiveIs(revoked, other, listing[..n]);
      var before := LatestActive(revoked, other, listing[..n]);
      if IsActive(revoked, other, listing[n]) && (before.None? || listing[n].at > before.value.at) {
        forall j | 0 <= j < n && IsActive(revoked, other, listing[j])
          ensures listing[j].at < listing[n].at
        {
          assert listing[j] in listing[..n];
        }
      } else if before.Some? {
        var i :| 0 <= i < n && listing[..n][i] == before.value && NoneAsLate(revoked, other, listing[..n], i);
        assert forall j :: 0 <= j < i ==> listing[..n][j] == listing[j];
        assert listing[i] == before.value && NoneAsLate(revoked, other, listing, i);
      }
    }
  }

  /** The connection found is active, is the latest active one and of those the first listed, and is
      found whenever one is active. */
  lemma ActiveConnectionIs(conns: seq<Row>, signer: ID, other: ID)
    ensures var best := ActiveConnection(conns, signer, other);
      && (best.None? <==> !exists c :: Active(conns, signer, other, c))
      && (best.Some? ==> Active(conns, signer, other, best.value))
      && (best.Some? ==> forall c :: Active(conns, signer, other, c) ==> c.at <= best.value.at)
      && (best.Some? ==>
           var listing := BySigner(conns, signer);
           exists i :: 0 <= i < |listing| && listing[i] == best.value && forall j ::
             0 <= j < i && Active(conns, signer, other, listing[j]) ==> listing[j].at < listing[i].at)
  {
    var listing := BySigner(conns, signer);
    LatestActiveIs(NamedTargets(listing), other, listing);
    forall c
      ensures Active(conns, signer, other, c) <==> c in listing && IsActive(NamedTargets(listing), other, c)
    {
      BySignerMembers(conns, signer, c);
    }
  }

  class Store {
    var sigs: seq<Row>
    var conns: seq<Row>
    var peers: seq<Peer>
    var users: map<ID, User>

    ghost predicate Valid()
      reads this
    {
      UniqueIds(sigs) && UniqueIds(conns) && SortedPeers(peers) && forall u :: u in users ==> users[u].id == u
    }

    function Tables(): Db
      reads this
    {
      Db(sigs, conns, peers)
    }

    /** `Init` on an empty database. */
    constructor ()
      ensures Valid() && sigs == [] && conns == [] && peers == [] && users == map[]
    {
      sigs, conns, peers, users := [], [], [], map[];
    }

    method SaveCachedSignature(row: Row)
      requires Valid()
      modifies this`sigs
      ensures Valid() && sigs == Save(old(sigs), row)
    {
      SaveKeepsUnique(sigs, row);
      sigs := Save(sigs, row);
    }

    method SaveCachedConnection(row: Row)
      requires Valid()
      modifies this`conns
      ensures Valid() && conns == Save(old(conns), row)
    {
      SaveKeepsUnique(conns, row);
      conns := Save(conns, row);
    }

    method SaveCachedUser(u: User)
      requires Valid()
      modifies this`users
      ensures Valid() && users == old(users)[u.id := u]
    {
      users := users[u.id := u];
    }

    method DeleteCachedSignature(id: ID) returns (ok: bool)
      requires Valid()
      modifies this`sigs
      ensures Valid() && sigs == Delete(old(sigs), id) && ok == HasId(old(sigs), id)
    {
      FilterKeepsOrder(sigs, (r: Row) => r.id != id);
      ok := HasId(sigs, id);
      sigs := Delete(sigs, id);
    }

    method DeleteCachedConnection(id: ID) returns (ok: bool)
      requires Valid()
      modifies this`conns
      ensures Valid() && conns == Delete(old(conns), id) && ok == HasId(old(conns), id)
    {
      FilterKeepsOrder(conns, (r: Row) => r.id != id);
      ok := HasId(conns, id);
      conns := Delete(conns, id);
    }

    method DeleteCachedUser(id: ID) returns (ok: bool)
      requires Valid()
      modifies this`users
      ensures Valid() && users == old(users) - {id} && ok == (id in old(users))
    {
      ok := id in users;
      users := users - {id};
    }

    method SavePeer(p: Peer)
      requires Valid()
      modifies this`peers
      ensures Valid() && peers == PutPeer(old(peers), p)
    {
      PutPeerKeepsSorted(peers, p);
      peers := PutPeer(peers, p);
    }

    method SetPeerLastSyncedAt(id: ID, at: int) returns (ok: bool)
      requires Valid()
      modifies this`peers
      ensures Valid() && peers == SetSynced(old(peers), id, at) && ok == HasPeer(old(peers), id)
    {
      ok := HasPeer(peers, id);
      peers := SetSynced(peers, id, at);
    }

    method RemovePeer(id: ID)
      requires Valid()
      modifies this`peers
      ensures Valid() && peers == RemovePeerFrom(old(peers), id)
    {
      RemoveKeepsSorted(peers, id);
      peers := RemovePeerFrom(peers, id);
    }

    /** `GetCachedSignature` and `GetCachedConnection`: the row with this id. */
    static method Get(rows: seq<Row>, id: ID) returns (row: Option<Row>)
      ensures row.Some? ==> row.value in rows && row.value.id == id
      ensures row.None? ==> !HasId(rows, id)
    {
      for i := 0 to |rows|
        invariant forall j :: 0 <= j < i ==> rows[j].id != id
      {
        if rows[i].id == id {
          return Some(rows[i]);
        }
      }
      return None;
    }

    /** The first row of a listing that revokes `t`. */
    static method FindRevocation(listing: seq<Row>, kind: Kind, t: Row) returns (found: Option<Row>)
      requires SortedByTime(listing)
      requires forall r :: r in listing ==> r.signer == t.signer
      ensures found.None? ==> forall r :: !Revokes(listing, kind, r, t)
      ensures found.Some? ==> Revokes(listing, kind, found.value, t)
      ensures found.Some? ==> forall r :: Revokes(listing, kind, r, t) ==> found.value.at <= r.at
    {
      for i := 0 to |listing|
        invariant forall j :: 0 <= j < i ==> !Revokes(listing, kind, listing[j], t)
      {
        var candidate := listing[i];
        if candidate.id != t.id && IsFor(candidate.body, kind, t.id) {
          return Some(candidate);
        }
      }
      return None;
    }

    /** `IsCachedSignatureRevoked`, and with the other kind `IsCachedConnectionRevoked`. */
    static method IsRevoked(rows: seq<Row>, kind: Kind, id: ID) returns (s: RevocationState)
      requires UniqueIds(rows)
      ensures s.NotFound? <==> !HasId(rows, id)
      ensures s.RevokedSince? <==> DerivedRevoked(rows, kind, id)
      ensures s.RevokedSince? ==> EarliestRevocation(rows, kind, id, s.at)
    {
      var target := Get(rows, id);
      if target.None? {
        return NotFound;
      }
      var t := target.value;
      var listing := BySigner(rows, t.signer);
      SortKeepsSorted(Filter(rows, (r: Row) => r.signer == t.signer));
      OwnListing(rows, kind, t);
      var found := FindRevocation(listing, kind, t);
      s := if found.None? then Unrevoked else RevokedSince(found.value.at);
      DerivedByTarget(rows, kind, t);
    }

    /** The first loop of `GetActiveConnection`. */
    static method RevokedConnections(listing: seq<Row>) returns (revoked: set<ID>)
      ensures revoked == NamedTargets(listing)
    {
      revoked := {};
      for i := 0 to |listing|
        invariant revoked == NamedTargets(listing[..i])
      {
        assert listing[..i + 1] == listing[..i] + [listing[i]];
        if IsKind(listing[i].body, ConnectionRevocation) && listing[i].body.payload.targetID != "" {
          revoked := revoked + {listing[i].body.payload.targetID};
        }
      }
      assert listing[..|listing|] == listing;
    }

    /** `GetActiveConnection`. */
    static method GetActiveConnection(conns: seq<Row>, signer: ID, other: ID) returns (best: Option<Row>)
      ensures best == ActiveConnection(conns, signer, other)
    {
      var listing := BySigner(conns, signer);
      var revoked := RevokedConnections(listing);
      best := None;
      for i := 0 to |listing|
        invariant best == LatestActive(revoked, other, listing[..i])
      {
        assert listing[..i + 1][..i] == listing[..i];
        var c := listing[i];
        if c.otherID != other {
          continue;
        }
        if c.id in revoked {
          continue;
        }
        if !IsKind(c.body, Connection) {
          continue;
        }
        if best.None? || c.at > best.value.at {
          best := Some(c);
        }
      }
      assert listing[..|listing|] == listing;
    }
  }
}
