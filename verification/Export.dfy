/** `tillit export` and `tillit import` (cmd/tillit/commands/export.go): a snapshot of the store,
    and the proof that importing it into an empty store gives the exported identity the same trust
    set and the same answers. */
module Export {
  import opened Order
  import opened Text
  import opened Payloads
  import opened Tables
  import opened Stores
  import opened TrustWalk
  import opened Resolver
  import opened Frame
  import opened Clean

  datatype Scope = ScopeSelf | ScopeIncludePeers | ScopeAll

  /** The parts of the export document a verdict depends on, and the public-key cache. */
  datatype ExportDoc = ExportDoc(peers: seq<Peer>, sigs: seq<Row>, conns: seq<Row>, users: map<ID, User>)

  /** The signers whose rows are exported; `None` stands for everyone. */
  function Signers(db: Db, scope: Scope, identity: ID): Option<set<ID>> {
    match scope
    case ScopeAll => None
    case ScopeIncludePeers => Some(if identity == "" then {} else Live(db, identity))
    case ScopeSelf => Some(if identity == "" then {} else {identity})
  }

  function RowsOf(rows: seq<Row>, signers: Option<set<ID>>): seq<Row> {
    if signers.None? then ListAll(rows) else Kept(ListAll(rows), signers.value)
  }

  function UsersOf(users: map<ID, User>, scope: Scope, signers: Option<set<ID>>): map<ID, User> {
    match scope
    case ScopeAll => users
    case ScopeIncludePeers => if signers.Some? then map u | u in users && u in signers.value :: users[u] else users
    case ScopeSelf => map[]
  }

  function Exported(db: Db, users: map<ID, User>, scope: Scope, identity: ID): ExportDoc {
    var signers := Signers(db, scope, identity);
    ExportDoc(db.peers, RowsOf(db.sigs, signers), RowsOf(db.conns, signers), UsersOf(users, scope, signers))
  }

  function ImportPeers(peers: seq<Peer>, more: seq<Peer>): seq<Peer>
    decreases |more|
  {
    if more == [] then peers
    else ImportPeers(if HasPeer(peers, more[0].id) then peers else PutPeer(peers, more[0]), more[1..])
  }

  function Imported(db: Db, doc: ExportDoc): Db {
    Db(SaveAll(db.sigs, doc.sigs), SaveAll(db.conns, doc.conns), ImportPeers(db.peers, doc.peers))
  }

  // ---- the commands ----

  method SelectRows(rows: seq<Row>, signers: set<ID>) returns (out: seq<Row>)
    ensures out == Kept(rows, signers)
  {
    out := [];
    for i := 0 to |rows|
      invariant out == Kept(rows[..i], signers)
    {
      assert rows[..i + 1][..i] == rows[..i];
      if rows[i].signer in signers {
        out := out + [rows[i]];
      }
    }
    assert rows[..|rows|] == rows;
  }

  /** `buildExportDoc`, for the identity of the chosen key. */
  method BuildExportDoc(s: Store, scope: Scope, identity: ID) returns (doc: ExportDoc)
    ensures doc == Exported(s.Tables(), s.users, scope, identity)
  {
    var peers, allSigs, allConns := s.peers, ListAll(s.sigs), ListAll(s.conns);
    match scope
    case ScopeAll =>
      doc := ExportDoc(peers, allSigs, allConns, s.users);
    case ScopeIncludePeers =>
      var signers: set<ID> := {};
      if identity != "" {
        var entries, _ := BuildTrustSet(s, identity, identity);
        signers := entries.Keys;
      }
      var sigs := SelectRows(allSigs, signers);
      var conns := SelectRows(allConns, signers);
      doc := ExportDoc(peers, sigs, conns, map u | u in s.users && u in signers :: s.users[u]);
    case ScopeSelf =>
      var signers := if identity == "" then {} else {identity};
      var sigs := SelectRows(allSigs, signers);
      var conns := SelectRows(allConns, signers);
      doc := ExportDoc(peers, sigs, conns, map[]);
  }

  function Skipped(peers: seq<Peer>, more: seq<Peer>): nat
    decreases |more|
  {
    if more == [] then 0
    else if HasPeer(peers, more[0].id) then 1 + Skipped(peers, more[1..])
    else Skipped(PutPeer(peers, more[0]), more[1..])
  }

  method AddPeers(s: Store, more: seq<Peer>) returns (skipped: nat)
    requires s.Valid()
    modifies s`peers
    ensures s.Valid() && s.peers == ImportPeers(old(s.peers), more) && skipped == Skipped(old(s.peers), more)
  {
    skipped := 0;
    for i := 0 to |more|
      invariant s.Valid() && skipped + Skipped(s.peers, more[i..]) == Skipped(old(s.peers), more)
      invariant ImportPeers(s.peers, more[i..]) == ImportPeers(old(s.peers), more)
    {
      assert more[i..][1..] == more[i + 1..];
      if HasPeer(s.peers, more[i].id) {
        skipped := skipped + 1;
        continue;
      }
      s.SavePeer(more[i]);
    }
  }

  method AddSignatures(s: Store, more: seq<Row>)
    requires s.Valid()
    modifies s`sigs
    ensures s.Valid() && s.sigs == SaveAll(old(s.sigs), more)
  {
    for i := 0 to |more|
      invariant s.Valid() && SaveAll(s.sigs, more[i..]) == SaveAll(old(s.sigs), more)
    {
      assert more[i..][1..] == more[i + 1..];
      s.SaveCachedSignature(more[i]);
    }
  }

  method AddConnections(s: Store, more: seq<Row>)
    requires s.Valid()
    modifies s`conns
    ensures s.Valid() && s.conns == SaveAll(old(s.conns), more)
  {
    for i := 0 to |more|
      invariant s.Valid() && SaveAll(s.conns, more[i..]) == SaveAll(old(s.conns), more)
    {
      assert more[i..][1..] == more[i + 1..];
      s.SaveCachedConnection(more[i]);
    }
  }

  method AddUsers(s: Store, users: map<ID, User>)
    requires s.Valid() && forall u :: u in users ==> users[u].id == u
    modifies s`users
    ensures s.Valid() && s.users == old(s.users) + users
  {
    var left := users.Keys;
    while left != {}
      invariant s.Valid() && left <= users.Keys
      invariant s.users == old(s.users) + (users - left)
      decreases left
    {
      var u :| u in left;
      s.SaveCachedUser(users[u]);
      left := left - {u};
    }
    assert users - left == users;
  }

  /** `applyImport`: existing peers are skipped, existing rows win, users are overwritten. */
  method ApplyImport(s: Store, doc: ExportDoc) returns (skipped: nat)
    requires s.Valid() && forall u :: u in doc.users ==> doc.users[u].id == u
    modifies s
    ensures s.Valid() && s.Tables() == Imported(old(s.Tables()), doc)
    ensures s.users == old(s.users) + doc.users
    ensures skipped == Skipped(old(s.peers), doc.peers)
  {
    skipped := AddPeers(s, doc.peers);
    AddSignatures(s, doc.sigs);
    AddConnections(s, doc.conns);
    AddUsers(s, doc.users);
  }

  // ---- what a snapshot holds, and what importing one does ----

  /** Whose rows a snapshot is about. */
  ghost predicate Selects(db: Db, scope: Scope, identity: ID, signer: ID) {
    match scope
    case ScopeAll => true
    case ScopeIncludePeers => identity != "" && signer in TrustSet(db.conns, db.peers, identity, identity)
    case ScopeSelf => identity != "" && signer == identity
  }

  /** A snapshot holds every peer, and every row and cached user in its scope and no others. */
  lemma ExportedMeans(db: Db, users: map<ID, User>, scope: Scope, identity: ID)
    ensures var doc := Exported(db, users, scope, identity);
      && doc.peers == db.peers
      && (forall r :: r in doc.sigs <==> r in db.sigs && Selects(db, scope, identity, r.signer))
      && (forall r :: r in doc.conns <==> r in db.conns && Selects(db, scope, identity, r.signer))
      && (forall u :: u in doc.users <==> u in users && !scope.ScopeSelf? && Selects(db, scope, identity, u))
      && (forall u :: u in doc.users ==> doc.users[u] == users[u])
  {
    SortMembers(db.sigs);
    SortMembers(db.conns);
  }

  /** The snapshot adds this peer. */
  ghost predicate AddsPeers(peers: seq<Peer>, more: seq<Peer>, p: Peer) {
    !HasPeer(peers, p.id) && exists i: nat :: i < |more| && FirstPeer(more, i) && p == more[i].(lastSyncedAt := None)
  }

  predicate FirstPeer(more: seq<Peer>, i: nat)
    requires i < |more|
  {
    forall k :: 0 <= k < i ==> more[k].id != more[i].id
  }

  lemma PutNewPeer(peers: seq<Peer>, p: Peer)
    requires SortedPeers(peers) && !HasPeer(peers, p.id)
    ensures forall q :: q in PutPeer(peers, p) <==> q in peers || q == p.(lastSyncedAt := None)
  {
    PutPeerStored(peers, p);
    forall q: Peer
      ensures q in PutPeer(peers, p) <==> q in peers || q == p.(lastSyncedAt := None)
    {
      if q.id != p.id {
        PutPeerOthers(peers, p, q);
      } else if q in PutPeer(peers, p) {
        PutPeerSyncTime(peers, p, q);
      } else {
        var r :| r in PutPeer(peers, p) && r.id == p.id;
        PutPeerSyncTime(peers, p, r);
      }
    }
  }

  lemma FirstPeerShift(peers: seq<Peer>, more: seq<Peer>, p: Peer)
    requires more != []
    ensures AddsPeers(peers, more, p) <==>
      && !HasPeer(peers, p.id)
      && (p == more[0].(lastSyncedAt := None) || (p.id != more[0].id && AddsPeers(peers, more[1..], p)))
  {
    var rest := more[1..];
    if !HasPeer(peers, p.id) {
      if i: nat :| i < |more| && FirstPeer(more, i) && p == more[i].(lastSyncedAt := None) {
        if i > 0 {
          assert FirstPeer(rest, i - 1) && rest[i - 1] == more[i];
        }
      }
      if p == more[0].(lastSyncedAt := None) {
        assert FirstPeer(more, 0);
      } else if p.id != more[0].id {
        if j: nat :| j < |rest| && FirstPeer(rest, j) && p == rest[j].(lastSyncedAt := None) {
          forall k | 0 <= k < j + 1
            ensures more[k].id != p.id
          {
            assert k > 0 ==> more[k] == rest[k - 1];
          }
          assert FirstPeer(more, j + 1) && more[j + 1] == rest[j];
        }
      }
    }
  }

  /** Existing peers stay as they are; of the others in the snapshot the first of each id is added,
      never synced. All that is not added is counted as skipped. */
  lemma {:induction false} ImportPeersMeans(peers: seq<Peer>, more: seq<Peer>)
    requires SortedPeers(peers)
    ensures var all := ImportPeers(peers, more);
      && SortedPeers(all) && |all| == |peers| + |more| - Skipped(peers, more)
      && forall p :: p in all <==> p in peers || AddsPeers(peers, more, p)
    decreases |more|
  {
    if more != [] {
      var peers' := if HasPeer(peers, more[0].id) then peers else PutPeer(peers, more[0]);
      if !HasPeer(peers, more[0].id) {
        PutPeerKeepsSorted(peers, more[0]);
        PutNewPeer(peers, more[0]);
        PutNewLength(peers, more[0]);
      }
      ImportPeersMeans(peers', more[1..]);
      forall p
        ensures p in ImportPeers(peers, more) <==> p in peers || AddsPeers(peers, more, p)
      {
        FirstPeerShift(peers, more, p);
      }
    }
  }

  /** The snapshot adds this row. */
  ghost predicate AddsRow(rows: seq<Row>, more: seq<Row>, r: Row) {
    !HasId(rows, r.id) && exists i: nat :: i < |more| && more[i] == r && FirstOfId(more, i)
  }

  /** Importing merges: what is stored stays as it is, and what is new is added. */
  lemma ImportMeans(db: Db, doc: ExportDoc)
    requires SortedPeers(db.peers)
    ensures var db' := Imported(db, doc);
      && (forall p :: p in db'.peers <==> p in db.peers || AddsPeers(db.peers, doc.peers, p))
      && (forall r :: r in db'.sigs <==> r in db.sigs || AddsRow(db.sigs, doc.sigs, r))
      && (forall r :: r in db'.conns <==> r in db.conns || AddsRow(db.conns, doc.conns, r))
  {
    ImportPeersMeans(db.peers, doc.peers);
    forall r
      ensures r in SaveAll(db.sigs, doc.sigs) <==> r in db.sigs || AddsRow(db.sigs, doc.sigs, r)
      ensures r in SaveAll(db.conns, doc.conns) <==> r in db.conns || AddsRow(db.conns, doc.conns, r)
    {
      SaveAllMeans(db.sigs, doc.sigs, r);
      SaveAllMeans(db.conns, doc.conns, r);
    }
  }

  lemma {:induction false} PutNewLength(peers: seq<Peer>, p: Peer)
    requires !HasPeer(peers, p.id)
    ensures |PutPeer(peers, p)| == |peers| + 1
  {
    if peers != [] {
      StringsConsistent(p.id, peers[0].id, p.id);
      assert peers == [peers[0]] + peers[1..];
      PutNewLength(peers[1..], p);
    }
  }

  // ---- the round trip ----

  /** A peer as a fresh database stores it. */
  function Unsynced(peers: seq<Peer>): (r: seq<Peer>)
    ensures |r| == |peers|
  {
    if peers == [] then [] else Unsynced(peers[..|peers| - 1]) + [peers[|peers| - 1].(lastSyncedAt := None)]
  }

  lemma {:induction false} UnsyncedIds(peers: seq<Peer>)
    ensures forall i :: 0 <= i < |peers| ==> Unsynced(peers)[i].id == peers[i].id
  {
    if peers != [] {
      UnsyncedIds(peers[..|peers| - 1]);
    }
  }

  lemma {:induction false} PutLast(peers: seq<Peer>, p: Peer)
    requires forall i :: 0 <= i < |peers| ==> CompareStrings(peers[i].id, p.id) < 0
    ensures PutPeer(peers, p) == peers + [p.(lastSyncedAt := None)]
    ensures !HasPeer(peers, p.id)
  {
    if peers != [] {
      PutLast(peers[1..], p);
      StringsConsistent(p.id, peers[0].id, p.id);
      assert peers == [peers[0]] + peers[1..];
    }
  }

  lemma {:induction false} ImportSortedPeers(peers: seq<Peer>, i: nat)
    requires SortedPeers(peers) && i <= |peers|
    ensures ImportPeers(Unsynced(peers[..i]), peers[i..]) == Unsynced(peers)
    decreases |peers| - i
  {
    if i == |peers| {
      assert peers[..i] == peers;
    } else {
      UnsyncedIds(peers[..i]);
      PutLast(Unsynced(peers[..i]), peers[i]);
      assert peers[..i + 1][..i] == peers[..i] && peers[i..][1..] == peers[i + 1..];
      ImportSortedPeers(peers, i + 1);
    }
  }

  lemma {:induction false} UnsyncedSeeds(peers: seq<Peer>)
    ensures PeerSeeds(Unsynced(peers)) == PeerSeeds(peers)
    ensures Distrusted(Unsynced(peers)) == Distrusted(peers)
  {
    if peers != [] {
      var front, last := peers[..|peers| - 1], peers[|peers| - 1];
      UnsyncedSeeds(front);
      assert Unsynced(peers)[..|front|] == Unsynced(front);
      DistrustedSnoc(front, last);
      DistrustedSnoc(Unsynced(front), last.(lastSyncedAt := None));
      assert peers == front + [last];
    }
  }

  /** Exporting lists a signer's rows by time; stored again and listed again they come out in the
      same order. */
  lemma ListedAgain(rows: seq<Row>, signers: Option<set<ID>>, id: ID)
    requires UniqueIds(rows) && (signers.Some? ==> id in signers.value)
    ensures BySigner(SaveAll([], RowsOf(rows, signers)), id) == BySigner(rows, id)
  {
    var own := (r: Row) => r.signer == id;
    var doc := RowsOf(rows, signers);
    SortKeepsSorted(rows);
    if signers.Some? {
      FilterKeepsOrder(ListAll(rows), (r: Row) => r.signer in signers.value);
      FilterFilter(ListAll(rows), (r: Row) => r.signer in signers.value, own);
    }
    assert [] + doc == doc;
    SaveAllFresh([], doc);
    FilterSort(rows, own);
    SortKeepsSorted(Filter(rows, own));
    SortSorted(SortByTime(Filter(rows, own)));
  }

  lemma RoundTripRows(db: Db, users: map<ID, User>, scope: Scope, identity: ID, id: ID)
    requires UniqueIds(db.sigs) && UniqueIds(db.conns)
    requires Signers(db, scope, identity).Some? ==> id in Signers(db, scope, identity).value
    ensures SameRowsOf(db, Imported(Db([], [], []), Exported(db, users, scope, identity)), id)
  {
    ListedAgain(db.sigs, Signers(db, scope, identity), id);
    ListedAgain(db.conns, Signers(db, scope, identity), id);
  }

  lemma RoundTripPeers(db: Db, users: map<ID, User>, scope: Scope, identity: ID)
    requires SortedPeers(db.peers)
    ensures SamePeers(db, Imported(Db([], [], []), Exported(db, users, scope, identity)))
  {
    ImportSortedPeers(db.peers, 0);
    assert db.peers[0..] == db.peers && Unsynced(db.peers[..0]) == [];
    UnsyncedSeeds(db.peers);
  }

  /** Export with peers, then import into an empty store: the exported identity sees the same
      trust set, and every possible answer about every package is the same. */
  lemma IncludePeersRoundTrip(db: Db, users: map<ID, User>, identity: ID, ecosystem: string, packageID: string)
    requires UniqueIds(db.sigs) && UniqueIds(db.conns) && SortedPeers(db.peers) && identity != ""
    ensures SameAnswers(db, Imported(Db([], [], []), Exported(db, users, ScopeIncludePeers, identity)),
                        Query(identity, identity, ecosystem, packageID))
  {
    var db' := Imported(Db([], [], []), Exported(db, users, ScopeIncludePeers, identity));
    ViewerIsLive(db, identity);
    RoundTripPeers(db, users, ScopeIncludePeers, identity);
    forall id | id in Live(db, identity)
      ensures SameRowsOf(db, db', id)
    {
      RoundTripRows(db, users, ScopeIncludePeers, identity, id);
    }
    SameRowsSameAnswers(db, db', Query(identity, identity, ecosystem, packageID));
  }

  /** A full backup restores every answer for every viewer. */
  lemma FullRoundTrip(db: Db, users: map<ID, User>, identity: ID, q: Query)
    requires UniqueIds(db.sigs) && UniqueIds(db.conns) && SortedPeers(db.peers)
    ensures SameAnswers(db, Imported(Db([], [], []), Exported(db, users, ScopeAll, identity)), q)
  {
    var db' := Imported(Db([], [], []), Exported(db, users, ScopeAll, identity));
    RoundTripPeers(db, users, ScopeAll, identity);
    forall id
      ensures SameRowsOf(db, db', id)
    {
      RoundTripRows(db, users, ScopeAll, identity, id);
    }
    SameRowsSameAnswers(db, db', q);
  }
}
