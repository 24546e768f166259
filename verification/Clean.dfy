/** `tillit clean` (cmd/tillit/commands/clean.go): drop the cached rows of every signer outside the
    active user's trust set, and prove that nothing anyone can ask changes. */
module Clean {
  import opened Payloads
  import opened Tables
  import opened Stores
  import opened TrustWalk
  import opened TrustWalkComplete
  import opened TrustWalkFrame
  import opened Resolver
  import opened Frame

  datatype PruneCandidates = PruneCandidates(sigs: seq<Row>, conns: seq<Row>, users: set<ID>)

  datatype PruneCounts = PruneCounts(sigs: nat, conns: nat, users: nat)

  datatype Outcome = NothingToClean | Aborted | Cleaned(counts: PruneCounts)

  function Live(db: Db, viewer: ID): set<ID> {
    TrustSet(db.conns, db.peers, viewer, viewer).Keys
  }

  function Kept(rows: seq<Row>, live: set<ID>): seq<Row> {
    Filter(rows, (r: Row) => r.signer in live)
  }

  function Pruned(db: Db, viewer: ID): Db {
    Db(Kept(db.sigs, Live(db, viewer)), Kept(db.conns, Live(db, viewer)), db.peers)
  }

  function Candidates(db: Db, users: set<ID>, viewer: ID): PruneCandidates {
    var live := Live(db, viewer);
    PruneCandidates(
      Filter(ListAll(db.sigs), (r: Row) => r.signer !in live),
      Filter(ListAll(db.conns), (r: Row) => r.signer !in live),
      users - live)
  }

  // ---- deleting rows one by one ----

  function DeleteAll(rows: seq<Row>, gone: seq<Row>): seq<Row>
    decreases |gone|
  {
    if gone == [] then rows else DeleteAll(Delete(rows, gone[0].id), gone[1..])
  }

  lemma {:induction false} DeleteAllMembers(rows: seq<Row>, gone: seq<Row>)
    ensures DeleteAll(rows, gone) == Filter(rows, (r: Row) => !HasId(gone, r.id))
    decreases |gone|
  {
    if gone == [] {
      FilterAll(rows, (r: Row) => !HasId(gone, r.id));
    } else {
      var rest, here := (r: Row) => !HasId(gone[1..], r.id), (r: Row) => r.id != gone[0].id;
      var both := (r: Row) => !HasId(gone, r.id);
      DeleteAllMembers(Filter(rows, here), gone[1..]);
      assert gone == [gone[0]] + gone[1..];
      forall r: Row
        ensures both(r) <==> here(r) && rest(r)
      {
      }
      FilterTwice(rows, here, rest, both);
    }
  }

  lemma {:induction false} FilterTwice(rows: seq<Row>, a: Row -> bool, b: Row -> bool, both: Row -> bool)
    requires forall r :: both(r) <==> a(r) && b(r)
    ensures Filter(Filter(rows, a), b) == Filter(rows, both)
  {
    if rows != [] {
      var front, last := rows[..|rows| - 1], rows[|rows| - 1];
      FilterTwice(front, a, b, both);
      FilterSnoc(Filter(front, a), last, b);
    }
  }

  /** Deleting the candidates by id leaves exactly the rows of live signers. */
  lemma DeleteCandidates(rows: seq<Row>, live: set<ID>)
    requires UniqueIds(rows)
    ensures DeleteAll(rows, Filter(ListAll(rows), (r: Row) => r.signer !in live)) == Kept(rows, live)
  {
    var gone := Filter(ListAll(rows), (r: Row) => r.signer !in live);
    SortMembers(rows);
    DeleteAllMembers(rows, gone);
    forall r | r in rows
      ensures !HasId(gone, r.id) <==> r.signer in live
    {
      if r.signer !in live {
        assert r in gone;
      }
      forall g | g in gone && g.id == r.id
        ensures g == r
      {
        UniqueRow(rows, g, r);
      }
    }
    FilterSame(rows, (r: Row) => !HasId(gone, r.id), (r: Row) => r.signer in live);
  }

  // ---- the command ----

  /** `findPruneCandidates`. */
  method FindPruneCandidates(s: Store, viewer: ID) returns (c: PruneCandidates)
    ensures c == Candidates(s.Tables(), s.users.Keys, viewer)
  {
    var entries, _ := BuildTrustSet(s, viewer, viewer);
    var live := entries.Keys;
    var sigs := Dead(ListAll(s.sigs), live);
    var conns := Dead(ListAll(s.conns), live);
    c := PruneCandidates(sigs, conns, s.users.Keys - live);
  }

  /** The rows of a listing that no live signer signed. */
  method Dead(all: seq<Row>, live: set<ID>) returns (dead: seq<Row>)
    ensures dead == Filter(all, (r: Row) => r.signer !in live)
  {
    dead := [];
    for i := 0 to |all|
      invariant dead == Filter(all[..i], (r: Row) => r.signer !in live)
    {
      assert all[..i + 1][..i] == all[..i];
      if all[i].signer !in live {
        dead := dead + [all[i]];
      }
    }
    assert all[..|all|] == all;
  }

  method PruneSignatures(s: Store, gone: seq<Row>) returns (count: nat)
    requires s.Valid() && UniqueIds(gone) && forall r :: r in gone ==> r in s.sigs
    modifies s`sigs
    ensures s.Valid() && s.sigs == DeleteAll(old(s.sigs), gone) && count == |gone|
  {
    count := 0;
    for i := 0 to |gone|
      invariant s.Valid() && count == i
      invariant DeleteAll(s.sigs, gone[i..]) == DeleteAll(old(s.sigs), gone)
      invariant forall r :: r in gone[i..] ==> r in s.sigs
    {
      assert gone[i..][1..] == gone[i + 1..] && gone[i] in gone[i..];
      var ok := s.DeleteCachedSignature(gone[i].id);
      if !ok {
        continue;
      }
      count := count + 1;
    }
  }

  method PruneConnections(s: Store, gone: seq<Row>) returns (count: nat)
    requires s.Valid() && UniqueIds(gone) && forall r :: r in gone ==> r in s.conns
    modifies s`conns
    ensures s.Valid() && s.conns == DeleteAll(old(s.conns), gone) && count == |gone|
  {
    count := 0;
    for i := 0 to |gone|
      invariant s.Valid() && count == i
      invariant DeleteAll(s.conns, gone[i..]) == DeleteAll(old(s.conns), gone)
      invariant forall r :: r in gone[i..] ==> r in s.conns
    {
      assert gone[i..][1..] == gone[i + 1..] && gone[i] in gone[i..];
      var ok := s.DeleteCachedConnection(gone[i].id);
      if !ok {
        continue;
      }
      count := count + 1;
    }
  }

  method PruneUsers(s: Store, gone: set<ID>) returns (count: nat)
    requires s.Valid() && gone <= s.users.Keys
    modifies s`users
    ensures s.Valid() && s.users == old(s.users) - gone && count == |gone|
  {
    count := 0;
    var left := gone;
    while left != {}
      invariant s.Valid() && left <= gone && count + |left| == |gone|
      invariant s.users == old(s.users) - (gone - left)
      decreases left
    {
      var u :| u in left;
      var ok := s.DeleteCachedUser(u);
      left := left - {u};
      if !ok {
        continue;
      }
      count := count + 1;
    }
  }

  /** `applyPrune`: every deletion finds its row, so the counts are the numbers of candidates. */
  method ApplyPrune(s: Store, c: PruneCandidates) returns (counts: PruneCounts)
    requires s.Valid()
    requires UniqueIds(c.sigs) && forall r :: r in c.sigs ==> r in s.sigs
    requires UniqueIds(c.conns) && forall r :: r in c.conns ==> r in s.conns
    requires c.users <= s.users.Keys
    modifies s
    ensures s.Valid() && s.peers == old(s.peers)
    ensures s.sigs == DeleteAll(old(s.sigs), c.sigs) && s.conns == DeleteAll(old(s.conns), c.conns)
    ensures s.users == old(s.users) - c.users
    ensures counts == PruneCounts(|c.sigs|, |c.conns|, |c.users|)
  {
    var sigs := PruneSignatures(s, c.sigs);
    var conns := PruneConnections(s, c.conns);
    var users := PruneUsers(s, c.users);
    counts := PruneCounts(sigs, conns, users);
  }

  /** `runClean`, with the answer to its prompt. */
  method RunClean(s: Store, viewer: ID, affirmed: bool) returns (outcome: Outcome)
    requires s.Valid()
    modifies s
    ensures s.Valid()
    ensures var c := Candidates(old(s.Tables()), old(s.users).Keys, viewer);
      outcome ==
        if c == PruneCandidates([], [], {}) then NothingToClean
        else if !affirmed then Aborted
        else Cleaned(PruneCounts(|c.sigs|, |c.conns|, |c.users|))
    ensures outcome.Aborted? ==> s.Tables() == old(s.Tables()) && s.users == old(s.users)
    ensures !outcome.Aborted? ==> s.Tables() == Pruned(old(s.Tables()), viewer)
    ensures !outcome.Aborted? ==> s.users == old(s.users) - (old(s.users).Keys - Live(old(s.Tables()), viewer))
  {
    var c := FindPruneCandidates(s, viewer);
    PruneIsExact(s.Tables(), viewer);
    if |c.sigs| + |c.conns| + |c.users| == 0 {
      NothingPruned(s.Tables(), viewer);
      assert s.users - {} == s.users;
      return NothingToClean;
    }
    if !affirmed {
      return Aborted;
    }
    var counts := ApplyPrune(s, c);
    outcome := Cleaned(counts);
  }

  /** The candidates are rows of their tables, and deleting them prunes. */
  lemma PruneIsExact(db: Db, viewer: ID)
    requires UniqueIds(db.sigs) && UniqueIds(db.conns)
    ensures var c := Candidates(db, {}, viewer);
      && UniqueIds(c.sigs) && (forall r :: r in c.sigs ==> r in db.sigs)
      && UniqueIds(c.conns) && (forall r :: r in c.conns ==> r in db.conns)
      && Pruned(db, viewer) == Db(DeleteAll(db.sigs, c.sigs), DeleteAll(db.conns, c.conns), db.peers)
  {
    var live := Live(db, viewer);
    CandidatesAreRows(db.sigs, live);
    CandidatesAreRows(db.conns, live);
    DeleteCandidates(db.sigs, live);
    DeleteCandidates(db.conns, live);
  }

  lemma NothingPruned(db: Db, viewer: ID)
    requires UniqueIds(db.sigs) && UniqueIds(db.conns)
    requires Candidates(db, {}, viewer).sigs == [] && Candidates(db, {}, viewer).conns == []
    ensures Pruned(db, viewer) == db
  {
    PruneIsExact(db, viewer);
  }

  lemma CandidatesAreRows(rows: seq<Row>, live: set<ID>)
    requires UniqueIds(rows)
    ensures var gone := Filter(ListAll(rows), (r: Row) => r.signer !in live);
      UniqueIds(gone) && forall r :: r in gone ==> r in rows
  {
    SortKeepsSorted(rows);
    SortMembers(rows);
    FilterKeepsOrder(ListAll(rows), (r: Row) => r.signer !in live);
  }

  /** Pruning drops exactly the rows and cached users of everyone outside the trust set. */
  lemma PrunedMeans(db: Db, users: set<ID>, viewer: ID)
    ensures var entries, c := TrustSet(db.conns, db.peers, viewer, viewer), Candidates(db, users, viewer);
      && (forall r :: r in Pruned(db, viewer).sigs <==> r in db.sigs && r.signer in entries)
      && (forall r :: r in Pruned(db, viewer).conns <==> r in db.conns && r.signer in entries)
      && (forall r :: r in c.sigs <==> r in db.sigs && r.signer !in entries)
      && (forall r :: r in c.conns <==> r in db.conns && r.signer !in entries)
      && (forall u :: u in c.users <==> u in users && u !in entries)
      && Pruned(db, viewer).peers == db.peers
  {
    SortMembers(db.sigs);
    SortMembers(db.conns);
  }

  // ---- nothing changes ----

  lemma KeptListing(rows: seq<Row>, live: set<ID>, id: ID)
    requires id in live
    ensures BySigner(Kept(rows, live), id) == BySigner(rows, id)
  {
    FilterFilter(rows, (r: Row) => r.signer in live, (r: Row) => r.signer == id);
  }

  lemma PrunedSameRows(db: Db, viewer: ID, id: ID)
    requires id in Live(db, viewer)
    ensures SameRowsOf(db, Pruned(db, viewer), id)
  {
    KeptListing(db.sigs, Live(db, viewer), id);
    KeptListing(db.conns, Live(db, viewer), id);
  }

  lemma ViewerIsLive(db: Db, viewer: ID)
    requires viewer != ""
    ensures viewer in Live(db, viewer)
  {
    var g := GraphFor(db.conns, db.peers, viewer, viewer);
    WalkGrows(g, g.seeds, Start(viewer), viewer);
  }

  /** Every peer that is not distrusted is live: cleaning never drops its rows. */
  lemma PeersAreLive(db: Db, viewer: ID, p: Peer)
    requires viewer != "" && SortedPeers(db.peers) && p in db.peers && !p.distrusted
    ensures p.id in Live(db, viewer)
  {
    var g := GraphFor(db.conns, db.peers, viewer, viewer);
    forall q | q in db.peers && q.id == p.id
      ensures q == p
    {
      var i, j :| 0 <= i < |db.peers| && 0 <= j < |db.peers| && db.peers[i] == p && db.peers[j] == q;
      DistinctIds(db.peers, i, j);
    }
    assert PeerSeed(p) in g.seeds;
    TrustSetComplete(db.conns, db.peers, viewer, viewer);
  }

  /** Cleaning preserves meaning: for the active user, the trust set with its paths and flags and
      every possible answer about every package stay the same. */
  lemma CleanKeepsAnswers(db: Db, viewer: ID, ecosystem: string, packageID: string)
    requires viewer != ""
    ensures SameAnswers(db, Pruned(db, viewer), Query(viewer, viewer, ecosystem, packageID))
  {
    ViewerIsLive(db, viewer);
    forall id | id in Live(db, viewer)
      ensures SameRowsOf(db, Pruned(db, viewer), id)
    {
      PrunedSameRows(db, viewer, id);
    }
    SameRowsSameAnswers(db, Pruned(db, viewer), Query(viewer, viewer, ecosystem, packageID));
  }

  /** No surviving row changes between revoked and not revoked. */
  lemma CleanKeepsRevocation(rows: seq<Row>, live: set<ID>, kind: Kind, row: Row)
    requires UniqueIds(rows) && row in Kept(rows, live)
    ensures DerivedRevoked(Kept(rows, live), kind, row.id) <==> DerivedRevoked(rows, kind, row.id)
  {
    FilterKeepsOrder(rows, (r: Row) => r.signer in live);
    DerivedByTarget(rows, kind, row);
    DerivedByTarget(Kept(rows, live), kind, row);
    forall r
      ensures Revokes(rows, kind, r, row) <==> Revokes(Kept(rows, live), kind, r, row)
    {
    }
  }

  /** A second clean finds nothing. */
  lemma CleanTwice(db: Db, users: map<ID, User>, viewer: ID)
    requires viewer != ""
    ensures var left := users - (users.Keys - Live(db, viewer));
      Candidates(Pruned(db, viewer), left.Keys, viewer) == PruneCandidates([], [], {})
    ensures Pruned(Pruned(db, viewer), viewer) == Pruned(db, viewer)
  {
    var live, db' := Live(db, viewer), Pruned(db, viewer);
    CleanKeepsAnswers(db, viewer, "", "");
    assert Trusts(db', Query(viewer, viewer, "", "")) == Trusts(db, Query(viewer, viewer, "", ""));
    assert Live(db', viewer) == live;
    SortMembers(db'.sigs);
    SortMembers(db'.conns);
    FilterNone(ListAll(db'.sigs), (r: Row) => r.signer !in live);
    FilterNone(ListAll(db'.conns), (r: Row) => r.signer !in live);
    FilterAll(db'.sigs, (r: Row) => r.signer in live);
    FilterAll(db'.conns, (r: Row) => r.signer in live);
  }
}
