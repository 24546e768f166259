/** The rows and listings of the local database, as values.

    `cached_signatures` and `cached_connections` have the same shape except that only connections
    use `otherID`, so one row type serves both: `at` is `uploaded_at` or `created_at`. A table is
    kept in insertion order. A listing is ordered by time, and rows of equal time keep their
    insertion order. Times are whole seconds, as RFC 3339 text stores them. */
module Tables {
  import opened Text
  import opened Order
  import opened Payloads

  datatype Row = Row(
    id: ID,
    signer: ID,
    otherID: ID,
    body: Body,
    algorithm: string,
    sig: string,
    at: int,
    revoked: bool,
    revokedAt: Option<int>,
    fetchedAt: int)

  datatype Peer = Peer(
    id: ID,
    serverURL: string,
    trustDepth: int,
    public: bool,
    distrusted: bool,
    vetoOnly: bool,
    lastSyncedAt: Option<int>)

  datatype User = User(id: ID, username: string, pubKey: string, algorithm: string, fetchedAt: int)

  /** The tables a verdict can depend on. */
  datatype Db = Db(sigs: seq<Row>, conns: seq<Row>, peers: seq<Peer>)

  // ---- rows ----

  function Filter(rows: seq<Row>, keep: Row -> bool): (kept: seq<Row>)
    ensures forall r :: r in kept <==> r in rows && keep(r)
  {
    if rows == [] then []
    else
      var n := |rows| - 1;
      assert rows == rows[..n] + [rows[n]];
      var front := Filter(rows[..n], keep);
      if keep(rows[n]) then front + [rows[n]] else front
  }

  predicate UniqueIds(rows: seq<Row>) {
    forall i, j :: 0 <= i < j < |rows| ==> rows[i].id != rows[j].id
  }

  predicate HasId(rows: seq<Row>, id: ID) {
    exists r :: r in rows && r.id == id
  }

  /** `INSERT ... ON CONFLICT(id) DO NOTHING`. */
  function Save(rows: seq<Row>, row: Row): seq<Row> {
    if HasId(rows, row.id) then rows else rows + [row]
  }

  function SaveAll(rows: seq<Row>, more: seq<Row>): seq<Row>
    decreases |more|
  {
    if more == [] then rows else SaveAll(Save(rows, more[0]), more[1..])
  }

  function Delete(rows: seq<Row>, id: ID): seq<Row> {
    Filter(rows, (r: Row) => r.id != id)
  }

  predicate SortedByTime(rows: seq<Row>) {
    forall i, j :: 0 <= i < j < |rows| ==> rows[i].at <= rows[j].at
  }

  /** Put `row` after every row that is not later than it. */
  function InsertByTime(rows: seq<Row>, row: Row): seq<Row> {
    if rows == [] then [row]
    else
      var n := |rows| - 1;
      if rows[n].at <= row.at then rows + [row] else InsertByTime(rows[..n], row) + [rows[n]]
  }

  /** `ORDER BY` time `ASC`. */
  function SortByTime(rows: seq<Row>): seq<Row> {
    if rows == [] then []
    else
      var n := |rows| - 1;
      InsertByTime(SortByTime(rows[..n]), rows[n])
  }

  function ListAll(rows: seq<Row>): seq<Row> {
    SortByTime(rows)
  }

  function BySigner(rows: seq<Row>, signer: ID): seq<Row> {
    SortByTime(Filter(rows, (r: Row) => r.signer == signer))
  }

  lemma {:induction false} InsertMembers(rows: seq<Row>, row: Row)
    ensures forall x :: x in InsertByTime(rows, row) <==> x in rows || x == row
  {
    if rows != [] {
      var n := |rows| - 1;
      assert rows == rows[..n] + [rows[n]];
      InsertMembers(rows[..n], row);
    }
  }

  lemma {:induction false} SortMembers(rows: seq<Row>)
    ensures forall x :: x in SortByTime(rows) <==> x in rows
  {
    if rows != [] {
      var n := |rows| - 1;
      assert rows == rows[..n] + [rows[n]];
      SortMembers(rows[..n]);
      InsertMembers(SortByTime(rows[..n]), rows[n]);
    }
  }

  lemma {:induction false} InsertKeepsSorted(rows: seq<Row>, row: Row)
    requires SortedByTime(rows)
    ensures SortedByTime(InsertByTime(rows, row))
  {
    if rows != [] && rows[|rows| - 1].at > row.at {
      var n := |rows| - 1;
      var front := InsertByTime(rows[..n], row);
      InsertKeepsSorted(rows[..n], row);
      InsertMembers(rows[..n], row);
      forall i | 0 <= i < |front|
        ensures front[i].at <= rows[n].at
      {
        assert front[i] in front;
      }
    }
  }

  lemma {:induction false} InsertKeepsUnique(rows: seq<Row>, row: Row)
    requires UniqueIds(rows) && !HasId(rows, row.id)
    ensures UniqueIds(InsertByTime(rows, row))
  {
    if rows != [] {
      var n := |rows| - 1;
      assert rows[n] in rows && forall r :: r in rows[..n] ==> r in rows;
      InsertKeepsUnique(rows[..n], row);
      InsertMembers(rows[..n], row);
      var front := InsertByTime(rows[..n], row);
      assert forall i :: 0 <= i < |front| ==> front[i] in front;
      assert forall i :: 0 <= i < |rows| ==> rows[i] in rows;
    }
  }

  lemma {:induction false} SortKeepsSorted(rows: seq<Row>)
    ensures SortedByTime(SortByTime(rows))
    ensures UniqueIds(rows) ==> UniqueIds(SortByTime(rows))
  {
    if rows != [] {
      var n := |rows| - 1;
      SortKeepsSorted(rows[..n]);
      SortMembers(rows[..n]);
      InsertKeepsSorted(SortByTime(rows[..n]), rows[n]);
      if UniqueIds(rows) {
        InsertKeepsUnique(SortByTime(rows[..n]), rows[n]);
      }
    }
  }

  lemma BySignerMembers(rows: seq<Row>, signer: ID, r: Row)
    ensures r in BySigner(rows, signer) <==> r in rows && r.signer == signer
  {
    SortMembers(Filter(rows, (x: Row) => x.signer == signer));
  }

  lemma {:induction false} FilterFilter(rows: seq<Row>, outer: Row -> bool, inner: Row -> bool)
    requires forall r :: r in rows && inner(r) ==> outer(r)
    ensures Filter(Filter(rows, outer), inner) == Filter(rows, inner)
  {
    if rows != [] {
      var n := |rows| - 1;
      FilterFilter(rows[..n], outer, inner);
      var kept := Filter(rows[..n], outer);
      FilterSnoc(kept, rows[n], inner);
      assert rows[n] in rows;
    }
  }

  lemma {:induction false} FilterAll(rows: seq<Row>, keep: Row -> bool)
    requires forall r :: r in rows ==> keep(r)
    ensures Filter(rows, keep) == rows
  {
    if rows != [] {
      var n := |rows| - 1;
      assert rows == rows[..n] + [rows[n]];
      FilterAll(rows[..n], keep);
    }
  }

  lemma {:induction false} FilterNone(rows: seq<Row>, keep: Row -> bool)
    requires forall r :: r in rows ==> !keep(r)
    ensures Filter(rows, keep) == []
  {
    if rows != [] {
      FilterNone(rows[..|rows| - 1], keep);
    }
  }

  lemma {:induction false} FilterSame(rows: seq<Row>, keep: Row -> bool, keep': Row -> bool)
    requires forall r :: r in rows ==> keep(r) == keep'(r)
    ensures Filter(rows, keep) == Filter(rows, keep')
  {
    if rows != [] {
      FilterSame(rows[..|rows| - 1], keep, keep');
    }
  }

  lemma {:induction false} FilterKeepsOrder(rows: seq<Row>, keep: Row -> bool)
    ensures SortedByTime(rows) ==> SortedByTime(Filter(rows, keep))
    ensures UniqueIds(rows) ==> UniqueIds(Filter(rows, keep))
  {
    if rows != [] {
      var n := |rows| - 1;
      var front := Filter(rows[..n], keep);
      FilterKeepsOrder(rows[..n], keep);
      assert forall i :: 0 <= i < |front| ==> front[i] in rows[..n];
    }
  }

  lemma FilterSnoc(rows: seq<Row>, last: Row, keep: Row -> bool)
    ensures Filter(rows + [last], keep) == if keep(last) then Filter(rows, keep) + [last] else Filter(rows, keep)
  {
    assert (rows + [last])[..|rows|] == rows;
  }

  lemma InsertSnoc(rows: seq<Row>, last: Row, row: Row)
    ensures InsertByTime(rows + [last], row)
         == if last.at <= row.at then rows + [last] + [row] else InsertByTime(rows, row) + [last]
  {
    assert (rows + [last])[..|rows|] == rows;
  }

  lemma SortSnoc(rows: seq<Row>, last: Row)
    ensures SortByTime(rows + [last]) == InsertByTime(SortByTime(rows), last)
  {
    assert (rows + [last])[..|rows|] == rows;
  }

  lemma InsertLast(rows: seq<Row>, row: Row)
    requires forall r :: r in rows ==> r.at <= row.at
    ensures InsertByTime(rows, row) == rows + [row]
  {
    if rows != [] {
      assert rows[|rows| - 1] in rows;
    }
  }

  lemma {:induction false} FilterInsert(rows: seq<Row>, row: Row, keep: Row -> bool)
    requires SortedByTime(rows)
    ensures Filter(InsertByTime(rows, row), keep)
         == if keep(row) then InsertByTime(Filter(rows, keep), row) else Filter(rows, keep)
  {
    if rows == [] || rows[|rows| - 1].at <= row.at {
      FilterSnoc(rows, row, keep);
      InsertLast(rows, row);
      InsertLast(Filter(rows, keep), row);
    } else {
      var front, last := rows[..|rows| - 1], rows[|rows| - 1];
      FilterInsert(front, row, keep);
      FilterSnoc(InsertByTime(front, row), last, keep);
      InsertSnoc(Filter(front, keep), last, row);
    }
  }

  /** Selecting rows and ordering them may be done in either order. */
  lemma {:induction false} FilterSort(rows: seq<Row>, keep: Row -> bool)
    ensures Filter(SortByTime(rows), keep) == SortByTime(Filter(rows, keep))
  {
    if rows != [] {
      var front, last := rows[..|rows| - 1], rows[|rows| - 1];
      FilterSort(front, keep);
      SortKeepsSorted(front);
      FilterInsert(SortByTime(front), last, keep);
      SortSnoc(Filter(front, keep), last);
    }
  }

  lemma {:induction false} SortSorted(rows: seq<Row>)
    requires SortedByTime(rows)
    ensures SortByTime(rows) == rows
  {
    if rows != [] {
      var n := |rows| - 1;
      assert rows == rows[..n] + [rows[n]];
      SortSorted(rows[..n]);
      InsertLast(rows[..n], rows[n]);
    }
  }

  lemma {:induction false} SaveAllFresh(rows: seq<Row>, more: seq<Row>)
    requires UniqueIds(rows + more)
    ensures SaveAll(rows, more) == rows + more
    decreases |more|
  {
    if more == [] {
      assert rows + more == rows;
    } else {
      assert rows + more == (rows + [more[0]]) + more[1..];
      forall r | r in rows
        ensures r.id != more[0].id
      {
        var i :| 0 <= i < |rows| && rows[i] == r;
        assert (rows + more)[i] == r && (rows + more)[|rows|] == more[0];
      }
      SaveAllFresh(rows + [more[0]], more[1..]);
    }
  }

  lemma {:induction false} SaveAllIds(rows: seq<Row>, more: seq<Row>, id: ID)
    ensures HasId(SaveAll(rows, more), id) <==> HasId(rows, id) || HasId(more, id)
    decreases |more|
  {
    if more != [] {
      SaveAllIds(Save(rows, more[0]), more[1..], id);
      assert more == [more[0]] + more[1..];
      assert forall r :: r in rows + [more[0]] <==> r in rows || r == more[0];
    }
  }

  /** `rows[i]` is the first row of its id. */
  predicate FirstOfId(rows: seq<Row>, i: nat)
    requires i < |rows|
  {
    forall k :: 0 <= k < i ==> rows[k].id != rows[i].id
  }

  /** Stored rows stay, and of the rows saved the first of each new id is added. */
  lemma {:induction false} SaveAllMeans(rows: seq<Row>, more: seq<Row>, r: Row)
    ensures r in SaveAll(rows, more) <==>
      r in rows || (!HasId(rows, r.id) && exists i: nat :: i < |more| && more[i] == r && FirstOfId(more, i))
    decreases |more|
  {
    if more != [] {
      var rest, saved := more[1..], Save(rows, more[0]);
      SaveAllMeans(saved, rest, r);
      assert forall x :: x in rows + [more[0]] <==> x in rows || x == more[0];
      assert HasId(saved, r.id) <==> HasId(rows, r.id) || r.id == more[0].id;
      FirstOfIdShift(more, r);
    }
  }

  lemma FirstOfIdShift(more: seq<Row>, r: Row)
    requires more != []
    ensures (exists i: nat :: i < |more| && more[i] == r && FirstOfId(more, i)) <==>
      || more[0] == r
      || (r.id != more[0].id && exists j: nat :: j < |more| - 1 && more[1..][j] == r && FirstOfId(more[1..], j))
  {
    var rest := more[1..];
    if i: nat :| i < |more| && more[i] == r && FirstOfId(more, i) {
      if i > 0 {
        assert rest[i - 1] == r && FirstOfId(rest, i - 1);
      }
    }
    if more[0] == r {
      assert FirstOfId(more, 0);
    }
    if r.id != more[0].id {
      if j: nat :| j < |more| - 1 && rest[j] == r && FirstOfId(rest, j) {
        forall k | 0 <= k < j + 1
          ensures more[k].id != r.id
        {
          assert k > 0 ==> more[k] == rest[k - 1];
        }
        assert more[j + 1] == r && FirstOfId(more, j + 1);
      }
    }
  }

  lemma SaveKeepsUnique(rows: seq<Row>, row: Row)
    requires UniqueIds(rows)
    ensures UniqueIds(Save(rows, row))
  {
    if !HasId(rows, row.id) {
      assert forall i :: 0 <= i < |rows| ==> rows[i] in rows;
    }
  }

  /** Rows of one table have one row per id, so an id is a key into any sub-listing. */
  lemma UniqueRow(rows: seq<Row>, a: Row, b: Row)
    requires UniqueIds(rows) && a in rows && b in rows && a.id == b.id
    ensures a == b
  {
  }

  /** A listing is a stable sort: it is ordered by time, and rows of one time stand in it exactly
      as they stand in the table. */
  lemma ListingIsStable(rows: seq<Row>, time: int)
    ensures SortedByTime(ListAll(rows))
    ensures Filter(ListAll(rows), (r: Row) => r.at == time) == Filter(rows, (r: Row) => r.at == time)
  {
    var atTime := (r: Row) => r.at == time;
    SortKeepsSorted(rows);
    FilterSort(rows, atTime);
    assert forall i :: 0 <= i < |Filter(rows, atTime)| ==> Filter(rows, atTime)[i] in Filter(rows, atTime);
    SortSorted(Filter(rows, atTime));
  }

  // ---- peers, kept in id order ----

  predicate SortedPeers(peers: seq<Peer>) {
    forall i, j :: 0 <= i < j < |peers| ==> CompareStrings(peers[i].id, peers[j].id) < 0
  }

  /** `SavePeer`: an upsert that never writes `last_synced_at`. */
  function PutPeer(peers: seq<Peer>, p: Peer): (r: seq<Peer>)
    ensures forall q :: q in r ==> q.id == p.id || q in peers
  {
    if peers == [] then [p.(lastSyncedAt := None)]
    else
      var c := CompareStrings(p.id, peers[0].id);
      assert peers == [peers[0]] + peers[1..];
      if c < 0 then [p.(lastSyncedAt := None)] + peers
      else if c == 0 then [p.(lastSyncedAt := peers[0].lastSyncedAt)] + peers[1..]
      else [peers[0]] + PutPeer(peers[1..], p)
  }

  lemma {:induction false} PutPeerKeepsSorted(peers: seq<Peer>, p: Peer)
    requires SortedPeers(peers)
    ensures SortedPeers(PutPeer(peers, p))
  {
    if peers != [] {
      var c := CompareStrings(p.id, peers[0].id);
      StringsConsistent(p.id, peers[0].id, "");
      if c < 0 {
        PutPeerFront(peers, p.id);
      } else if c > 0 {
        PutPeerKeepsSorted(peers[1..], p);
        FirstIsLeast(peers);
        PrependSorted(peers[0], PutPeer(peers[1..], p));
      }
    }
  }

  lemma FirstIsLeast(peers: seq<Peer>)
    requires SortedPeers(peers) && peers != []
    ensures forall q :: q in peers[1..] ==> CompareStrings(peers[0].id, q.id) < 0
  {
    forall q | q in peers[1..]
      ensures CompareStrings(peers[0].id, q.id) < 0
    {
      var i :| 0 < i < |peers| && peers[i] == q;
    }
  }

  lemma PrependSorted(first: Peer, rest: seq<Peer>)
    requires SortedPeers(rest) && forall q :: q in rest ==> CompareStrings(first.id, q.id) < 0
    ensures SortedPeers([first] + rest)
  {
    forall i | 0 <= i < |rest|
      ensures CompareStrings(first.id, rest[i].id) < 0
    {
      assert rest[i] in rest;
    }
  }

  lemma PutPeerFront(peers: seq<Peer>, id: ID)
    requires SortedPeers(peers) && peers != [] && CompareStrings(id, peers[0].id) < 0
    ensures forall i :: 0 <= i < |peers| ==> CompareStrings(id, peers[i].id) < 0
    ensures forall q :: q in peers ==> q.id != id
  {
    forall i | 0 <= i < |peers|
      ensures CompareStrings(id, peers[i].id) < 0 && peers[i].id != id
    {
      StringsConsistent(id, peers[0].id, peers[i].id);
      StringsConsistent(id, peers[i].id, id);
    }
  }

  /** The stored peer is the one last put, but for the time it was last synced. */
  lemma {:induction false} PutPeerStored(peers: seq<Peer>, p: Peer)
    requires SortedPeers(peers)
    ensures exists q :: q in PutPeer(peers, p) && q.id == p.id
    ensures forall q :: q in PutPeer(peers, p) && q.id == p.id ==> q == p.(lastSyncedAt := q.lastSyncedAt)
  {
    var r := PutPeer(peers, p);
    if peers == [] {
      assert r[0] in r;
    } else {
      assert peers == [peers[0]] + peers[1..];
      StringsConsistent(p.id, peers[0].id, "");
      if CompareStrings(p.id, peers[0].id) < 0 {
        PutPeerFront(peers, p.id);
        assert r[0] in r;
      } else if p.id == peers[0].id {
        SortedIds(peers);
        assert r[0] in r;
      } else {
        PutPeerStored(peers[1..], p);
      }
    }
  }

  /** A peer keeps that time when it is put again, and a new one has none. */
  lemma {:induction false} PutPeerSyncTime(peers: seq<Peer>, p: Peer, q: Peer)
    requires SortedPeers(peers) && q in PutPeer(peers, p) && q.id == p.id
    ensures forall o :: o in peers && o.id == p.id ==> q.lastSyncedAt == o.lastSyncedAt
    ensures HasPeer(peers, p.id) || q.lastSyncedAt.None?
  {
    if peers != [] {
      var first, rest := peers[0], peers[1..];
      assert peers == [first] + rest;
      StringsConsistent(p.id, first.id, "");
      if CompareStrings(p.id, first.id) < 0 {
        PutPeerFront(peers, p.id);
      } else if p.id == first.id {
        SortedIds(peers);
      } else {
        PutPeerSyncTime(rest, p, q);
      }
    }
  }

  /** Every other peer stays as it is. */
  lemma {:induction false} PutPeerOthers(peers: seq<Peer>, p: Peer, q: Peer)
    requires q.id != p.id
    ensures q in PutPeer(peers, p) <==> q in peers
  {
    if peers != [] {
      assert peers == [peers[0]] + peers[1..];
      StringsConsistent(p.id, peers[0].id, "");
      PutPeerOthers(peers[1..], p, q);
    }
  }

  lemma SortedIds(peers: seq<Peer>)
    requires SortedPeers(peers) && peers != []
    ensures forall q :: q in peers[1..] ==> q.id != peers[0].id
  {
    forall q | q in peers[1..]
      ensures q.id != peers[0].id
    {
      var i :| 0 < i < |peers| && peers[i] == q;
      StringsConsistent(peers[0].id, q.id, "");
    }
  }

  function RemovePeerFrom(peers: seq<Peer>, id: ID): (r: seq<Peer>)
    ensures forall q :: q in r <==> q in peers && q.id != id
  {
    if peers == [] then []
    else
      var rest := RemovePeerFrom(peers[1..], id);
      assert peers == [peers[0]] + peers[1..];
      if peers[0].id == id then rest else [peers[0]] + rest
  }

  lemma {:induction false} RemoveKeepsSorted(peers: seq<Peer>, id: ID)
    requires SortedPeers(peers)
    ensures SortedPeers(RemovePeerFrom(peers, id))
  {
    if peers != [] {
      var rest := RemovePeerFrom(peers[1..], id);
      RemoveKeepsSorted(peers[1..], id);
      FirstIsLeast(peers);
      PrependSorted(peers[0], rest);
    }
  }

  /** `SetPeerLastSyncedAt`. */
  function SetSynced(peers: seq<Peer>, id: ID, at: int): seq<Peer> {
    seq(|peers|,
      i requires 0 <= i < |peers| => if peers[i].id == id then peers[i].(lastSyncedAt := Some(at)) else peers[i])
  }

  lemma SyncedKeepsSorted(peers: seq<Peer>, id: ID, at: int)
    requires SortedPeers(peers)
    ensures SortedPeers(SetSynced(peers, id, at))
  {
    forall i, j | 0 <= i < j < |peers|
      ensures CompareStrings(SetSynced(peers, id, at)[i].id, SetSynced(peers, id, at)[j].id) < 0
    {
      assert CompareStrings(peers[i].id, peers[j].id) < 0;
    }
  }

  lemma DistinctIds(peers: seq<Peer>, i: nat, j: nat)
    requires SortedPeers(peers) && i < |peers| && j < |peers| && peers[i].id == peers[j].id
    ensures i == j
  {
    StringsConsistent(peers[i].id, peers[j].id, "");
    StringsConsistent(peers[j].id, peers[i].id, "");
  }

  predicate HasPeer(peers: seq<Peer>, id: ID) {
    exists p :: p in peers && p.id == id
  }
}
