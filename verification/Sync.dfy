/** Incremental synchronisation of one peer (cmd/tillit/commands/sync.go, `Sync`): what the server
    sends, and what the client does with it. `SyncProtocol` lets whole syncs, uploads and the other
    commands of the client take turns. */
module Sync {
  import opened Text
  import opened Payloads
  import opened Tables
  import opened Stores
  import opened Server

  /** Time is kept in nanoseconds and stored in whole seconds. */
  const NANOS_PER_SECOND: nat := 1_000_000_000

  function Second(nanos: nat): nat {
    nanos / NANOS_PER_SECOND
  }

  /** Whether the client's own check accepts a signature as the peer's. */
  type Accepts = (ID, Signature) -> bool

  // ---- what the server sends ----

  function InsertByUpload(rows: seq<Signature>, row: Signature): (r: seq<Signature>)
    ensures forall x :: x in r <==> x in rows || x == row
  {
    if rows == [] then [row]
    else
      var n := |rows| - 1;
      assert rows == rows[..n] + [rows[n]];
      if rows[n].uploadedAt <= row.uploadedAt then rows + [row] else InsertByUpload(rows[..n], row) + [rows[n]]
  }

  predicate Sent(row: Signature, signer: ID, since: Option<int>, includePrivate: bool) {
    row.signer == signer && (includePrivate || row.public) && (since.None? || row.uploadedAt >= since.value)
  }

  /** `GetUserSignatures`: the rows of the signer uploaded at or after `since`, oldest first; without
      the private ones for everyone but the signer. */
  function GetUserSignatures(rows: seq<Signature>, signer: ID, since: Option<int>,
                             includePrivate: bool): (sent: seq<Signature>)
    ensures forall r :: r in sent <==> r in rows && Sent(r, signer, since, includePrivate)
  {
    if rows == [] then []
    else
      var n := |rows| - 1;
      assert rows == rows[..n] + [rows[n]];
      var sent := GetUserSignatures(rows[..n], signer, since, includePrivate);
      if Sent(rows[n], signer, since, includePrivate) then InsertByUpload(sent, rows[n]) else sent
  }

  predicate OldestFirst(rows: seq<Signature>) {
    forall i, j :: 0 <= i < j < |rows| ==> rows[i].uploadedAt <= rows[j].uploadedAt
  }

  lemma {:induction false} InsertOldestFirst(rows: seq<Signature>, row: Signature)
    requires OldestFirst(rows)
    ensures OldestFirst(InsertByUpload(rows, row))
  {
    if rows != [] && rows[|rows| - 1].uploadedAt > row.uploadedAt {
      var n := |rows| - 1;
      var front := InsertByUpload(rows[..n], row);
      InsertOldestFirst(rows[..n], row);
      forall i | 0 <= i < |front|
        ensures front[i].uploadedAt <= rows[n].uploadedAt
      {
        assert front[i] in front;
      }
    }
  }

  /** Whatever the order of the table, rows are sent oldest first. */
  lemma {:induction false} SentOldestFirst(rows: seq<Signature>, signer: ID, since: Option<int>, includePrivate: bool)
    ensures OldestFirst(GetUserSignatures(rows, signer, since, includePrivate))
  {
    if rows != [] {
      var n := |rows| - 1;
      SentOldestFirst(rows[..n], signer, since, includePrivate);
      InsertOldestFirst(GetUserSignatures(rows[..n], signer, since, includePrivate), rows[n]);
    }
  }

  // ---- what the client does with it ----

  function ToRow(r: Signature, now: int): Row {
    Row(r.id, r.signer, "", r.body, r.algorithm, r.sig, r.uploadedAt, r.revoked, r.revokedAt, now)
  }

  /** The rows a sync of `peer` saves, of those it was sent. */
  function Accepted(accepts: Accepts, peer: ID, sent: seq<Signature>, now: int): (rows: seq<Row>)
    ensures forall r :: r in sent && accepts(peer, r) ==> ToRow(r, now) in rows
    ensures forall row :: row in rows ==> exists r :: r in sent && accepts(peer, r) && row == ToRow(r, now)
  {
    if sent == [] then []
    else
      var n := |sent| - 1;
      assert sent == sent[..n] + [sent[n]];
      var front := Accepted(accepts, peer, sent[..n], now);
      if accepts(peer, sent[n]) then front + [ToRow(sent[n], now)] else front
  }

  /** The loop body of `Sync` for one peer whose signatures were fetched. */
  method SyncPeer(s: Store, accepts: Accepts, peer: ID, sent: seq<Signature>, now: int) returns (cached: nat)
    requires s.Valid()
    modifies s`sigs, s`peers
    ensures s.Valid() && s.sigs == SaveAll(old(s.sigs), Accepted(accepts, peer, sent, now))
    ensures s.peers == SetSynced(old(s.peers), peer, now)
    ensures cached == |Accepted(accepts, peer, sent, now)|
  {
    cached := 0;
    ghost var saved: seq<Row> := [];
    for i := 0 to |sent|
      invariant s.Valid() && s.peers == old(s.peers)
      invariant saved == Accepted(accepts, peer, sent[..i], now) && cached == |saved|
      invariant s.sigs == SaveAll(old(s.sigs), saved)
    {
      assert sent[..i + 1][..i] == sent[..i];
      if !accepts(peer, sent[i]) {
        continue;
      }
      var r := sent[i];
      var row := Row(r.id, r.signer, "", r.body, r.algorithm, r.sig, r.uploadedAt, r.revoked, r.revokedAt, now);
      s.SaveCachedSignature(row);
      SaveAllSnoc(old(s.sigs), saved, row);
      saved := saved + [row];
      cached := cached + 1;
    }
    assert sent[..|sent|] == sent;
    var ok := s.SetPeerLastSyncedAt(peer, now);
  }

  /** What a sync leaves in the cache: every row that was there; for every accepted row a row of its
      id; and nothing else than accepted rows as they were sent, of ids that were not there. */
  lemma SyncSaves(rows: seq<Row>, accepts: Accepts, peer: ID, sent: seq<Signature>, now: int)
    ensures var rows' := SaveAll(rows, Accepted(accepts, peer, sent, now));
      && (forall row :: row in rows ==> row in rows')
      && (forall o :: o in sent && accepts(peer, o) ==> HasId(rows', o.id))
      && (forall row :: row in rows' ==> row in rows || (!HasId(rows, row.id) && exists o ::
           && o in sent && accepts(peer, o)
           && row.id == o.id && row.signer == o.signer && row.body == o.body && row.algorithm == o.algorithm
           && row.sig == o.sig && row.at == o.uploadedAt && row.revoked == o.revoked
           && row.revokedAt == o.revokedAt && row.fetchedAt == now))
  {
    var more := Accepted(accepts, peer, sent, now);
    forall row
      ensures row in rows ==> row in SaveAll(rows, more)
      ensures row in SaveAll(rows, more) && row !in rows ==> !HasId(rows, row.id) && row in more
    {
      SaveAllMeans(rows, more, row);
    }
    forall o | o in sent && accepts(peer, o)
      ensures HasId(SaveAll(rows, more), o.id)
    {
      assert ToRow(o, now) in more && ToRow(o, now).id == o.id;
      SaveAllIds(rows, more, o.id);
    }
  }

  lemma {:induction false} SaveAllSnoc(rows: seq<Row>, more: seq<Row>, row: Row)
    ensures SaveAll(rows, more + [row]) == Save(SaveAll(rows, more), row)
    decreases |more|
  {
    if more == [] {
      assert [row][1..] == [] && [] + [row] == [row];
    } else {
      assert (more + [row])[1..] == more[1..] + [row];
      SaveAllSnoc(Save(rows, more[0]), more[1..], row);
    }
  }
}
