/** The frame of every query: which stored rows an answer can depend on. Two databases give the
    same trust set and the same possible answers when they agree on the peers and on the rows
    signed by the viewer and the members of the trust set. */
module Frame {
  import opened Payloads
  import opened Tables
  import opened Stores
  import opened TrustWalk
  import opened TrustWalkSound
  import opened TrustWalkFrame
  import opened Verdicts
  import opened Resolver

  /** Every question put to the two databases has the same possible answers. */
  ghost predicate SameAnswers(db: Db, db': Db, q: Query) {
    && Trusts(db, q) == Trusts(db', q)
    && (forall version, v :: IsVersionVerdict(db, q, version, v) <==> IsVersionVerdict(db', q, version, v))
    && (forall spans, revoked :: IsPackageVerdict(db, q, spans, revoked) <==> IsPackageVerdict(db', q, spans, revoked))
  }

  ghost predicate SamePeers(db: Db, db': Db) {
    PeerSeeds(db.peers) == PeerSeeds(db'.peers) && Distrusted(db.peers) == Distrusted(db'.peers)
  }

  ghost predicate SameRowsOf(db: Db, db': Db, id: ID) {
    BySigner(db.conns, id) == BySigner(db'.conns, id) && BySigner(db.sigs, id) == BySigner(db'.sigs, id)
  }

  lemma {:induction false} CollectedFrame(sigs: seq<Row>, sigs': seq<Row>, q: Query, entries: map<ID, Entry>,
                                          order: seq<ID>)
    requires forall id :: id in order ==> id in entries
    requires forall id :: id in order ==>
      Contribution(sigs, q, id, entries[id]) == Contribution(sigs', q, id, entries[id])
    ensures Collected(sigs, q, entries, order) == Collected(sigs', q, entries, order)
  {
    if order != [] {
      CollectedFrame(sigs, sigs', q, entries, order[..|order| - 1]);
    }
  }

  lemma SameContributionsCollect(db: Db, db': Db, q: Query, out: seq<SigInfo>, revoked: seq<ContributingDecision>)
    requires Trusts(db, q) == Trusts(db', q)
    requires forall id :: id in Trusts(db, q) ==>
      Contribution(db.sigs, q, id, Trusts(db, q)[id]) == Contribution(db'.sigs, q, id, Trusts(db, q)[id])
    ensures Collects(db, q, out, revoked) <==> Collects(db', q, out, revoked)
  {
    var entries := Trusts(db, q);
    forall order | Enumerates(order, entries.Keys)
      ensures Collected(db.sigs, q, entries, order) == Collected(db'.sigs, q, entries, order)
    {
      CollectedFrame(db.sigs, db'.sigs, q, entries, order);
    }
  }

  /** Answers depend on the trust set and on what its members contribute. */
  lemma SameContributions(db: Db, db': Db, q: Query)
    requires Trusts(db, q) == Trusts(db', q)
    requires forall id :: id in Trusts(db, q) ==>
      Contribution(db.sigs, q, id, Trusts(db, q)[id]) == Contribution(db'.sigs, q, id, Trusts(db, q)[id])
    ensures SameAnswers(db, db', q)
  {
    forall out, revoked
      ensures Collects(db, q, out, revoked) <==> Collects(db', q, out, revoked)
    {
      SameContributionsCollect(db, db', q, out, revoked);
    }
  }

  /** The frame theorem. */
  lemma SameRowsSameAnswers(db: Db, db': Db, q: Query)
    requires SamePeers(db, db') && SameRowsOf(db, db', q.viewer)
    requires forall id :: id in Trusts(db, q) ==> SameRowsOf(db, db', id)
    ensures SameAnswers(db, db', q)
  {
    forall id | id in TrustSet(db.conns, db.peers, q.active, q.viewer)
      ensures BySigner(db.conns, id) == BySigner(db'.conns, id)
    {
      assert id in Trusts(db, q);
    }
    TrustSetFrame(db.conns, db'.conns, db.peers, db'.peers, q.active, q.viewer);
    SameContributions(db, db', q);
  }

  // ---- distrust ----

  /** The tables differ at most in rows signed by `ids`. */
  ghost predicate AgreeOutside(rows: seq<Row>, rows': seq<Row>, ids: set<ID>) {
    Filter(rows, (r: Row) => r.signer !in ids) == Filter(rows', (r: Row) => r.signer !in ids)
  }

  lemma AgreeOutsideListing(rows: seq<Row>, rows': seq<Row>, ids: set<ID>, id: ID)
    requires AgreeOutside(rows, rows', ids) && id !in ids
    ensures BySigner(rows, id) == BySigner(rows', id)
  {
    FilterFilter(rows, (r: Row) => r.signer !in ids, (r: Row) => r.signer == id);
    FilterFilter(rows', (r: Row) => r.signer !in ids, (r: Row) => r.signer == id);
  }

  lemma TrustedNotDistrusted(db: Db, q: Query, id: ID)
    requires IsActiveViewer(q.active, q.viewer) && id in Trusts(db, q)
    ensures id == q.viewer || id !in Distrusted(db.peers)
  {
    TrustSetSound(db.conns, db.peers, q.active, q.viewer, id);
    if id != q.viewer {
      var path := Trusts(db, q)[id].path;
      assert path[|path| - 1] == id;
    }
  }

  /** A distrusted signer cannot influence anything: any change to the rows of distrusted ids,
      other than the viewer, leaves every answer to the active user as it was. */
  lemma DistrustedCannotInterfere(db: Db, db': Db, q: Query)
    requires IsActiveViewer(q.active, q.viewer) && db.peers == db'.peers
    requires AgreeOutside(db.sigs, db'.sigs, Distrusted(db.peers) - {q.viewer})
    requires AgreeOutside(db.conns, db'.conns, Distrusted(db.peers) - {q.viewer})
    ensures SameAnswers(db, db', q)
  {
    var ids := Distrusted(db.peers) - {q.viewer};
    forall id | id in Trusts(db, q) || id == q.viewer
      ensures SameRowsOf(db, db', id)
    {
      if id in Trusts(db, q) {
        TrustedNotDistrusted(db, q, id);
      }
      AgreeOutsideListing(db.sigs, db'.sigs, ids, id);
      AgreeOutsideListing(db.conns, db'.conns, ids, id);
    }
    SameRowsSameAnswers(db, db', q);
  }

  // ---- veto-only ----

  /** A decision, exact or delta, that does not reject. */
  predicate IsApprovingRow(row: Row) {
    (IsKind(row.body, Decision) || IsKind(row.body, DeltaDecision)) && row.body.payload.level != Rejected
  }

  lemma {:induction false} UnheardRows(q: Query, signer: ID, entry: Entry, revoked: set<ID>, listing: seq<Row>,
                                       keep: Row -> bool)
    requires forall row :: row in listing && !keep(row) ==> Says(q, signer, entry, row).None?
    ensures Standing(q, signer, entry, revoked, Filter(listing, keep)) == Standing(q, signer, entry, revoked, listing)
    ensures Withdrawn(q, signer, entry, revoked, Filter(listing, keep)) == Withdrawn(q, signer, entry, revoked, listing)
  {
    if listing != [] {
      var n := |listing| - 1;
      assert listing == listing[..n] + [listing[n]];
      UnheardRows(q, signer, entry, revoked, listing[..n], keep);
      if keep(listing[n]) {
        assert (Filter(listing[..n], keep) + [listing[n]])[..|Filter(listing[..n], keep)|] ==
          Filter(listing[..n], keep);
      }
    }
  }

  lemma UnheardContribution(sigs: seq<Row>, q: Query, signer: ID, entry: Entry, keep: Row -> bool)
    requires forall row :: row in sigs && row.signer == signer && !keep(row) ==> entry.vetoOnly && IsApprovingRow(row)
    ensures Contribution(Filter(sigs, keep), q, signer, entry) == Contribution(sigs, q, signer, entry)
  {
    var own := (r: Row) => r.signer == signer;
    var listing := BySigner(sigs, signer);
    FilterCommutes(sigs, keep, own);
    FilterSort(Filter(sigs, own), keep);
    assert BySigner(Filter(sigs, keep), signer) == Filter(listing, keep);
    forall row
      ensures row in listing <==> row in sigs && row.signer == signer
    {
      BySignerMembers(sigs, signer, row);
    }
    assert Targets(Filter(listing, keep), Revocation) == Targets(listing, Revocation);
    UnheardRows(q, signer, entry, Targets(listing, Revocation), listing, keep);
  }

  lemma {:induction false} FilterCommutes(rows: seq<Row>, a: Row -> bool, b: Row -> bool)
    ensures Filter(Filter(rows, a), b) == Filter(Filter(rows, b), a)
  {
    if rows != [] {
      var front, last := rows[..|rows| - 1], rows[|rows| - 1];
      FilterCommutes(front, a, b);
      FilterSnoc(Filter(front, a), last, b);
      FilterSnoc(Filter(front, b), last, a);
    }
  }

  /** A veto-only signer can only reject: deleting any approving decisions of signers whose entry
      is veto-only leaves every answer as it was. */
  lemma VetoOnlyCannotApprove(db: Db, q: Query, keep: Row -> bool)
    requires forall row :: row in db.sigs && !keep(row) ==>
      row.signer in Trusts(db, q) && Trusts(db, q)[row.signer].vetoOnly && IsApprovingRow(row)
    ensures SameAnswers(db, db.(sigs := Filter(db.sigs, keep)), q)
  {
    var db' := db.(sigs := Filter(db.sigs, keep));
    forall id | id in Trusts(db, q)
      ensures Contribution(db.sigs, q, id, Trusts(db, q)[id]) == Contribution(db'.sigs, q, id, Trusts(db, q)[id])
    {
      UnheardContribution(db.sigs, q, id, Trusts(db, q)[id], keep);
    }
    SameContributions(db, db', q);
  }

  // ---- recording a sync ----

  lemma {:induction false} SyncedSeeds(peers: seq<Peer>, id: ID, at: int)
    ensures PeerSeeds(SetSynced(peers, id, at)) == PeerSeeds(peers)
    ensures Distrusted(SetSynced(peers, id, at)) == Distrusted(peers)
  {
    if peers != [] {
      var front, last := peers[..|peers| - 1], peers[|peers| - 1];
      var last' := SetSynced(peers, id, at)[|front|];
      SyncedSeeds(front, id, at);
      assert SetSynced(peers, id, at) == SetSynced(front, id, at) + [last'];
      assert SetSynced(peers, id, at)[..|front|] == SetSynced(front, id, at);
      assert peers == front + [last];
      DistrustedSnoc(front, last);
      DistrustedSnoc(SetSynced(front, id, at), last');
    }
  }

  /** Recording when a peer was last synced changes no answer to anyone. */
  lemma SyncTimeKeepsAnswers(db: Db, id: ID, at: int, q: Query)
    ensures SameAnswers(db, db.(peers := SetSynced(db.peers, id, at)), q)
  {
    SyncedSeeds(db.peers, id, at);
    SameRowsSameAnswers(db, db.(peers := SetSynced(db.peers, id, at)), q);
  }
}
