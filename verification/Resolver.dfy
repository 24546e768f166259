/** Queries against the local store (resolver/query.go): the signatures of the trust set about one
    package, the verdict on one version, and the merged spans of the package. Go iterates the
    trust set in any order, so a result is whatever some order of the signers gives. */
module Resolver {
  import opened Text
  import opened Payloads
  import opened Tables
  import opened Stores
  import opened TrustWalk
  import opened Verdicts
  import opened VerdictMeaning
  import opened VerdictGrounded
  import opened VerdictExact
  import opened Spans

  datatype Query = Query(active: ID, viewer: ID, ecosystem: string, packageID: string)

  function Trusts(db: Db, q: Query): map<ID, Entry> {
    TrustSet(db.conns, db.peers, q.active, q.viewer)
  }

  // ---- collecting the signatures about a package ----

  /** What one row says about the package, if it is a decision about it that counts for a signer
      with this entry. */
  function Says(q: Query, signer: ID, entry: Entry, row: Row): Option<SigInfo> {
    if row.body.Malformed? then None
    else
      var p := row.body.payload;
      if p.ecosystem != q.ecosystem || p.packageID != q.packageID then None
      else if entry.vetoOnly && p.level != Rejected then None
      else if p.kind == Decision then
        var d := ContributingDecision(signer, entry.path, p.level, p.reason, row.id, entry.vetoOnly, KindExact,
          p.version, "", "");
        Some(SigInfo(d, false, p.version, "", ""))
      else if p.kind == DeltaDecision then
        var d := ContributingDecision(signer, entry.path, p.level, p.reason, row.id, entry.vetoOnly, KindDelta,
          "", p.fromVersion, p.toVersion);
        Some(SigInfo(d, true, "", p.fromVersion, p.toVersion))
      else None
  }

  /** The standing statements of a listing. */
  function Standing(q: Query, signer: ID, entry: Entry, revoked: set<ID>, listing: seq<Row>): seq<SigInfo> {
    if listing == [] then []
    else
      var n := |listing| - 1;
      var front, said := Standing(q, signer, entry, revoked, listing[..n]), Says(q, signer, entry, listing[n]);
      if said.Some? && listing[n].id !in revoked then front + [said.value] else front
  }

  /** The statements of a listing that its signer has withdrawn. */
  function Withdrawn(q: Query, signer: ID, entry: Entry, revoked: set<ID>,
                     listing: seq<Row>): seq<ContributingDecision> {
    if listing == [] then []
    else
      var n := |listing| - 1;
      var front, said := Withdrawn(q, signer, entry, revoked, listing[..n]), Says(q, signer, entry, listing[n]);
      if said.Some? && listing[n].id in revoked then front + [said.value.decision] else front
  }

  /** What one signer of the trust set contributes: standing and withdrawn statements. */
  function Contribution(sigs: seq<Row>, q: Query, signer: ID, entry: Entry): (seq<SigInfo>, seq<ContributingDecision>) {
    var listing := BySigner(sigs, signer);
    var revoked := Targets(listing, Revocation);
    (Standing(q, signer, entry, revoked, listing), Withdrawn(q, signer, entry, revoked, listing))
  }

  function Collected(sigs: seq<Row>, q: Query, entries: map<ID, Entry>, order: seq<ID>): (seq<SigInfo>,
                     seq<ContributingDecision>)
    requires forall id :: id in order ==> id in entries
  {
    if order == [] then ([], [])
    else
      var n := |order| - 1;
      var (out, revoked) := Collected(sigs, q, entries, order[..n]);
      var (more, moreRevoked) := Contribution(sigs, q, order[n], entries[order[n]]);
      (out + more, revoked + moreRevoked)
  }

  /** `order` lists the ids once each. */
  ghost predicate Enumerates(order: seq<ID>, ids: set<ID>) {
    && (forall id :: id in order <==> id in ids)
    && (forall i, j :: 0 <= i < j < |order| ==> order[i] != order[j])
  }

  lemma CollectedNext(sigs: seq<Row>, q: Query, entries: map<ID, Entry>, order: seq<ID>, signer: ID)
    requires signer in entries && forall id :: id in order ==> id in entries
    ensures forall id :: id in order + [signer] ==> id in entries
    ensures var (out, revoked), (more, moreRevoked) :=
        Collected(sigs, q, entries, order), Contribution(sigs, q, signer, entries[signer]);
      Collected(sigs, q, entries, order + [signer]) == (out + more, revoked + moreRevoked)
  {
    assert (order + [signer])[..|order|] == order;
  }

  lemma EnumeratesNext(order: seq<ID>, ids: set<ID>, id: ID)
    requires Enumerates(order, ids) && id !in ids
    ensures Enumerates(order + [id], ids + {id})
  {
    assert forall i :: 0 <= i < |order| ==> order[i] in order;
  }

  /** Some order of the trust set collects these signatures. */
  ghost predicate Collects(db: Db, q: Query, out: seq<SigInfo>, revoked: seq<ContributingDecision>) {
    exists order ::
      Enumerates(order, Trusts(db, q).Keys) && (out, revoked) == Collected(db.sigs, q, Trusts(db, q), order)
  }

  ghost predicate IsVersionVerdict(db: Db, q: Query, version: string, v: Verdict) {
    exists out, revoked :: Collects(db, q, out, revoked) && v == Resolve(version, out, map[], {}).0
  }

  ghost predicate IsPackageVerdict(db: Db, q: Query, spans: seq<Span>, revoked: seq<ContributingDecision>) {
    exists out :: Collects(db, q, out, revoked) && MergesTo(RawSpans(out, 0, map[]), spans)
  }

  /** `Resolver`: a store seen by the active local user. */
  class Resolver {
    const store: Store
    const activeUserID: ID

    constructor (store: Store, activeUserID: ID)
      ensures this.store == store && this.activeUserID == activeUserID
    {
      this.store, this.activeUserID := store, activeUserID;
    }

    /** One row of the inner loop of `collectMatching`, up to the revocation check. */
    static method Read(q: Query, signer: ID, entry: Entry, row: Row) returns (said: Option<SigInfo>)
      ensures said == Says(q, signer, entry, row)
    {
      if row.body.Malformed? {
        return None;
      }
      var p := row.body.payload;
      if p.ecosystem != q.ecosystem || p.packageID != q.packageID {
        return None;
      }
      if entry.vetoOnly && p.level != Rejected {
        return None;
      }
      var d := ContributingDecision(signer, entry.path, p.level, p.reason, row.id, entry.vetoOnly, KindExact, "",
        "", "");
      match p.kind
      case Decision =>
        d := d.(version := p.version);
        said := Some(SigInfo(d, false, p.version, "", ""));
      case DeltaDecision =>
        d := d.(kind := KindDelta, fromVersion := p.fromVersion, toVersion := p.toVersion);
        said := Some(SigInfo(d, true, "", p.fromVersion, p.toVersion));
      case _ =>
        said := None;
    }

    /** The loop body of `collectMatching` for one signer. */
    method CollectSigner(q: Query, signer: ID, entry: Entry)
      returns (out: seq<SigInfo>, revoked: seq<ContributingDecision>)
      ensures (out, revoked) == Contribution(store.sigs, q, signer, entry)
    {
      var sigs := BySigner(store.sigs, signer);
      var revokedTargets := CollectTargets(sigs, Revocation);
      out, revoked := [], [];
      for i := 0 to |sigs|
        invariant out == Standing(q, signer, entry, revokedTargets, sigs[..i])
        invariant revoked == Withdrawn(q, signer, entry, revokedTargets, sigs[..i])
      {
        assert sigs[..i + 1][..i] == sigs[..i];
        var said := Read(q, signer, entry, sigs[i]);
        if said.None? {
          continue;
        }
        if sigs[i].id in revokedTargets {
          revoked := revoked + [said.value.decision];
          continue;
        }
        out := out + [said.value];
      }
      assert sigs[..|sigs|] == sigs;
    }

    /** `collectMatching`. */
    method CollectMatching(q: Query) returns (out: seq<SigInfo>, revoked: seq<ContributingDecision>)
      requires q.active == activeUserID
      ensures Collects(store.Tables(), q, out, revoked)
    {
      var trustSet, _ := BuildTrustSet(store, activeUserID, q.viewer);
      var remaining := trustSet.Keys;
      ghost var order: seq<ID> := [];
      out, revoked := [], [];
      while remaining != {}
        invariant remaining <= trustSet.Keys && Enumerates(order, trustSet.Keys - remaining)
        invariant (out, revoked) == Collected(store.sigs, q, trustSet, order)
        decreases remaining
      {
        var signer :| signer in remaining;
        var more, moreRevoked := CollectSigner(q, signer, trustSet[signer]);
        out, revoked := out + more, revoked + moreRevoked;
        CollectedNext(store.sigs, q, trustSet, order, signer);
        EnumeratesNext(order, trustSet.Keys - remaining, signer);
        assert trustSet.Keys - (remaining - {signer}) == trustSet.Keys - remaining + {signer};
        order, remaining := order + [signer], remaining - {signer};
      }
      assert Enumerates(order, trustSet.Keys) && trustSet == Trusts(store.Tables(), q);
    }

    /** `Version`. */
    method Version(q: Query, version: string) returns (v: Verdict)
      requires q.active == activeUserID
      ensures IsVersionVerdict(store.Tables(), q, version, v)
    {
      var sigs, revoked := CollectMatching(q);
      var state := new ResolveState();
      v := state.ResolveVersion(version, sigs);
    }

    /** `Package`. */
    method Package(q: Query) returns (spans: seq<Span>, revoked: seq<ContributingDecision>)
      requires q.active == activeUserID
      ensures IsPackageVerdict(store.Tables(), q, spans, revoked)
    {
      var sigs;
      sigs, revoked := CollectMatching(q);
      var raw := BuildSpans(sigs);
      spans := MergeSpans(raw);
    }
  }

  // ---- what is collected, whatever the order ----

  /** The row says this. */
  predicate IsSaid(q: Query, signer: ID, entry: Entry, row: Row, s: SigInfo) {
    Says(q, signer, entry, row) == Some(s)
  }

  lemma StandingLast(q: Query, signer: ID, entry: Entry, revoked: set<ID>, listing: seq<Row>, s: SigInfo)
    requires listing != []
    ensures var n := |listing| - 1;
      s in Standing(q, signer, entry, revoked, listing) <==>
        || s in Standing(q, signer, entry, revoked, listing[..n])
        || (listing[n].id !in revoked && IsSaid(q, signer, entry, listing[n], s))
  {
  }

  lemma {:induction false} StandingMembers(q: Query, signer: ID, entry: Entry, revoked: set<ID>, listing: seq<Row>,
                                           s: SigInfo)
    ensures s in Standing(q, signer, entry, revoked, listing) <==>
      exists row :: row in listing && row.id !in revoked && IsSaid(q, signer, entry, row, s)
  {
    if listing != [] {
      var n := |listing| - 1;
      assert listing == listing[..n] + [listing[n]];
      StandingLast(q, signer, entry, revoked, listing, s);
      StandingMembers(q, signer, entry, revoked, listing[..n], s);
    }
  }

  lemma {:induction false} WithdrawnMembers(q: Query, signer: ID, entry: Entry, revoked: set<ID>, listing: seq<Row>,
                                            d: ContributingDecision)
    ensures d in Withdrawn(q, signer, entry, revoked, listing) <==>
      exists row :: row in listing && row.id in revoked && Says(q, signer, entry, row).Some?
        && Says(q, signer, entry, row).value.decision == d
  {
    if listing != [] {
      var n := |listing| - 1;
      assert listing == listing[..n] + [listing[n]];
      WithdrawnMembers(q, signer, entry, revoked, listing[..n], d);
    }
  }

  /** What a row states about the package, in its own fields: it is a decision about that package in that
      ecosystem, a rejection if its signer may only veto, and the statement carries the row's version or
      endpoints, level, reason and id, and the signer's path and flag. */
  predicate IsStatement(q: Query, entry: Entry, row: Row, s: SigInfo) {
    && row.body.Parsed?
    && var p, d := row.body.payload, s.decision;
    && p.ecosystem == q.ecosystem && p.packageID == q.packageID
    && (entry.vetoOnly ==> p.level == Rejected)
    && d.signerID == row.signer && d.path == entry.path && d.vetoOnly == entry.vetoOnly
    && d.level == p.level && d.reason == p.reason && d.signatureID == row.id
    && ((p.kind == Decision && IsExactOf(p.version, s))
        || (p.kind == DeltaDecision && IsDeltaOf(p.fromVersion, p.toVersion, s)))
  }

  predicate IsExactOf(version: string, s: SigInfo) {
    && !s.isDelta && s.exactVersion == version && s.fromVersion == "" && s.toVersion == ""
    && s.decision.kind == KindExact && s.decision.version == version
    && s.decision.fromVersion == "" && s.decision.toVersion == ""
  }

  predicate IsDeltaOf(from: string, to: string, s: SigInfo) {
    && s.isDelta && s.exactVersion == "" && s.fromVersion == from && s.toVersion == to
    && s.decision.kind == KindDelta && s.decision.version == ""
    && s.decision.fromVersion == from && s.decision.toVersion == to
  }

  /** The row states this, and its signer is trusted. */
  predicate States(db: Db, q: Query, row: Row, s: SigInfo) {
    row.signer in Trusts(db, q) && IsStatement(q, Trusts(db, q)[row.signer], row, s)
  }

  lemma SaysMeans(q: Query, entry: Entry, row: Row, s: SigInfo)
    ensures Says(q, row.signer, entry, row) == Some(s) <==> IsStatement(q, entry, row, s)
  {
  }

  lemma HeardMeans(db: Db, q: Query, row: Row, s: SigInfo)
    ensures Heard(db, q, row) == Some(s) <==> States(db, q, row, s)
  {
    if row.signer in Trusts(db, q) {
      SaysMeans(q, Trusts(db, q)[row.signer], row, s);
    }
  }

  /** What a stored row says to the viewer, if its signer is trusted. */
  function Heard(db: Db, q: Query, row: Row): Option<SigInfo> {
    if row.signer in Trusts(db, q) then Says(q, row.signer, Trusts(db, q)[row.signer], row) else None
  }

  lemma HeardRevocation(db: Db, q: Query, row: Row)
    requires UniqueIds(db.sigs) && row in db.sigs && Heard(db, q, row).Some?
    ensures row.id in Targets(BySigner(db.sigs, row.signer), Revocation) <==>
      DerivedRevoked(db.sigs, Revocation, row.id)
    ensures row in BySigner(db.sigs, row.signer)
  {
    TargetedIffRevoked(db.sigs, Revocation, row);
    BySignerMembers(db.sigs, row.signer, row);
  }

  lemma {:induction false} CollectedMembers(sigs: seq<Row>, q: Query, entries: map<ID, Entry>, order: seq<ID>,
                                            s: SigInfo)
    requires forall id :: id in order ==> id in entries
    ensures s in Collected(sigs, q, entries, order).0 <==>
      exists id :: id in order && s in Contribution(sigs, q, id, entries[id]).0
  {
    if order != [] {
      var n := |order| - 1;
      assert order == order[..n] + [order[n]];
      CollectedMembers(sigs, q, entries, order[..n], s);
    }
  }

  // ---- each row is collected once ----

  ghost predicate DistinctRows(out: seq<SigInfo>) {
    forall i, j :: 0 <= i < j < |out| ==> out[i].decision.signatureID != out[j].decision.signatureID
  }

  /** Each statement is about a row of one of these signers. */
  ghost predicate FromRows(out: seq<SigInfo>, sigs: seq<Row>, signers: seq<ID>) {
    forall s :: s in out ==> exists row :: row in sigs && row.signer in signers && row.id == s.decision.signatureID
  }

  lemma DistinctConcat(a: seq<SigInfo>, b: seq<SigInfo>)
    requires DistinctRows(a) && DistinctRows(b)
    requires forall s, t :: s in a && t in b ==> s.decision.signatureID != t.decision.signatureID
    ensures DistinctRows(a + b)
  {
    assert forall i :: 0 <= i < |a| ==> a[i] in a;
    assert forall i :: 0 <= i < |b| ==> b[i] in b;
  }

  lemma {:induction false} StandingOnce(q: Query, signer: ID, entry: Entry, revoked: set<ID>, listing: seq<Row>)
    requires UniqueIds(listing)
    ensures DistinctRows(Standing(q, signer, entry, revoked, listing))
  {
    if listing != [] {
      var n := |listing| - 1;
      var front, said := Standing(q, signer, entry, revoked, listing[..n]), Says(q, signer, entry, listing[n]);
      StandingOnce(q, signer, entry, revoked, listing[..n]);
      if said.Some? && listing[n].id !in revoked {
        forall s | s in front
          ensures s.decision.signatureID != listing[n].id
        {
          StandingMembers(q, signer, entry, revoked, listing[..n], s);
        }
        DistinctConcat(front, [said.value]);
      }
    }
  }

  lemma BySignerUnique(sigs: seq<Row>, signer: ID)
    requires UniqueIds(sigs)
    ensures UniqueIds(BySigner(sigs, signer))
  {
    FilterKeepsOrder(sigs, (r: Row) => r.signer == signer);
    SortKeepsSorted(Filter(sigs, (r: Row) => r.signer == signer));
  }

  /** A standing statement is about a row of its signer. */
  lemma StandingSource(q: Query, signer: ID, entry: Entry, revoked: set<ID>, sigs: seq<Row>, s: SigInfo)
    requires s in Standing(q, signer, entry, revoked, BySigner(sigs, signer))
    ensures exists row :: row in sigs && row.signer == signer && row.id == s.decision.signatureID
  {
    var listing := BySigner(sigs, signer);
    StandingMembers(q, signer, entry, revoked, listing, s);
    var row :| row in listing && row.id !in revoked && IsSaid(q, signer, entry, row, s);
    BySignerMembers(sigs, signer, row);
    SaysMeans(q, entry, row, s);
  }

  lemma ContributionOnce(sigs: seq<Row>, q: Query, signer: ID, entry: Entry)
    requires UniqueIds(sigs)
    ensures var out := Contribution(sigs, q, signer, entry).0; DistinctRows(out) && FromRows(out, sigs, [signer])
  {
    var revoked := Targets(BySigner(sigs, signer), Revocation);
    BySignerUnique(sigs, signer);
    StandingOnce(q, signer, entry, revoked, BySigner(sigs, signer));
    forall s | s in Contribution(sigs, q, signer, entry).0
      ensures exists row :: row in sigs && row.signer in [signer] && row.id == s.decision.signatureID
    {
      StandingSource(q, signer, entry, revoked, sigs, s);
    }
  }

  lemma {:induction false} CollectedOnce(sigs: seq<Row>, q: Query, entries: map<ID, Entry>, order: seq<ID>)
    requires UniqueIds(sigs) && forall id :: id in order ==> id in entries
    requires forall i, j :: 0 <= i < j < |order| ==> order[i] != order[j]
    ensures var out := Collected(sigs, q, entries, order).0; DistinctRows(out) && FromRows(out, sigs, order)
  {
    if order != [] {
      var n := |order| - 1;
      var out := Collected(sigs, q, entries, order[..n]).0;
      var more := Contribution(sigs, q, order[n], entries[order[n]]).0;
      CollectedOnce(sigs, q, entries, order[..n]);
      ContributionOnce(sigs, q, order[n], entries[order[n]]);
      OtherSigners(sigs, order, out, more);
      DistinctConcat(out, more);
    }
  }

  /** What earlier signers and the last one state comes from different rows. */
  lemma OtherSigners(sigs: seq<Row>, order: seq<ID>, out: seq<SigInfo>, more: seq<SigInfo>)
    requires UniqueIds(sigs) && order != [] && forall i, j :: 0 <= i < j < |order| ==> order[i] != order[j]
    requires var n := |order| - 1; FromRows(out, sigs, order[..n]) && FromRows(more, sigs, [order[n]])
    ensures forall s, t :: s in out && t in more ==> s.decision.signatureID != t.decision.signatureID
    ensures FromRows(out + more, sigs, order)
  {
    var n := |order| - 1;
    assert order == order[..n] + [order[n]];
    forall s, t | s in out && t in more
      ensures s.decision.signatureID != t.decision.signatureID
    {
      var a :| a in sigs && a.signer in order[..n] && a.id == s.decision.signatureID;
      var b :| b in sigs && b.signer in [order[n]] && b.id == t.decision.signatureID;
      if a.id == b.id {
        UniqueRow(sigs, a, b);
      }
    }
  }

  /** No row is collected twice, whatever the order of the signers. */
  lemma CollectsOnce(db: Db, q: Query, out: seq<SigInfo>, revoked: seq<ContributingDecision>)
    requires UniqueIds(db.sigs) && Collects(db, q, out, revoked)
    ensures forall i, j :: 0 <= i < j < |out| ==> out[i].decision.signatureID != out[j].decision.signatureID
  {
    var order :| Enumerates(order, Trusts(db, q).Keys) && (out, revoked) == Collected(db.sigs, q, Trusts(db, q), order);
    CollectedOnce(db.sigs, q, Trusts(db, q), order);
  }

  lemma {:induction false} CollectedWithdrawn(sigs: seq<Row>, q: Query, entries: map<ID, Entry>, order: seq<ID>,
                                              d: ContributingDecision)
    requires forall id :: id in order ==> id in entries
    ensures d in Collected(sigs, q, entries, order).1 <==>
      exists id :: id in order && d in Contribution(sigs, q, id, entries[id]).1
  {
    if order != [] {
      var n := |order| - 1;
      assert order == order[..n] + [order[n]];
      CollectedWithdrawn(sigs, q, entries, order[..n], d);
    }
  }

  lemma CollectsHeard(db: Db, q: Query, out: seq<SigInfo>, revoked: seq<ContributingDecision>, s: SigInfo)
    requires UniqueIds(db.sigs) && Collects(db, q, out, revoked)
    ensures s in out <==>
      exists row :: row in db.sigs && Heard(db, q, row) == Some(s) && !DerivedRevoked(db.sigs, Revocation, row.id)
  {
    var entries := Trusts(db, q);
    var order :| Enumerates(order, entries.Keys) && (out, revoked) == Collected(db.sigs, q, entries, order);
    CollectedMembers(db.sigs, q, entries, order, s);
    forall id | id in entries
      ensures s in Contribution(db.sigs, q, id, entries[id]).0 <==>
        exists row :: row in db.sigs && row.signer == id && Heard(db, q, row) == Some(s)
          && !DerivedRevoked(db.sigs, Revocation, row.id)
    {
      SignerHeard(db, q, id, s);
    }
  }

  lemma SignerHeard(db: Db, q: Query, id: ID, s: SigInfo)
    requires UniqueIds(db.sigs) && id in Trusts(db, q)
    ensures s in Contribution(db.sigs, q, id, Trusts(db, q)[id]).0 <==>
      exists row :: row in db.sigs && row.signer == id && Heard(db, q, row) == Some(s)
        && !DerivedRevoked(db.sigs, Revocation, row.id)
  {
    var listing := BySigner(db.sigs, id);
    StandingMembers(q, id, Trusts(db, q)[id], Targets(listing, Revocation), listing, s);
    forall row
      ensures row in listing <==> row in db.sigs && row.signer == id
      ensures row in listing && Heard(db, q, row).Some? ==>
        (row.id in Targets(listing, Revocation) <==> DerivedRevoked(db.sigs, Revocation, row.id))
    {
      BySignerMembers(db.sigs, id, row);
      if row in listing && Heard(db, q, row).Some? {
        HeardRevocation(db, q, row);
      }
    }
  }

  lemma SignerWithdrawn(db: Db, q: Query, id: ID, d: ContributingDecision)
    requires UniqueIds(db.sigs) && id in Trusts(db, q)
    ensures d in Contribution(db.sigs, q, id, Trusts(db, q)[id]).1 <==>
      exists row :: row in db.sigs && row.signer == id && IsWithdrawn(db, q, row, d)
  {
    var listing := BySigner(db.sigs, id);
    WithdrawnMembers(q, id, Trusts(db, q)[id], Targets(listing, Revocation), listing, d);
    forall row
      ensures row in listing <==> row in db.sigs && row.signer == id
      ensures row in listing && Heard(db, q, row).Some? ==>
        (row.id in Targets(listing, Revocation) <==> DerivedRevoked(db.sigs, Revocation, row.id))
    {
      BySignerMembers(db.sigs, id, row);
      if row in listing && Heard(db, q, row).Some? {
        HeardRevocation(db, q, row);
      }
    }
  }

  /** The row makes this decision and has been revoked. */
  ghost predicate IsWithdrawn(db: Db, q: Query, row: Row, d: ContributingDecision) {
    Heard(db, q, row).Some? && Heard(db, q, row).value.decision == d && DerivedRevoked(db.sigs, Revocation, row.id)
  }

  lemma CollectsWithdrawn(db: Db, q: Query, out: seq<SigInfo>, revoked: seq<ContributingDecision>,
                          d: ContributingDecision)
    requires UniqueIds(db.sigs) && Collects(db, q, out, revoked)
    ensures d in revoked <==> exists row :: row in db.sigs && IsWithdrawn(db, q, row, d)
  {
    var entries := Trusts(db, q);
    var order :| Enumerates(order, entries.Keys) && (out, revoked) == Collected(db.sigs, q, entries, order);
    CollectedWithdrawn(db.sigs, q, entries, order, d);
    forall id | id in entries
      ensures d in Contribution(db.sigs, q, id, entries[id]).1 <==>
        exists row :: row in db.sigs && row.signer == id && IsWithdrawn(db, q, row, d)
    {
      SignerWithdrawn(db, q, id, d);
    }
  }

  /** The decisions it reports as revoked are exactly those that revoked rows of trusted signers state. */
  lemma CollectsWhatIsWithdrawn(db: Db, q: Query, out: seq<SigInfo>, revoked: seq<ContributingDecision>,
                                d: ContributingDecision)
    requires UniqueIds(db.sigs) && Collects(db, q, out, revoked)
    ensures d in revoked <==>
      exists row, s :: row in db.sigs && States(db, q, row, s) && s.decision == d
        && DerivedRevoked(db.sigs, Revocation, row.id)
  {
    CollectsWithdrawn(db, q, out, revoked, d);
    forall row, s
      ensures Heard(db, q, row) == Some(s) <==> States(db, q, row, s)
    {
      HeardMeans(db, q, row, s);
    }
    if row :| row in db.sigs && IsWithdrawn(db, q, row, d) {
      assert States(db, q, row, Heard(db, q, row).value);
    }
  }

  /** A query collects exactly what the unrevoked rows of trusted signers state. */
  lemma CollectsWhatIsStated(db: Db, q: Query, out: seq<SigInfo>, revoked: seq<ContributingDecision>, s: SigInfo)
    requires UniqueIds(db.sigs) && Collects(db, q, out, revoked)
    ensures s in out <==>
      exists row :: row in db.sigs && States(db, q, row, s) && !DerivedRevoked(db.sigs, Revocation, row.id)
  {
    CollectsHeard(db, q, out, revoked, s);
    forall row
      ensures Heard(db, q, row) == Some(s) <==> States(db, q, row, s)
    {
      HeardMeans(db, q, row, s);
    }
  }

  /** Two runs of the same query collect the same signatures. */
  lemma CollectsSame(db: Db, q: Query, out: seq<SigInfo>, revoked: seq<ContributingDecision>, out': seq<SigInfo>,
                     revoked': seq<ContributingDecision>)
    requires Collects(db, q, out, revoked) && Collects(db, q, out', revoked')
    ensures forall s :: s in out <==> s in out'
  {
    var entries := Trusts(db, q);
    var order :| Enumerates(order, entries.Keys) && (out, revoked) == Collected(db.sigs, q, entries, order);
    var order' :| Enumerates(order', entries.Keys) && (out', revoked') == Collected(db.sigs, q, entries, order');
    forall s
      ensures s in out <==> s in out'
    {
      CollectedMembers(db.sigs, q, entries, order, s);
      CollectedMembers(db.sigs, q, entries, order', s);
    }
  }

  /** Verdicts do not depend on the order Go happens to iterate the trust set in. */
  lemma VersionVerdictUnique(db: Db, q: Query, version: string, v: Verdict, v': Verdict, out: seq<SigInfo>,
                             revoked: seq<ContributingDecision>)
    requires IsVersionVerdict(db, q, version, v) && IsVersionVerdict(db, q, version, v')
    requires Collects(db, q, out, revoked) && NoTiedBases(out)
    ensures v.status == v'.status
  {
    var o, r :| Collects(db, q, o, r) && v == Resolve(version, o, map[], {}).0;
    var o', r' :| Collects(db, q, o', r') && v' == Resolve(version, o', map[], {}).0;
    CollectsSame(db, q, o, r, out, revoked);
    CollectsSame(db, q, o, r, o', r');
    assert Bases(o) == Bases(out);
    LookupIgnoresOrder(version, o, o');
  }

  /** The verdict is the one the definition gives for the signatures collected. */
  lemma VerdictOfCollected(db: Db, q: Query, version: string, v: Verdict, out: seq<SigInfo>,
                           revoked: seq<ContributingDecision>)
    requires IsVersionVerdict(db, q, version, v) && Collects(db, q, out, revoked) && NoTiedBases(out)
    ensures v.status == Meaning(out, version).status
    ensures Approves(v.status) <==> Trusted(out, version)
  {
    assert IsVersionVerdict(db, q, version, Resolve(version, out, map[], {}).0);
    VersionVerdictUnique(db, q, version, v, Resolve(version, out, map[], {}).0, out, revoked);
    ResolveExact(version, out, map[], {});
    MeaningStatus(out, version);
  }

  /** The answers of the two queries about one package agree. */
  lemma VersionAgreesWithPackage(db: Db, q: Query, version: string, v: Verdict, spans: seq<Span>,
                                 withdrawn: seq<ContributingDecision>,
                                 out: seq<SigInfo>, revoked: seq<ContributingDecision>)
    requires IsVersionVerdict(db, q, version, v) && IsPackageVerdict(db, q, spans, withdrawn)
    requires Collects(db, q, out, revoked) && NoTiedBases(out) && NoOtherSpelling(out, version)
    ensures v.status == StatusRejected <==> Covered(spans, StatusRejected, version)
    ensures Approves(v.status) <==>
      !Covered(spans, StatusRejected, version)
        && (Covered(spans, StatusVetted, version) || Covered(spans, StatusAllowed, version))
    ensures Approves(v.status) ==> (v.status == StatusVetted <==> VettedFromElsewhere(out, version))
    ensures Approves(v.status) ==>
      ((v.status == StatusVetted <==> Covered(spans, StatusVetted, version)) <==>
        (CoveringVettedBase(out, version) ==> VettedFromElsewhere(out, version)))
  {
    var sigs :| Collects(db, q, sigs, withdrawn) && MergesTo(RawSpans(sigs, 0, map[]), spans);
    CollectsSame(db, q, sigs, withdrawn, out, revoked);
    assert Bases(sigs) == Bases(out);
    PointAgreesWithSpans(sigs, spans, version);
    assert IsVersionVerdict(db, q, version, Resolve(version, sigs, map[], {}).0);
    VersionVerdictUnique(db, q, version, v, Resolve(version, sigs, map[], {}).0, out, revoked);
    VerdictOfCollected(db, q, version, v, out, revoked);
    if Trusted(out, version) {
      VettedAgreesWithSpans(out, version);
    }
  }

  lemma RejectionByMembership(sigs: seq<SigInfo>, sigs': seq<SigInfo>, version: string)
    requires forall s :: s in sigs <==> s in sigs'
    ensures Resolve(version, sigs, map[], {}).0.status == StatusRejected <==> IsRejected(sigs', version)
    ensures IsRejected(sigs, version) <==> IsRejected(sigs', version)
    ensures RejectedInOtherSpelling(sigs, version) <==> RejectedInOtherSpelling(sigs', version)
  {
    LookupGrounded(version, sigs, map[]);
  }

  /** On rejection the two queries agree, for any store, if and only if a version rejected in another
      spelling is itself rejected. */
  lemma RejectionAgreesWithPackage(db: Db, q: Query, version: string, v: Verdict, spans: seq<Span>,
                                   withdrawn: seq<ContributingDecision>,
                                   out: seq<SigInfo>, revoked: seq<ContributingDecision>)
    requires IsVersionVerdict(db, q, version, v) && IsPackageVerdict(db, q, spans, withdrawn)
    requires Collects(db, q, out, revoked)
    ensures (v.status == StatusRejected <==> Covered(spans, StatusRejected, version))
       <==> (RejectedInOtherSpelling(out, version) ==> IsRejected(out, version))
  {
    var o, r :| Collects(db, q, o, r) && v == Resolve(version, o, map[], {}).0;
    var sigs :| Collects(db, q, sigs, withdrawn) && MergesTo(RawSpans(sigs, 0, map[]), spans);
    CollectsSame(db, q, o, r, out, revoked);
    CollectsSame(db, q, sigs, withdrawn, out, revoked);
    RejectionByMembership(o, out, version);
    RejectionByMembership(sigs, out, version);
    RejectionAgreesIff(sigs, spans, version);
  }

  // ---- from stored rows to the verdict ----

  /** Some unrevoked row of a trusted signer states this. */
  ghost predicate Stands(db: Db, q: Query, s: SigInfo) {
    exists row :: row in db.sigs && States(db, q, row, s) && !DerivedRevoked(db.sigs, Revocation, row.id)
  }

  ghost predicate RejectedByRows(db: Db, q: Query, version: string) {
    exists s :: Stands(db, q, s) && Rejects(s) && (Names(s, version) || Covers(s, version))
  }

  /** A chain of standing approvals, none by a veto-only signer, from an exact one to the version,
      over versions no standing statement rejects. */
  ghost predicate RestsOn(db: Db, q: Query, chain: seq<SigInfo>, versions: seq<string>, version: string) {
    && |chain| == |versions| > 0 && versions[|versions| - 1] == version
    && (forall i :: 0 <= i < |chain| ==> Stands(db, q, chain[i]) && IsApproval(chain[i]) && !chain[i].decision.vetoOnly)
    && (forall i :: 0 <= i < |chain| ==> !RejectedByRows(db, q, versions[i]))
    && Names(chain[0], versions[0])
    && (forall i :: 0 < i < |chain| ==> Covers(chain[i], versions[i]) && chain[i].fromVersion == versions[i - 1])
  }

  lemma CollectsStanding(db: Db, q: Query, out: seq<SigInfo>, revoked: seq<ContributingDecision>)
    requires UniqueIds(db.sigs) && Collects(db, q, out, revoked)
    ensures forall s :: s in out <==> Stands(db, q, s)
    ensures forall version :: IsRejected(out, version) <==> RejectedByRows(db, q, version)
  {
    forall s
      ensures s in out <==> Stands(db, q, s)
    {
      CollectsWhatIsStated(db, q, out, revoked, s);
    }
  }

  lemma VetoOnlyDoesNotApprove(db: Db, q: Query, s: SigInfo)
    requires Stands(db, q, s) && IsApproval(s)
    ensures !s.decision.vetoOnly
  {
  }

  lemma ChainStands(db: Db, q: Query, out: seq<SigInfo>, revoked: seq<ContributingDecision>,
                    chain: seq<SigInfo>, versions: seq<string>, version: string)
    requires UniqueIds(db.sigs) && Collects(db, q, out, revoked) && Grounds(out, chain, versions, version)
    ensures RestsOn(db, q, chain, versions, version)
  {
    CollectsStanding(db, q, out, revoked);
    forall i | 0 <= i < |chain|
      ensures Stands(db, q, chain[i]) && !chain[i].decision.vetoOnly
    {
      VetoOnlyDoesNotApprove(db, q, chain[i]);
    }
  }

  /** For any store at all, cyclic deltas and tied versions included: a version is rejected exactly
      when some standing row rejects it, and it is approved only on a chain of standing approvals. */
  lemma VerdictRestsOnRows(db: Db, q: Query, version: string, v: Verdict)
    requires UniqueIds(db.sigs) && IsVersionVerdict(db, q, version, v)
    ensures v.status == StatusRejected <==> RejectedByRows(db, q, version)
    ensures Approves(v.status) ==> exists chain, versions :: RestsOn(db, q, chain, versions, version)
  {
    var out, revoked :| Collects(db, q, out, revoked) && v == Resolve(version, out, map[], {}).0;
    CollectsStanding(db, q, out, revoked);
    LookupGrounded(version, out, map[]);
    if Approves(v.status) {
      var chain: seq<SigInfo>, versions: seq<string> :| Grounds(out, chain, versions, version);
      ChainStands(db, q, out, revoked, chain, versions, version);
    }
  }
}
