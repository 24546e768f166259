/** The merged span list of a package (resolver/query.go, `Package` and `mergeSpans`) and how it
    agrees with the verdict on single versions. */
module Spans {
  import opened Order
  import opened Versions
  import opened Payloads
  import opened Verdicts
  import opened VerdictMeaning
  import opened VerdictGrounded
  import opened VerdictExact
  import opened VerdictTies

  datatype Span = Span(from: string, to: string, status: Status, decisions: seq<ContributingDecision>)

  // ---- raw spans ----

  function RawSpan(sig: SigInfo): Span {
    if sig.isDelta then Span(sig.fromVersion, sig.toVersion, StatusFromLevel(sig.decision.level), [sig.decision])
    else Span(sig.exactVersion, sig.exactVersion, StatusFromLevel(sig.decision.level), [sig.decision])
  }

  /** The spans of the signatures from index `k` on, sharing one lookup cache. */
  function RawSpans(sigs: seq<SigInfo>, k: nat, cache: Cache): (seq<Span>)
    requires k <= |sigs|
    decreases |sigs| - k
  {
    if k == |sigs| then []
    else if !sigs[k].isDelta || Rejects(sigs[k]) then [RawSpan(sigs[k])] + RawSpans(sigs, k + 1, cache)
    else
      var (from, cache') := Resolve(sigs[k].fromVersion, sigs, cache, {});
      var rest := RawSpans(sigs, k + 1, cache');
      if Approves(from.status) then [RawSpan(sigs[k])] + rest else rest
  }

  method BuildSpans(sigs: seq<SigInfo>) returns (spans: seq<Span>)
    ensures spans == RawSpans(sigs, 0, map[])
  {
    var state := new ResolveState();
    spans := [];
    assert spans + RawSpans(sigs, 0, state.cache) == RawSpans(sigs, 0, map[]);
    for k := 0 to |sigs|
      invariant state.resolving == {}
      invariant spans + RawSpans(sigs, k, state.cache) == RawSpans(sigs, 0, map[])
    {
      ghost var before := spans;
      var more := SpanOf(state, sigs, k);
      spans := spans + more;
      assert before + (more + RawSpans(sigs, k + 1, state.cache)) == spans + RawSpans(sigs, k + 1, state.cache);
    }
  }

  /** The body of that loop: the span of one signature, if it has one. */
  method SpanOf(state: ResolveState, sigs: seq<SigInfo>, k: nat) returns (more: seq<Span>)
    requires k < |sigs| && state.resolving == {}
    modifies state
    ensures state.resolving == {}
    ensures RawSpans(sigs, k, old(state.cache)) == more + RawSpans(sigs, k + 1, state.cache)
  {
    var sig := sigs[k];
    if !sig.isDelta {
      return [Span(sig.exactVersion, sig.exactVersion, StatusFromLevel(sig.decision.level), [sig.decision])];
    }
    if sig.decision.level == Rejected {
      return [Span(sig.fromVersion, sig.toVersion, StatusRejected, [sig.decision])];
    }
    var from := state.ResolveVersion(sig.fromVersion, sigs);
    if from.status == StatusAllowed || from.status == StatusVetted {
      return [Span(sig.fromVersion, sig.toVersion, StatusFromLevel(sig.decision.level), [sig.decision])];
    }
    more := [];
    assert more + RawSpans(sigs, k + 1, state.cache) == RawSpans(sigs, k + 1, state.cache);
  }

  // ---- sorting and merging ----

  function CompareSpans(s: Span, t: Span): int {
    Then(CompareVersions(s.from, t.from), CompareVersions(s.to, t.to))
  }

  lemma CompareSpansConsistent(s: Span, t: Span, u: Span)
    ensures CompareSpans(s, t) == -CompareSpans(t, s)
    ensures Consistent(CompareSpans(s, t), CompareSpans(t, u), CompareSpans(s, u))
  {
    VersionsConsistent(s.from, t.from, u.from);
    VersionsConsistent(s.to, t.to, u.to);
  }

  lemma CompareSpansLaws()
    ensures Laws(CompareSpans)
  {
    forall s: Span, t: Span, u: Span
      ensures CompareSpans(s, t) == -CompareSpans(t, s)
      ensures CompareSpans(s, t) <= 0 && CompareSpans(t, u) <= 0 ==> CompareSpans(s, u) <= 0
    {
      CompareSpansConsistent(s, t, u);
    }
  }

  /** Whether `s` continues the last span before it. */
  predicate Mergeable(last: Span, s: Span) {
    last.status == s.status && AtMost(s.from, last.to)
  }

  function Extend(last: Span, s: Span): Span {
    Span(last.from, if CompareVersions(s.to, last.to) > 0 then s.to else last.to, last.status,
      last.decisions + s.decisions)
  }

  function MergeOne(out: seq<Span>, s: Span): seq<Span> {
    var n := |out| - 1;
    if out != [] && Mergeable(out[n], s) then out[..n] + [Extend(out[n], s)] else out + [s]
  }

  function MergeSorted(spans: seq<Span>): seq<Span> {
    if spans == [] then [] else MergeOne(MergeSorted(spans[..|spans| - 1]), spans[|spans| - 1])
  }

  /** `out` is a possible result of merging `spans`: ties may be sorted either way. */
  ghost predicate MergesTo(spans: seq<Span>, out: seq<Span>) {
    exists sorted :: Sorted(CompareSpans, sorted) && multiset(sorted) == multiset(spans) && out == MergeSorted(sorted)
  }

  /** The body of the merging loop: update the last span in place, or start a new one. */
  method MergeInto(spans: seq<Span>, s: Span) returns (out: seq<Span>)
    requires spans != []
    ensures out == MergeOne(spans, s)
  {
    out := spans;
    var last := out[|out| - 1];
    if last.status == s.status && CompareVersions(s.from, last.to) <= 0 {
      if CompareVersions(s.to, last.to) > 0 {
        last := last.(to := s.to);
      }
      last := last.(decisions := last.decisions + s.decisions);
      out := out[..|out| - 1] + [last];
      return;
    }
    out := out + [s];
  }

  /** `mergeSpans`. */
  method MergeSpans(spans: seq<Span>) returns (out: seq<Span>)
    ensures MergesTo(spans, out)
  {
    CompareSpansLaws();
    var sorted := Sort(CompareSpans, spans);
    out := MergeRun(sorted);
  }

  method MergeRun(sorted: seq<Span>) returns (out: seq<Span>)
    ensures out == MergeSorted(sorted)
  {
    if |sorted| == 0 {
      out := [];
      return;
    }
    out := [sorted[0]];
    assert sorted[..1] == [sorted[0]] && sorted[..1][..0] == [];
    for i := 1 to |sorted|
      invariant out != [] && out == MergeSorted(sorted[..i])
    {
      assert sorted[..i + 1][..i] == sorted[..i];
      out := MergeInto(out, sorted[i]);
    }
    assert sorted[..|sorted|] == sorted;
  }

  // ---- what merging keeps ----

  predicate SpanCovers(s: Span, version: string) {
    Between(s.from, version, s.to)
  }

  ghost predicate Covered(spans: seq<Span>, status: Status, version: string) {
    exists s :: s in spans && s.status == status && SpanCovers(s, version)
  }

  function Bag(spans: seq<Span>): multiset<ContributingDecision> {
    if spans == [] then multiset{} else Bag(spans[..|spans| - 1]) + multiset(spans[|spans| - 1].decisions)
  }

  ghost predicate StartsBefore(spans: seq<Span>, bound: string) {
    forall s :: s in spans ==> AtMost(s.from, bound)
  }

  lemma {:induction false} MergedStartsBefore(spans: seq<Span>, bound: string)
    requires StartsBefore(spans, bound)
    ensures StartsBefore(MergeSorted(spans), bound)
  {
    if spans != [] {
      var front, s := spans[..|spans| - 1], spans[|spans| - 1];
      assert spans == front + [s];
      MergedStartsBefore(front, bound);
      var out := MergeSorted(front);
      assert forall i :: 0 <= i < |out| ==> out[i] in out;
    }
  }

  lemma PrefixStartsBefore(spans: seq<Span>)
    requires Sorted(CompareSpans, spans) && spans != []
    ensures Sorted(CompareSpans, spans[..|spans| - 1]) && StartsBefore(spans[..|spans| - 1], spans[|spans| - 1].from)
  {
    var n := |spans| - 1;
    forall s | s in spans[..n]
      ensures AtMost(s.from, spans[n].from)
    {
      var i :| 0 <= i < n && spans[i] == s;
      assert CompareSpans(spans[i], spans[n]) <= 0;
    }
  }

  /** Joining two overlapping spans covers what they covered between them, whether or not the
      second one is inverted. */
  lemma ExtendCovers(last: Span, s: Span, version: string)
    requires AtMost(last.from, s.from) && AtMost(s.from, last.to)
    ensures SpanCovers(Extend(last, s), version) <==> SpanCovers(last, version) || SpanCovers(s, version)
  {
    VersionsConsistent(last.from, s.from, version);
    VersionsConsistent(s.from, last.to, version);
    VersionsConsistent(version, last.to, s.to);
    VersionsConsistent(version, s.to, last.to);
    VersionsConsistent(last.to, s.to, last.to);
    VersionsConsistent(last.to, version, last.to);
  }

  lemma MergeOneCovers(out: seq<Span>, s: Span, status: Status, version: string)
    requires StartsBefore(out, s.from)
    ensures Covered(MergeOne(out, s), status, version) <==>
      Covered(out, status, version) || (s.status == status && SpanCovers(s, version))
  {
    var n := |out| - 1;
    if out != [] && Mergeable(out[n], s) {
      assert out == out[..n] + [out[n]];
      assert out[n] in out;
      ExtendCovers(out[n], s, version);
      assert forall t :: t in MergeOne(out, s) <==> t in out[..n] || t == Extend(out[n], s);
      assert forall t :: t in out <==> t in out[..n] || t == out[n];
    } else {
      assert forall t :: t in MergeOne(out, s) <==> t in out || t == s;
    }
  }

  lemma {:induction false} MergeCovers(spans: seq<Span>, status: Status, version: string)
    requires Sorted(CompareSpans, spans)
    ensures Covered(MergeSorted(spans), status, version) <==> Covered(spans, status, version)
  {
    if spans != [] {
      var front, s := spans[..|spans| - 1], spans[|spans| - 1];
      PrefixStartsBefore(spans);
      MergeCovers(front, status, version);
      MergedStartsBefore(front, s.from);
      MergeOneCovers(MergeSorted(front), s, status, version);
      CoveredSnoc(front, s, status, version);
      assert spans == front + [s];
    }
  }

  lemma CoveredSnoc(front: seq<Span>, s: Span, status: Status, version: string)
    ensures Covered(front + [s], status, version) <==>
      Covered(front, status, version) || (s.status == status && SpanCovers(s, version))
  {
    assert forall t :: t in front + [s] <==> t in front || t == s;
  }

  lemma BagSnoc(spans: seq<Span>, s: Span)
    ensures Bag(spans + [s]) == Bag(spans) + multiset(s.decisions)
  {
    assert (spans + [s])[..|spans|] == spans;
  }

  lemma {:induction false} MergeBag(spans: seq<Span>)
    ensures Bag(MergeSorted(spans)) == Bag(spans)
  {
    if spans != [] {
      var s := spans[|spans| - 1];
      var out := MergeSorted(spans[..|spans| - 1]);
      MergeBag(spans[..|spans| - 1]);
      var n := |out| - 1;
      if out != [] && Mergeable(out[n], s) {
        BagSnoc(out[..n], Extend(out[n], s));
      } else {
        BagSnoc(out, s);
      }
    }
  }

  lemma BagsRegroup<T>(x: multiset<T>, y: multiset<T>, z: multiset<T>)
    ensures (x + y) + z == x + (y + z) && (x + y) + z == (x + z) + y
  {
  }

  lemma ConcatLast(a: seq<Span>, b: seq<Span>)
    requires b != []
    ensures a + b == (a + b[..|b| - 1]) + [b[|b| - 1]]
  {
  }

  lemma BagLast(b: seq<Span>)
    requires b != []
    ensures Bag(b) == Bag(b[..|b| - 1]) + multiset(b[|b| - 1].decisions)
  {
  }

  lemma {:induction false} BagConcat(a: seq<Span>, b: seq<Span>)
    ensures Bag(a + b) == Bag(a) + Bag(b)
  {
    if b == [] {
      assert a + b == a;
    } else {
      var front, last := b[..|b| - 1], b[|b| - 1];
      BagConcat(a, front);
      BagLast(b);
      ConcatLast(a, b);
      BagSnoc(a + front, last);
      BagsRegroup(Bag(a), Bag(front), multiset(last.decisions));
    }
  }

  lemma BagRemove(a: seq<Span>, s: Span, b: seq<Span>)
    ensures Bag(a + [s] + b) == Bag(a + b) + multiset(s.decisions)
  {
    BagConcat(a + [s], b);
    BagConcat(a, b);
    BagSnoc(a, s);
    BagsRegroup(Bag(a), multiset(s.decisions), Bag(b));
  }

  lemma MultisetRemove(a: seq<Span>, s: Span, b: seq<Span>, other: seq<Span>)
    requires multiset(a + [s] + b) == multiset(other + [s])
    ensures multiset(a + b) == multiset(other)
  {
    assert multiset(a + [s] + b) == multiset(a + b) + multiset{s};
    assert multiset(other + [s]) == multiset(other) + multiset{s};
    assert multiset(a + b) == multiset(a + [s] + b) - multiset{s};
  }

  lemma {:induction false} BagPermutation(a: seq<Span>, b: seq<Span>)
    requires multiset(a) == multiset(b)
    ensures Bag(a) == Bag(b)
    decreases |a|
  {
    if a == [] {
      assert |b| == |multiset(b)| == 0;
    } else {
      var front, s := a[..|a| - 1], a[|a| - 1];
      assert a == front + [s];
      SameMembers(a, b);
      assert s in a && s in b;
      var i :| 0 <= i < |b| && b[i] == s;
      assert b == b[..i] + [s] + b[i + 1..];
      MultisetRemove(b[..i], s, b[i + 1..], front);
      BagPermutation(front, b[..i] + b[i + 1..]);
      BagRemove(b[..i], s, b[i + 1..]);
    }
  }

  /** Sorted by start, and no two neighbours could still be merged. */
  ghost predicate Separate(out: seq<Span>) {
    && (forall i, j :: 0 <= i < j < |out| ==> AtMost(out[i].from, out[j].from))
    && (forall i :: 0 < i < |out| ==> !Mergeable(out[i - 1], out[i]))
  }

  /** Only the start and the status of the second span matter. */
  lemma MergeableByStart(last: Span, s: Span, s': Span)
    requires s.from == s'.from && s.status == s'.status
    ensures Mergeable(last, s) <==> Mergeable(last, s')
  {
  }

  lemma SameStartsSeparate(out: seq<Span>, changed: seq<Span>)
    requires Separate(out) && |changed| == |out|
    requires forall i :: 0 <= i < |out| ==> changed[i].from == out[i].from && changed[i].status == out[i].status
    requires forall i :: 0 <= i < |out| - 1 ==> changed[i] == out[i]
    ensures Separate(changed)
  {
    forall i | 0 < i < |changed|
      ensures !Mergeable(changed[i - 1], changed[i])
    {
      assert !Mergeable(out[i - 1], out[i]);
      MergeableByStart(out[i - 1], out[i], changed[i]);
    }
  }

  lemma ReplaceLastSeparate(out: seq<Span>, last: Span)
    requires Separate(out) && out != []
    requires last.from == out[|out| - 1].from && last.status == out[|out| - 1].status
    ensures Separate(out[..|out| - 1] + [last])
  {
    SameStartsSeparate(out, out[..|out| - 1] + [last]);
  }

  lemma StartsInOrder(out: seq<Span>, s: Span, i: nat, j: nat)
    requires Separate(out) && StartsBefore(out, s.from) && i < j <= |out|
    ensures AtMost(out[i].from, (out + [s])[j].from)
  {
    assert out[i] in out;
    if j < |out| {
      assert AtMost(out[i].from, out[j].from);
    }
  }

  lemma AppendApart(out: seq<Span>, s: Span, i: nat)
    requires Separate(out) && (out != [] ==> !Mergeable(out[|out| - 1], s)) && 0 < i <= |out|
    ensures !Mergeable((out + [s])[i - 1], (out + [s])[i])
  {
    if i < |out| {
      assert !Mergeable(out[i - 1], out[i]);
    }
  }

  lemma AppendSeparate(out: seq<Span>, s: Span)
    requires Separate(out) && StartsBefore(out, s.from)
    requires out != [] ==> !Mergeable(out[|out| - 1], s)
    ensures Separate(out + [s])
  {
    forall i: nat, j: nat | i < j <= |out|
      ensures AtMost((out + [s])[i].from, (out + [s])[j].from)
    {
      StartsInOrder(out, s, i, j);
    }
    forall i: nat | 0 < i <= |out|
      ensures !Mergeable((out + [s])[i - 1], (out + [s])[i])
    {
      AppendApart(out, s, i);
    }
  }

  lemma {:induction false} MergedSeparate(spans: seq<Span>)
    requires Sorted(CompareSpans, spans)
    ensures Separate(MergeSorted(spans))
  {
    if spans != [] {
      var front, s := spans[..|spans| - 1], spans[|spans| - 1];
      PrefixStartsBefore(spans);
      MergedSeparate(front);
      MergedStartsBefore(front, s.from);
      var out := MergeSorted(front);
      if out != [] && Mergeable(out[|out| - 1], s) {
        ReplaceLastSeparate(out, Extend(out[|out| - 1], s));
      } else {
        AppendSeparate(out, s);
      }
    }
  }

  // ---- what each merged span is made of ----

  function AllDecisions(group: seq<Span>): seq<ContributingDecision> {
    if group == [] then [] else AllDecisions(group[..|group| - 1]) + group[|group| - 1].decisions
  }

  function Flatten(groups: seq<seq<Span>>): seq<Span> {
    if groups == [] then [] else Flatten(groups[..|groups| - 1]) + groups[|groups| - 1]
  }

  /** The span absorbed this run of spans of its status: it starts where the first one starts, ends where
      the furthest one ends, in the spelling of the first of those, and has exactly their decisions, in
      order. */
  ghost predicate MadeOf(s: Span, group: seq<Span>) {
    && group != [] && s.from == group[0].from && s.decisions == AllDecisions(group)
    && (forall g :: g in group ==> g.status == s.status && CompareVersions(g.to, s.to) <= 0)
    && exists k :: 0 <= k < |group| && group[k].to == s.to && EarlierEndBefore(group, k)
  }

  ghost predicate EarlierEndBefore(group: seq<Span>, k: nat)
    requires k < |group|
  {
    forall j :: 0 <= j < k ==> CompareVersions(group[j].to, group[k].to) < 0
  }

  /** By start, then by end. */
  ghost predicate InSpanOrder(spans: seq<Span>) {
    forall i, j :: 0 <= i < j < |spans| ==> SpanAtMost(spans[i], spans[j])
  }

  predicate SpanAtMost(s: Span, t: Span) {
    || CompareVersions(s.from, t.from) < 0
    || (CompareVersions(s.from, t.from) == 0 && CompareVersions(s.to, t.to) <= 0)
  }

  /** The merged spans are made of consecutive runs of the spans in order, and two neighbours of one
      status do not touch. */
  ghost predicate MergedFrom(spans: seq<Span>, out: seq<Span>, groups: seq<seq<Span>>) {
    && multiset(Flatten(groups)) == multiset(spans) && InSpanOrder(Flatten(groups))
    && EachMadeOf(out, groups)
    && (forall i | 0 < i < |out| && out[i - 1].status == out[i].status ::
         CompareVersions(out[i].from, out[i - 1].to) > 0)
  }

  lemma MadeOfOne(s: Span)
    ensures MadeOf(s, [s])
  {
    assert [s][..0] == [] && AllDecisions([]) == [];
    VersionsConsistent(s.to, s.to, s.to);
    assert [s][0].to == s.to && EarlierEndBefore([s], 0);
  }

  lemma MadeOfMore(last: Span, group: seq<Span>, s: Span)
    requires MadeOf(last, group) && Mergeable(last, s)
    ensures MadeOf(Extend(last, s), group + [s])
  {
    var longer, extended := group + [s], Extend(last, s);
    assert longer[..|group|] == group && longer[|group|] == s && longer[0] == group[0];
    VersionsConsistent(s.to, s.to, s.to);
    VersionsConsistent(s.to, last.to, s.to);
    forall g | g in longer
      ensures g.status == extended.status && CompareVersions(g.to, extended.to) <= 0
    {
      if g in group {
        VersionsConsistent(g.to, last.to, s.to);
      }
    }
    FurthestEnd(last, group, s);
  }

  lemma FurthestEnd(last: Span, group: seq<Span>, s: Span)
    requires MadeOf(last, group)
    ensures var longer := group + [s];
      exists k :: 0 <= k < |longer| && longer[k].to == Extend(last, s).to && EarlierEndBefore(longer, k)
  {
    var longer, n := group + [s], |group|;
    if CompareVersions(s.to, last.to) > 0 {
      forall j | 0 <= j < n
        ensures CompareVersions(longer[j].to, s.to) < 0
      {
        assert longer[j] == group[j] && group[j] in group;
        VersionsConsistent(group[j].to, last.to, s.to);
        VersionsConsistent(s.to, last.to, s.to);
      }
      assert longer[n].to == Extend(last, s).to && EarlierEndBefore(longer, n);
    } else {
      var k :| 0 <= k < n && group[k].to == last.to && EarlierEndBefore(group, k);
      assert forall j :: 0 <= j <= k ==> longer[j] == group[j];
      assert longer[k].to == Extend(last, s).to && EarlierEndBefore(longer, k);
    }
  }

  lemma FlattenSnoc(groups: seq<seq<Span>>, group: seq<Span>)
    ensures Flatten(groups + [group]) == Flatten(groups) + group
  {
    assert (groups + [group])[..|groups|] == groups;
  }

  lemma Regroup(a: seq<Span>, b: seq<Span>, s: Span)
    ensures a + (b + [s]) == (a + b) + [s]
  {
  }

  ghost predicate EachMadeOf(out: seq<Span>, groups: seq<seq<Span>>) {
    |groups| == |out| && forall i :: 0 <= i < |out| ==> MadeOf(out[i], groups[i])
  }

  lemma ExtendedFlat(groups: seq<seq<Span>>, s: Span)
    requires groups != []
    ensures var m := |groups| - 1; Flatten(groups[..m] + [groups[m] + [s]]) == Flatten(groups) + [s]
  {
    var m := |groups| - 1;
    FlattenSnoc(groups[..m], groups[m] + [s]);
    Regroup(Flatten(groups[..m]), groups[m], s);
  }

  lemma ExtendedEach(out: seq<Span>, groups: seq<seq<Span>>, s: Span)
    requires EachMadeOf(out, groups) && out != [] && Mergeable(out[|out| - 1], s)
    ensures var m := |out| - 1; EachMadeOf(out[..m] + [Extend(out[m], s)], groups[..m] + [groups[m] + [s]])
  {
    var m := |out| - 1;
    MadeOfMore(out[m], groups[m], s);
    ReplacedLast(out, groups, Extend(out[m], s), groups[m] + [s]);
  }

  lemma ReplacedLast(out: seq<Span>, groups: seq<seq<Span>>, s: Span, group: seq<Span>)
    requires EachMadeOf(out, groups) && out != [] && MadeOf(s, group)
    ensures var m := |out| - 1; EachMadeOf(out[..m] + [s], groups[..m] + [group])
  {
    var m := |out| - 1;
    var out', groups' := out[..m] + [s], groups[..m] + [group];
    forall i | 0 <= i < |out'|
      ensures MadeOf(out'[i], groups'[i])
    {
      assert i < m ==> out'[i] == out[i] && groups'[i] == groups[i];
    }
  }

  lemma AppendedEach(out: seq<Span>, groups: seq<seq<Span>>, s: Span)
    requires EachMadeOf(out, groups)
    ensures EachMadeOf(out + [s], groups + [[s]])
  {
    MadeOfOne(s);
  }

  lemma GroupMerged(out: seq<Span>, groups: seq<seq<Span>>, s: Span) returns (groups': seq<seq<Span>>)
    requires EachMadeOf(out, groups)
    ensures EachMadeOf(MergeOne(out, s), groups') && Flatten(groups') == Flatten(groups) + [s]
  {
    if out != [] && Mergeable(out[|out| - 1], s) {
      var m := |groups| - 1;
      ExtendedEach(out, groups, s);
      ExtendedFlat(groups, s);
      groups' := groups[..m] + [groups[m] + [s]];
    } else {
      AppendedEach(out, groups, s);
      FlattenSnoc(groups, [s]);
      groups' := groups + [[s]];
    }
  }

  ghost predicate Grouped(spans: seq<Span>) {
    exists groups :: EachMadeOf(MergeSorted(spans), groups) && Flatten(groups) == spans
  }

  lemma GroupedSnoc(spans: seq<Span>, s: Span)
    requires Grouped(spans)
    ensures Grouped(spans + [s])
  {
    var groups :| EachMadeOf(MergeSorted(spans), groups) && Flatten(groups) == spans;
    var groups' := GroupMerged(MergeSorted(spans), groups, s);
    MergeSortedSnoc(spans, s);
  }

  lemma MergeSortedSnoc(spans: seq<Span>, s: Span)
    ensures MergeSorted(spans + [s]) == MergeOne(MergeSorted(spans), s)
  {
    assert (spans + [s])[..|spans|] == spans;
  }

  lemma {:induction false} MergedGroups(spans: seq<Span>)
    ensures Grouped(spans)
    decreases |spans|
  {
    if spans == [] {
      assert EachMadeOf([], []) && Flatten([]) == [];
    } else {
      var n := |spans| - 1;
      assert spans == spans[..n] + [spans[n]];
      MergedGroups(spans[..n]);
      GroupedSnoc(spans[..n], spans[n]);
    }
  }

  lemma SortedInSpanOrder(spans: seq<Span>)
    requires Sorted(CompareSpans, spans)
    ensures InSpanOrder(spans)
  {
    forall i, j | 0 <= i < j < |spans|
      ensures SpanAtMost(spans[i], spans[j])
    {
      assert CompareSpans(spans[i], spans[j]) <= 0;
    }
  }

  lemma NeighboursApart(out: seq<Span>)
    requires Separate(out)
    ensures forall i | 0 < i < |out| && out[i - 1].status == out[i].status ::
      CompareVersions(out[i].from, out[i - 1].to) > 0
  {
    forall i | 0 < i < |out| && out[i - 1].status == out[i].status
      ensures CompareVersions(out[i].from, out[i - 1].to) > 0
    {
      assert !Mergeable(out[i - 1], out[i]);
    }
  }

  /** Whatever way `sort.Slice` breaks ties, merging keeps the versions covered by each status and
      the decisions, and returns spans in order. Each is made of a run of the spans it was given, and
      no two neighbours of one status touch. */
  lemma MergeKeeps(spans: seq<Span>, out: seq<Span>)
    requires MergesTo(spans, out)
    ensures forall status, version :: Covered(out, status, version) <==> Covered(spans, status, version)
    ensures Bag(out) == Bag(spans)
    ensures forall i, j :: 0 <= i < j < |out| ==> CompareVersions(out[i].from, out[j].from) <= 0
    ensures exists groups :: MergedFrom(spans, out, groups)
  {
    var sorted :| Sorted(CompareSpans, sorted) && multiset(sorted) == multiset(spans) && out == MergeSorted(sorted);
    forall status, version
      ensures Covered(out, status, version) <==> Covered(spans, status, version)
    {
      MergeCovers(sorted, status, version);
      SameMembers(sorted, spans);
    }
    MergeBag(sorted);
    BagPermutation(sorted, spans);
    MergedSeparate(sorted);
    SeparateInOrder(out);
    MergedMadeOf(spans, sorted);
  }

  lemma SeparateInOrder(out: seq<Span>)
    requires Separate(out)
    ensures forall i, j :: 0 <= i < j < |out| ==> CompareVersions(out[i].from, out[j].from) <= 0
  {
    forall i, j | 0 <= i < j < |out|
      ensures CompareVersions(out[i].from, out[j].from) <= 0
    {
      assert AtMost(out[i].from, out[j].from);
    }
  }

  lemma MergedMadeOf(spans: seq<Span>, sorted: seq<Span>)
    requires Sorted(CompareSpans, sorted) && multiset(sorted) == multiset(spans)
    ensures exists groups :: MergedFrom(spans, MergeSorted(sorted), groups)
  {
    MergedGroups(sorted);
    var groups :| EachMadeOf(MergeSorted(sorted), groups) && Flatten(groups) == sorted;
    SortedInSpanOrder(sorted);
    MergedSeparate(sorted);
    NeighboursApart(MergeSorted(sorted));
    assert MergedFrom(spans, MergeSorted(sorted), groups);
  }

  // ---- the span list agrees with the verdicts ----

  /** A signature has a span when it is exact, rejects, or starts from a trusted base. */
  ghost predicate Applies(sigs: seq<SigInfo>, s: SigInfo) {
    !s.isDelta || Rejects(s) || Trusted(sigs, s.fromVersion)
  }

  lemma {:induction false} RawSpansExact(sigs: seq<SigInfo>, k: nat, cache: Cache, span: Span)
    requires k <= |sigs| && NoTiedBases(sigs) && CacheExact(sigs, cache)
    ensures span in RawSpans(sigs, k, cache) <==>
      exists i :: k <= i < |sigs| && Applies(sigs, sigs[i]) && span == RawSpan(sigs[i])
    decreases |sigs| - k
  {
    if k < |sigs| {
      if !sigs[k].isDelta || Rejects(sigs[k]) {
        RawSpansExact(sigs, k + 1, cache, span);
      } else {
        ResolveExact(sigs[k].fromVersion, sigs, cache, {});
        MeaningStatus(sigs, sigs[k].fromVersion);
        RawSpansExact(sigs, k + 1, Resolve(sigs[k].fromVersion, sigs, cache, {}).1, span);
      }
    }
  }

  /** The decisions, from index `k` on, that are exact, reject, or start from a trusted base. */
  ghost function Listed(sigs: seq<SigInfo>, k: nat): seq<ContributingDecision>
    requires k <= |sigs|
    decreases |sigs| - k
  {
    if k == |sigs| then []
    else
      var rest := Listed(sigs, k + 1);
      if !sigs[k].isDelta || sigs[k].decision.level == Rejected || Trusted(sigs, sigs[k].fromVersion) then
        [sigs[k].decision] + rest
      else rest
  }

  lemma BagFirst(s: Span, rest: seq<Span>)
    ensures Bag([s] + rest) == multiset(s.decisions) + Bag(rest)
  {
    BagConcat([s], rest);
    assert [s] == [] + [s];
    BagSnoc([], s);
  }

  lemma {:induction false} RawBag(sigs: seq<SigInfo>, k: nat, cache: Cache)
    requires k <= |sigs| && NoTiedBases(sigs) && CacheExact(sigs, cache)
    ensures Bag(RawSpans(sigs, k, cache)) == multiset(Listed(sigs, k))
    decreases |sigs| - k
  {
    if k < |sigs| {
      var cache' := cache;
      if sigs[k].isDelta && !Rejects(sigs[k]) {
        ResolveExact(sigs[k].fromVersion, sigs, cache, {});
        MeaningStatus(sigs, sigs[k].fromVersion);
        cache' := Resolve(sigs[k].fromVersion, sigs, cache, {}).1;
      }
      RawBag(sigs, k + 1, cache');
      BagFirst(RawSpan(sigs[k]), RawSpans(sigs, k + 1, cache'));
    }
  }

  /** Nothing is listed twice and nothing is lost: the span list of a package holds, over all its
      spans, each decision that is exact, rejects, or starts from a trusted base as often as it was
      made, and no other. */
  lemma EveryDecisionListed(sigs: seq<SigInfo>, out: seq<Span>)
    requires NoTiedBases(sigs) && MergesTo(RawSpans(sigs, 0, map[]), out)
    ensures Bag(out) == multiset(Listed(sigs, 0))
  {
    RawBag(sigs, 0, map[]);
    MergeKeeps(RawSpans(sigs, 0, map[]), out);
  }

  lemma RawCovered(sigs: seq<SigInfo>, status: Status, version: string)
    requires NoTiedBases(sigs)
    ensures Covered(RawSpans(sigs, 0, map[]), status, version) <==>
      exists s :: s in sigs && Applies(sigs, s) && RawSpan(s).status == status && SpanCovers(RawSpan(s), version)
  {
    forall span
      ensures span in RawSpans(sigs, 0, map[]) <==> exists s :: s in sigs && Applies(sigs, s) && span == RawSpan(s)
    {
      RawSpansExact(sigs, 0, map[], span);
    }
  }

  /** No exact decision is about another spelling of the version asked for. */
  ghost predicate NoOtherSpelling(sigs: seq<SigInfo>, version: string) {
    forall s :: s in sigs && !s.isDelta && Tied(s.exactVersion, version) ==> s.exactVersion == version
  }

  lemma SpanOfSig(sigs: seq<SigInfo>, s: SigInfo, version: string)
    requires NoOtherSpelling(sigs, version) && s in sigs
    ensures SpanCovers(RawSpan(s), version) <==> Names(s, version) || Covers(s, version)
  {
    if !s.isDelta {
      VersionsConsistent(s.exactVersion, version, s.exactVersion);
      VersionsConsistent(version, version, version);
    }
  }

  /** Some vetted delta starts at this version and covers it. */
  ghost predicate CoveringVettedBase(sigs: seq<SigInfo>, version: string) {
    exists s :: s in sigs && s.isDelta && s.decision.level == Vetted
      && s.fromVersion == version && AtMost(version, s.toVersion)
  }

  /** What a covering span of each status means for the definition of the verdict. */
  lemma CoveredMeans(sigs: seq<SigInfo>, status: Status, version: string)
    requires NoTiedBases(sigs) && NoOtherSpelling(sigs, version)
    ensures Covered(RawSpans(sigs, 0, map[]), status, version) <==>
      exists s :: s in sigs && Applies(sigs, s) && StatusFromLevel(s.decision.level) == status
        && (Names(s, version) || Covers(s, version))
  {
    RawCovered(sigs, status, version);
    forall s | s in sigs
      ensures SpanCovers(RawSpan(s), version) <==> Names(s, version) || Covers(s, version)
    {
      SpanOfSig(sigs, s, version);
    }
  }

  lemma RejectedAgreesWithSpans(sigs: seq<SigInfo>, version: string)
    requires NoTiedBases(sigs) && NoOtherSpelling(sigs, version)
    ensures IsRejected(sigs, version) <==> Covered(RawSpans(sigs, 0, map[]), StatusRejected, version)
  {
    CoveredMeans(sigs, StatusRejected, version);
  }

  lemma TrustAgreesWithSpans(sigs: seq<SigInfo>, version: string)
    requires NoTiedBases(sigs) && NoOtherSpelling(sigs, version)
    ensures var raw := RawSpans(sigs, 0, map[]);
      Trusted(sigs, version) <==>
        !IsRejected(sigs, version) && (Covered(raw, StatusVetted, version) || Covered(raw, StatusAllowed, version))
  {
    TrustedIsFixedPoint(sigs, version);
    CoveredMeans(sigs, StatusVetted, version);
    CoveredMeans(sigs, StatusAllowed, version);
  }

  /** Some vetted signature about this version has a span and does not start at the version itself. */
  ghost predicate VettedFromElsewhere(sigs: seq<SigInfo>, version: string) {
    exists s :: s in sigs && s.decision.level == Vetted && Applies(sigs, s)
      && (Names(s, version) || (Covers(s, version) && s.fromVersion != version))
  }

  lemma VettedAgreesWithSpans(sigs: seq<SigInfo>, version: string)
    requires NoTiedBases(sigs) && NoOtherSpelling(sigs, version) && Trusted(sigs, version)
    ensures Meaning(sigs, version).status == StatusVetted <==> VettedFromElsewhere(sigs, version)
    ensures Covered(RawSpans(sigs, 0, map[]), StatusVetted, version) <==>
      VettedFromElsewhere(sigs, version) || CoveringVettedBase(sigs, version)
  {
    MeaningStatus(sigs, version);
    MeaningByMembership(sigs, version);
    CoveredMeans(sigs, StatusVetted, version);
    VersionsConsistent(version, version, version);
  }

  /** The point query and the merged spans of the same signatures: rejected and approved are told
      apart alike. On an approved version, vetted and allowed are too, if and only if every vetted
      delta that starts at the version and covers it is backed by another vetted signature that has a
      span over the version. */
  lemma PointAgreesWithSpans(sigs: seq<SigInfo>, out: seq<Span>, version: string)
    requires NoTiedBases(sigs) && NoOtherSpelling(sigs, version) && MergesTo(RawSpans(sigs, 0, map[]), out)
    ensures var status := Resolve(version, sigs, map[], {}).0.status;
      && (status == StatusRejected <==> Covered(out, StatusRejected, version))
      && (Approves(status) <==>
           && !Covered(out, StatusRejected, version)
           && (Covered(out, StatusVetted, version) || Covered(out, StatusAllowed, version)))
      && (Approves(status) ==> (status == StatusVetted <==> VettedFromElsewhere(sigs, version)))
      && (Approves(status) ==>
           ((status == StatusVetted <==> Covered(out, StatusVetted, version)) <==>
             (CoveringVettedBase(sigs, version) ==> VettedFromElsewhere(sigs, version))))
  {
    MergeKeeps(RawSpans(sigs, 0, map[]), out);
    ResolveExact(version, sigs, map[], {});
    MeaningStatus(sigs, version);
    RejectedAgreesWithSpans(sigs, version);
    TrustAgreesWithSpans(sigs, version);
    if Trusted(sigs, version) {
      VettedAgreesWithSpans(sigs, version);
    }
  }

  // ---- rejection, under no premise ----

  /** An exact decision about the same version in another spelling. */
  predicate IsOtherSpelling(s: SigInfo, version: string) {
    !s.isDelta && s.exactVersion != version && Tied(s.exactVersion, version)
  }

  /** An exact rejection of the same version in another spelling. */
  ghost predicate RejectedInOtherSpelling(sigs: seq<SigInfo>, version: string) {
    exists s :: s in sigs && Rejects(s) && IsOtherSpelling(s, version)
  }

  lemma {:induction false} RejectingSpan(sigs: seq<SigInfo>, k: nat, cache: Cache, span: Span)
    requires k <= |sigs| && span.status == StatusRejected
    ensures span in RawSpans(sigs, k, cache) <==>
      exists i :: k <= i < |sigs| && Rejects(sigs[i]) && span == RawSpan(sigs[i])
    decreases |sigs| - k
  {
    if k < |sigs| {
      if !sigs[k].isDelta || Rejects(sigs[k]) {
        RejectingSpan(sigs, k + 1, cache, span);
      } else {
        RejectingSpan(sigs, k + 1, Resolve(sigs[k].fromVersion, sigs, cache, {}).1, span);
      }
    }
  }

  lemma SpanCoversMeans(s: SigInfo, version: string)
    ensures SpanCovers(RawSpan(s), version) <==>
      Covers(s, version) || (!s.isDelta && Tied(s.exactVersion, version))
  {
    VersionsConsistent(s.exactVersion, version, s.exactVersion);
  }

  lemma RejectedSpans(sigs: seq<SigInfo>, version: string)
    ensures Covered(RawSpans(sigs, 0, map[]), StatusRejected, version) <==>
      IsRejected(sigs, version) || RejectedInOtherSpelling(sigs, version)
  {
    VersionsConsistent(version, version, version);
    forall span: Span | span.status == StatusRejected
      ensures span in RawSpans(sigs, 0, map[]) <==> exists s :: s in sigs && Rejects(s) && span == RawSpan(s)
    {
      RejectingSpan(sigs, 0, map[], span);
    }
    forall s
      ensures SpanCovers(RawSpan(s), version) <==> Covers(s, version) || (!s.isDelta && Tied(s.exactVersion, version))
    {
      SpanCoversMeans(s, version);
    }
  }

  /** For any signatures: point query and spans agree on rejection if and only if a version rejected in
      another spelling is itself rejected. */
  lemma RejectionAgreesIff(sigs: seq<SigInfo>, out: seq<Span>, version: string)
    requires MergesTo(RawSpans(sigs, 0, map[]), out)
    ensures (Resolve(version, sigs, map[], {}).0.status == StatusRejected <==> Covered(out, StatusRejected, version))
       <==> (RejectedInOtherSpelling(sigs, version) ==> IsRejected(sigs, version))
  {
    MergeKeeps(RawSpans(sigs, 0, map[]), out);
    LookupGrounded(version, sigs, map[]);
    RejectedSpans(sigs, version);
  }

  // ---- approval, under no premise on spellings ----

  /** An approval that has a span names the version or covers it. */
  ghost predicate ApprovedHere(sigs: seq<SigInfo>, version: string) {
    exists s :: s in sigs && IsApproval(s) && Applies(sigs, s) && (Names(s, version) || Covers(s, version))
  }

  /** An exact approval of the same version in another spelling. */
  ghost predicate ApprovedInOtherSpelling(sigs: seq<SigInfo>, version: string) {
    exists s :: s in sigs && IsApproval(s) && IsOtherSpelling(s, version)
  }

  /** A covering span of each status, in terms of signatures. */
  lemma CoveredBySignature(sigs: seq<SigInfo>, status: Status, version: string)
    requires NoTiedBases(sigs)
    ensures Covered(RawSpans(sigs, 0, map[]), status, version) <==>
      exists s :: s in sigs && Applies(sigs, s) && StatusFromLevel(s.decision.level) == status
        && (Names(s, version) || Covers(s, version) || IsOtherSpelling(s, version))
  {
    RawCovered(sigs, status, version);
    forall s | s in sigs
      ensures SpanCovers(RawSpan(s), version) <==>
        Names(s, version) || Covers(s, version) || IsOtherSpelling(s, version)
    {
      SpanCoversMeans(s, version);
      VersionsConsistent(version, version, version);
    }
  }

  lemma ApprovedSpans(sigs: seq<SigInfo>, version: string)
    requires NoTiedBases(sigs)
    ensures var raw := RawSpans(sigs, 0, map[]);
      Covered(raw, StatusVetted, version) || Covered(raw, StatusAllowed, version) <==>
        ApprovedHere(sigs, version) || ApprovedInOtherSpelling(sigs, version)
  {
    CoveredBySignature(sigs, StatusVetted, version);
    CoveredBySignature(sigs, StatusAllowed, version);
  }

  lemma TrustedIffApprovedHere(sigs: seq<SigInfo>, version: string)
    ensures Trusted(sigs, version) <==> !IsRejected(sigs, version) && ApprovedHere(sigs, version)
  {
    TrustedIsFixedPoint(sigs, version);
  }

  /** Without the premise on spellings, point query and spans agree on approval if and only if the version
      is rejected; or it is rejected in another spelling and not approved; or it is rejected in no
      spelling, and approved if it is in another. */
  lemma ApprovalAgreesIff(sigs: seq<SigInfo>, out: seq<Span>, version: string)
    requires NoTiedBases(sigs) && MergesTo(RawSpans(sigs, 0, map[]), out)
    ensures var approvedBySpans :=
        && !Covered(out, StatusRejected, version)
        && (Covered(out, StatusVetted, version) || Covered(out, StatusAllowed, version));
      (Approves(Resolve(version, sigs, map[], {}).0.status) <==> approvedBySpans) <==>
        || IsRejected(sigs, version)
        || (RejectedInOtherSpelling(sigs, version) && !ApprovedHere(sigs, version))
        || (!RejectedInOtherSpelling(sigs, version)
            && (ApprovedInOtherSpelling(sigs, version) ==> ApprovedHere(sigs, version)))
  {
    MergeKeeps(RawSpans(sigs, 0, map[]), out);
    ResolveExact(version, sigs, map[], {});
    MeaningStatus(sigs, version);
    RejectedSpans(sigs, version);
    ApprovedSpans(sigs, version);
    TrustedIffApprovedHere(sigs, version);
  }

  // ---- where vetted and allowed differ ----

  /** An allowed version, and a vetted delta from it to `x`. */
  function AllowedBase(w: string, x: string): seq<SigInfo> {
    [Exact(w, Allowed), Delta(w, x, Vetted)]
  }

  lemma OneBase(w: string, x: string)
    ensures NoTiedBases(AllowedBase(w, x))
  {
    assert Bases(AllowedBase(w, x)) <= {w};
  }

  lemma AllowedBaseIsAllowed(w: string, x: string)
    requires AtMost(w, x)
    ensures Resolve(w, AllowedBase(w, x), map[], {}).0.status == StatusAllowed
  {
    var sigs := AllowedBase(w, x);
    OneBase(w, x);
    ResolveExact(w, sigs, map[], {});
    MeaningByMembership(sigs, w);
    assert sigs[0] in sigs && Contributes(sigs, sigs[0], w);
  }

  lemma AllowedBaseSpan(w: string, x: string)
    requires AtMost(w, x)
    ensures Covered(RawSpans(AllowedBase(w, x), 0, map[]), StatusVetted, w)
  {
    var sigs := AllowedBase(w, x);
    OneBase(w, x);
    AllowedBaseIsAllowed(w, x);
    ResolveExact(w, sigs, map[], {});
    MeaningStatus(sigs, w);
    VersionsConsistent(w, w, w);
    assert sigs[1] in sigs && Applies(sigs, sigs[1]) && SpanCovers(RawSpan(sigs[1]), w);
    RawCovered(sigs, StatusVetted, w);
  }

  /** For every version the exception is real: the point query reports the base of a vetted delta
      as allowed although a vetted span covers it. */
  lemma AllowedBaseInVettedSpan(w: string, x: string, out: seq<Span>)
    requires AtMost(w, x) && MergesTo(RawSpans(AllowedBase(w, x), 0, map[]), out)
    ensures Resolve(w, AllowedBase(w, x), map[], {}).0.status == StatusAllowed && Covered(out, StatusVetted, w)
  {
    AllowedBaseIsAllowed(w, x);
    AllowedBaseSpan(w, x);
    MergeKeeps(RawSpans(AllowedBase(w, x), 0, map[]), out);
  }
}
