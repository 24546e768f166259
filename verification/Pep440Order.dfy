/** PEP 440 order written out: which of two versions comes first, with plain `<` on numbers and the
    first different character for words, and the proof that comparing by key is this order. */
module Pep440Order {
  import opened Order
  import opened Text
  import opened Pep440

  // ---- release numbers ----

  function NumberAt(release: seq<int>, i: nat): int {
    if i < |release| then release[i] else 0
  }

  ghost predicate SameNumbers(a: seq<int>, b: seq<int>, n: nat) {
    forall k: nat :: k < n ==> NumberAt(a, k) == NumberAt(b, k)
  }

  ghost predicate SameRelease(a: seq<int>, b: seq<int>) {
    forall k: nat :: NumberAt(a, k) == NumberAt(b, k)
  }

  /** The first number that differs decides; missing numbers are zero. */
  ghost predicate ReleasePrecedes(a: seq<int>, b: seq<int>) {
    exists i: nat :: SameNumbers(a, b, i) && NumberAt(a, i) < NumberAt(b, i)
  }

  lemma ReleaseShift(a: seq<int>, b: seq<int>)
    ensures SameRelease(a, b) <==> NumberAt(a, 0) == NumberAt(b, 0) && SameRelease(Tail(a), Tail(b))
    ensures ReleasePrecedes(a, b) <==>
      || NumberAt(a, 0) < NumberAt(b, 0)
      || (NumberAt(a, 0) == NumberAt(b, 0) && ReleasePrecedes(Tail(a), Tail(b)))
  {
    var x, y := Tail(a), Tail(b);
    assert forall k: nat :: NumberAt(x, k) == NumberAt(a, k + 1) && NumberAt(y, k) == NumberAt(b, k + 1);
    if SameRelease(a, b) {
      forall k: nat
        ensures NumberAt(x, k) == NumberAt(y, k)
      {
        assert NumberAt(a, k + 1) == NumberAt(b, k + 1);
      }
    }
    if NumberAt(a, 0) == NumberAt(b, 0) && SameRelease(x, y) {
      forall k: nat
        ensures NumberAt(a, k) == NumberAt(b, k)
      {
        assert k > 0 ==> NumberAt(x, k - 1) == NumberAt(y, k - 1);
      }
    }
    if i: nat :| SameNumbers(a, b, i) && NumberAt(a, i) < NumberAt(b, i) {
      if i > 0 {
        SameShift(a, b, i - 1);
      }
    }
    if NumberAt(a, 0) < NumberAt(b, 0) {
      assert SameNumbers(a, b, 0);
    }
    if NumberAt(a, 0) == NumberAt(b, 0) {
      if j: nat :| SameNumbers(x, y, j) && NumberAt(x, j) < NumberAt(y, j) {
        SameShift(a, b, j);
        assert NumberAt(a, j + 1) < NumberAt(b, j + 1);
      }
    }
  }

  lemma SameShift(a: seq<int>, b: seq<int>, n: nat)
    ensures SameNumbers(a, b, n + 1) <==> NumberAt(a, 0) == NumberAt(b, 0) && SameNumbers(Tail(a), Tail(b), n)
  {
    var x, y := Tail(a), Tail(b);
    assert forall k: nat :: NumberAt(x, k) == NumberAt(a, k + 1) && NumberAt(y, k) == NumberAt(b, k + 1);
    if NumberAt(a, 0) == NumberAt(b, 0) && SameNumbers(x, y, n) {
      forall k: nat | k < n + 1
        ensures NumberAt(a, k) == NumberAt(b, k)
      {
        assert k > 0 ==> NumberAt(x, k - 1) == NumberAt(y, k - 1);
      }
    }
    if SameNumbers(a, b, n + 1) {
      forall k: nat | k < n
        ensures NumberAt(x, k) == NumberAt(y, k)
      {
        assert NumberAt(a, k + 1) == NumberAt(b, k + 1);
      }
    }
  }

  lemma {:induction false} PaddedMeans(a: seq<int>, b: seq<int>)
    ensures ComparePadded(CompareInts, 0, a, b) < 0 <==> ReleasePrecedes(a, b)
    ensures ComparePadded(CompareInts, 0, a, b) == 0 <==> SameRelease(a, b)
    decreases |a| + |b|
  {
    if a != [] || b != [] {
      ReleaseShift(a, b);
      PaddedMeans(Tail(a), Tail(b));
    }
  }

  lemma {:induction false} StripKeepsNumbers(a: seq<int>)
    ensures forall k: nat :: NumberAt(StripTrailingZeros(a), k) == NumberAt(a, k)
  {
    if |a| > 1 && a[|a| - 1] == 0 {
      StripKeepsNumbers(a[..|a| - 1]);
    }
  }

  lemma ReleaseMeans(a: seq<int>, b: seq<int>)
    ensures CompareRelease(a, b) < 0 <==> ReleasePrecedes(a, b)
    ensures CompareRelease(a, b) == 0 <==> SameRelease(a, b)
  {
    StripKeepsNumbers(a);
    StripKeepsNumbers(b);
    PaddedMeans(StripTrailingZeros(a), StripTrailingZeros(b));
    var x, y := StripTrailingZeros(a), StripTrailingZeros(b);
    assert forall n: nat :: SameNumbers(x, y, n) <==> SameNumbers(a, b, n);
  }

  // ---- suffixes ----

  predicate IsDevOfFinal(v: Version) {
    v.preKind == "" && v.postNum < 0 && v.devNum >= 0
  }

  /** A development release of the final release, then pre-releases by kind and number, then the rest. */
  ghost predicate PrePrecedes(a: Version, b: Version) {
    || (IsDevOfFinal(a) && !IsDevOfFinal(b))
    || (!IsDevOfFinal(b) && a.preKind != "" && b.preKind == "")
    || (a.preKind != "" && b.preKind != ""
        && (StringPrecedes(a.preKind, b.preKind) || (a.preKind == b.preKind && a.preNum < b.preNum)))
  }

  predicate SamePreSegment(a: Version, b: Version) {
    && a.preKind == b.preKind && (a.preKind != "" ==> a.preNum == b.preNum)
    && (IsDevOfFinal(a) <==> IsDevOfFinal(b))
  }

  predicate PostPrecedes(a: Version, b: Version) {
    b.postNum >= 0 && (a.postNum < 0 || a.postNum < b.postNum)
  }

  predicate SamePostSegment(a: Version, b: Version) {
    (a.postNum < 0 && b.postNum < 0) || a.postNum == b.postNum
  }

  predicate DevPrecedes(a: Version, b: Version) {
    a.devNum >= 0 && (b.devNum < 0 || a.devNum < b.devNum)
  }

  predicate SameDevSegment(a: Version, b: Version) {
    (a.devNum < 0 && b.devNum < 0) || a.devNum == b.devNum
  }

  lemma PreMeans(a: Version, b: Version)
    ensures ComparePreKeys(a, b) < 0 <==> PrePrecedes(a, b)
    ensures ComparePreKeys(a, b) == 0 <==> SamePreSegment(a, b)
  {
    StringOrder(a.preKind, b.preKind);
    StringsConsistent(a.preKind, b.preKind, a.preKind);
  }

  // ---- local labels ----

  /** A word before a number, words by the first different character, numbers by value. */
  ghost predicate SegmentPrecedes(a: string, b: string) {
    || (AllDigits(a) && AllDigits(b) && DigitsValue(a) < DigitsValue(b))
    || (!AllDigits(a) && AllDigits(b))
    || (!AllDigits(a) && !AllDigits(b) && StringPrecedes(a, b))
  }

  predicate SameSegment(a: string, b: string) {
    a == b || (AllDigits(a) && AllDigits(b) && DigitsValue(a) == DigitsValue(b))
  }

  lemma SegmentMeans(a: string, b: string)
    ensures LocalSegmentOrder(a, b) < 0 <==> SegmentPrecedes(a, b)
    ensures LocalSegmentOrder(a, b) == 0 <==> SameSegment(a, b)
  {
    StringOrder(a, b);
    StringsConsistent(a, b, a);
  }

  /** The segments of a label: the three separators are one. */
  function Segments(local: string): seq<string> {
    Split(seq(|local|,
      i requires 0 <= i < |local| => if local[i] == '-' || local[i] == '_' then '.' else local[i]), '.')
  }

  lemma {:induction false} SegmentsMean(local: string)
    ensures SplitLocal(local) == Segments(local)
  {
    if local != "" {
      var dotted :=
        seq(|local|, i requires 0 <= i < |local| => if local[i] == '-' || local[i] == '_' then '.' else local[i]);
      var rest := local[1..];
      SegmentsMean(rest);
      assert dotted[1..] ==
        seq(|rest|, i requires 0 <= i < |rest| => if rest[i] == '-' || rest[i] == '_' then '.' else rest[i]);
    }
  }

  ghost predicate SameBefore(a: seq<string>, b: seq<string>, i: nat)
    requires i <= |a| && i <= |b|
  {
    forall k :: 0 <= k < i ==> SameSegment(a[k], b[k])
  }

  ghost predicate LabelDecidedAt(a: seq<string>, b: seq<string>, i: nat) {
    i <= |a| && i < |b| && SameBefore(a, b, i) && (i < |a| ==> SegmentPrecedes(a[i], b[i]))
  }

  /** No label before any label; otherwise the first segment that differs decides, a missing one first. */
  ghost predicate LocalPrecedes(a: string, b: string) {
    b != "" && (a == "" || exists i: nat :: LabelDecidedAt(Segments(a), Segments(b), i))
  }

  ghost predicate SameLocal(a: string, b: string) {
    var x, y := Segments(a), Segments(b);
    (a == "" <==> b == "") && |x| == |y| && SameBefore(x, y, |x|)
  }

  lemma LabelsMean(a: seq<string>, b: seq<string>)
    ensures CompareRuns(LocalSegmentOrder, a, b) < 0 <==> exists i: nat :: LabelDecidedAt(a, b, i)
    ensures CompareRuns(LocalSegmentOrder, a, b) == 0 <==> |a| == |b| && SameBefore(a, b, |a|)
  {
    RunsDecided(LocalSegmentOrder, a, b);
    forall x, y
      ensures LocalSegmentOrder(x, y) < 0 <==> SegmentPrecedes(x, y)
      ensures LocalSegmentOrder(x, y) == 0 <==> SameSegment(x, y)
    {
      SegmentMeans(x, y);
    }
    forall i: nat
      ensures DecidedAt(LocalSegmentOrder, a, b, i) <==> LabelDecidedAt(a, b, i)
    {
      assert i <= |a| && i <= |b| ==> (TieBefore(LocalSegmentOrder, a, b, i) <==> SameBefore(a, b, i));
    }
  }

  lemma LocalMeans(a: string, b: string)
    ensures LocalOrder(a, b) < 0 <==> LocalPrecedes(a, b)
    ensures LocalOrder(a, b) == 0 <==> SameLocal(a, b)
  {
    SegmentsMean(a);
    SegmentsMean(b);
    LabelsMean(Segments(a), Segments(b));
  }

  // ---- the whole order ----

  /** PEP 440 order: epoch, release, pre, post, dev, local, each deciding only when all before it are
      the same. */
  ghost predicate Precedes(a: Version, b: Version) {
    || a.epoch < b.epoch
    || (a.epoch == b.epoch && (ReleasePrecedes(a.release, b.release)
         || (SameRelease(a.release, b.release) && SuffixPrecedes(a, b))))
  }

  ghost predicate SuffixPrecedes(a: Version, b: Version) {
    || PrePrecedes(a, b)
    || (SamePreSegment(a, b) && (PostPrecedes(a, b)
         || (SamePostSegment(a, b) && (DevPrecedes(a, b)
              || (SameDevSegment(a, b) && LocalPrecedes(a.local, b.local))))))
  }

  /** Nothing tells the versions apart. */
  ghost predicate SameVersion(a: Version, b: Version) {
    a.epoch == b.epoch && SameRelease(a.release, b.release) && SameSuffix(a, b)
  }

  ghost predicate SameSuffix(a: Version, b: Version) {
    SamePreSegment(a, b) && SamePostSegment(a, b) && SameDevSegment(a, b) && SameLocal(a.local, b.local)
  }

  function SuffixOrder(a: Version, b: Version): int {
    Then(ComparePreKeys(a, b), Then(CompareBounds(CompareInts, PostKey(a), PostKey(b)),
      Then(DevOrder(a, b), LocalOrder(a.local, b.local))))
  }

  lemma SuffixMeans(a: Version, b: Version)
    requires Parsed(a) && Parsed(b)
    ensures SuffixOrder(a, b) < 0 <==> SuffixPrecedes(a, b)
    ensures SuffixOrder(a, b) == 0 <==> SameSuffix(a, b)
  {
    PreMeans(a, b);
    LocalMeans(a.local, b.local);
  }

  /** Comparing by key is PEP 440 order. */
  lemma KeyIsOrder(a: Version, b: Version)
    requires Parsed(a) && Parsed(b)
    ensures PepOrder(a, b) < 0 <==> Precedes(a, b)
    ensures PepOrder(a, b) == 0 <==> SameVersion(a, b)
  {
    ReleasesAgree(a.release, b.release);
    ReleaseMeans(a.release, b.release);
    SuffixMeans(a, b);
  }

  /** Strings that do not parse come before those that do, and in string order. */
  lemma InvalidFirst(parse: string -> Option<Version>, a: string, b: string)
    ensures parse(a).None? && parse(b).Some? ==> Compare(parse, a, b) < 0 < Compare(parse, b, a)
    ensures parse(a).None? && parse(b).None? ==> (Compare(parse, a, b) < 0 <==> StringPrecedes(a, b))
  {
    StringOrder(a, b);
  }

  /** Of two parsed versions of one epoch and release, whatever else they hold, an alpha comes
      before a beta and a beta before a release candidate. */
  lemma KindsInOrder(a: Version, b: Version)
    requires Parsed(a) && Parsed(b) && a.epoch == b.epoch && SameRelease(a.release, b.release)
    requires a.preKind != "" && b.preKind != "" && a.preKind != b.preKind
    ensures CmpVersion(a, b) == if a.preKind == "a" || b.preKind == "rc" then -1 else 1
  {
    ReleaseMeans(a.release, b.release);
  }
}
