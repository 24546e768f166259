/** The generic version order every verdict rests on (resolver/version.go). */
module Versions {
  import opened Order
  import opened Text

  datatype Parts = Parts(base: string, pre: string)

  /** Drop one leading "v", then cut at the first "-". */
  function SplitPreRelease(version: string): Parts {
    var v := if version != "" && version[0] == 'v' then version[1..] else version;
    var i := IndexOf(v, '-');
    if i >= 0 then Parts(v[..i], v[i + 1..]) else Parts(v, "")
  }

  /** Two numbers compare as numbers, two words as strings, and a number is below a word. */
  function CompareSegments(a: string, b: string): int {
    match (Atoi(a), Atoi(b))
    case (Some(m), Some(n)) => CompareInts(m, n)
    case (Some(_), None) => -1
    case (None, Some(_)) => 1
    case (None, None) => CompareStrings(a, b)
  }

  /** Dotted bases compare segment by segment; a missing segment is the empty word, which is not
      a number: "1.0" is above "1.0.0". */
  function CompareDotted(a: string, b: string): int {
    ComparePadded(CompareSegments, "", Split(a, '.'), Split(b, '.'))
  }

  /** No pre-release is above every pre-release. */
  function ComparePreRelease(a: string, b: string): int {
    if a == "" && b == "" then 0
    else if a == "" then 1
    else if b == "" then -1
    else CompareStrings(a, b)
  }

  function CompareVersions(a: string, b: string): int {
    var pa, pb := SplitPreRelease(a), SplitPreRelease(b);
    Then(CompareDotted(pa.base, pb.base), ComparePreRelease(pa.pre, pb.pre))
  }

  predicate AtMost(a: string, b: string) {
    CompareVersions(a, b) <= 0
  }

  predicate Tied(a: string, b: string) {
    CompareVersions(a, b) == 0
  }

  /** The index loop of the source computes the padded comparison. */
  method CompareNumericDotted(a: string, b: string) returns (c: int)
    ensures c == CompareDotted(a, b)
  {
    var aSegs, bSegs := Split(a, '.'), Split(b, '.');
    var n := |aSegs|;
    if |bSegs| > n {
      n := |bSegs|;
    }
    ghost var all := CompareDotted(a, b);
    for i := 0 to n
      invariant ComparePadded(CompareSegments, "", From(aSegs, i), From(bSegs, i)) == all
    {
      var aSeg, bSeg := "", "";
      if i < |aSegs| {
        aSeg := aSegs[i];
      }
      if i < |bSegs| {
        bSeg := bSegs[i];
      }
      PaddedStep(aSegs, bSegs, i, aSeg, bSeg);
      var d := CompareOne(aSeg, bSeg);
      if d != 0 {
        return d;
      }
    }
    return 0;
  }

  /** The body of that loop, for one pair of segments. */
  method CompareOne(a: string, b: string) returns (d: int)
    ensures d == CompareSegments(a, b)
  {
    var m, n := Atoi(a), Atoi(b);
    if m.Some? && n.Some? {
      if m.value != n.value {
        return if m.value < n.value then -1 else 1;
      }
      return 0;
    }
    if m.Some? {
      return -1;
    }
    if n.Some? {
      return 1;
    }
    d := CompareStrings(a, b);
  }

  lemma PaddedStep(a: seq<string>, b: seq<string>, i: nat, aSeg: string, bSeg: string)
    requires i < |a| || i < |b|
    requires aSeg == (if i < |a| then a[i] else "") && bSeg == (if i < |b| then b[i] else "")
    ensures ComparePadded(CompareSegments, "", From(a, i), From(b, i))
         == Then(CompareSegments(aSeg, bSeg), ComparePadded(CompareSegments, "", From(a, i + 1), From(b, i + 1)))
  {
    assert Tail(From(a, i)) == From(a, i + 1) && Tail(From(b, i)) == From(b, i + 1);
  }

  lemma SegmentsLaws()
    ensures Laws(CompareSegments)
  {
    StringsLaws();
    forall a, b, c
      ensures CompareSegments(a, b) == -CompareSegments(b, a)
      ensures CompareSegments(a, b) <= 0 && CompareSegments(b, c) <= 0 ==> CompareSegments(a, c) <= 0
    {
      StringsConsistent(a, b, c);
    }
  }

  lemma PreReleaseConsistent(a: string, b: string, c: string)
    ensures ComparePreRelease(a, b) == -ComparePreRelease(b, a)
    ensures Consistent(ComparePreRelease(a, b), ComparePreRelease(b, c), ComparePreRelease(a, c))
  {
    StringsConsistent(a, b, c);
  }

  lemma VersionsConsistent(a: string, b: string, c: string)
    ensures CompareVersions(a, b) == -CompareVersions(b, a)
    ensures Consistent(CompareVersions(a, b), CompareVersions(b, c), CompareVersions(a, c))
  {
    var pa, pb, pc := SplitPreRelease(a), SplitPreRelease(b), SplitPreRelease(c);
    SegmentsLaws();
    PaddedConsistent(CompareSegments, "", Split(pa.base, '.'), Split(pb.base, '.'), Split(pc.base, '.'));
    PreReleaseConsistent(pa.pre, pb.pre, pc.pre);
  }

  /** The order is a total preorder on all strings, well-formed versions or not. */
  lemma VersionsTotalPreorder()
    ensures Laws(CompareVersions)
    ensures forall a, b :: AtMost(a, b) || AtMost(b, a)
    ensures forall a, b, c :: AtMost(a, b) && AtMost(b, c) ==> AtMost(a, c)
  {
    forall a, b, c
      ensures CompareVersions(a, b) == -CompareVersions(b, a)
      ensures CompareVersions(a, b) <= 0 && CompareVersions(b, c) <= 0 ==> CompareVersions(a, c) <= 0
    {
      VersionsConsistent(a, b, c);
    }
  }

  // ---- which way the order runs ----

  /** The text of a version behind one leading "v". */
  ghost predicate IsTextOf(version: string, text: string) {
    version == ['v'] + text || (version == text && (text == "" || text[0] != 'v'))
  }

  /** What follows the first "-" of the text is the pre-release. */
  ghost predicate TextReadsAs(text: string, base: string, pre: string) {
    '-' !in base && (text == base + (['-'] + pre) || (text == base && pre == ""))
  }

  ghost predicate ReadsAs(version: string, base: string, pre: string) {
    exists text :: IsTextOf(version, text) && TextReadsAs(text, base, pre)
  }

  function DropV(version: string): string {
    if version != "" && version[0] == 'v' then version[1..] else version
  }

  lemma TextSplits(text: string, base: string, pre: string)
    requires TextReadsAs(text, base, pre)
    ensures var i := IndexOf(text, '-');
      if i >= 0 then text[..i] == base && text[i + 1..] == pre else text == base && pre == ""
  {
    IndexOfIsFirst(text, '-');
    if text == base + (['-'] + pre) {
      IndexOfPrefix(base, ['-'] + pre, '-');
    }
  }

  lemma ReadsAsSplit(version: string, base: string, pre: string)
    requires ReadsAs(version, base, pre)
    ensures SplitPreRelease(version) == Parts(base, pre)
  {
    var text :| IsTextOf(version, text) && TextReadsAs(text, base, pre);
    TextIsDropV(version, text);
    TextSplits(text, base, pre);
  }

  lemma TextIsDropV(version: string, text: string)
    ensures IsTextOf(version, text) <==> text == DropV(version)
  {
    if version == ['v'] + text {
      assert version[0] == 'v' && version[1..] == text;
    } else if version != "" && version[0] == 'v' {
      assert version == [version[0]] + version[1..];
    }
  }

  /** Every string reads in some way. */
  lemma EveryVersionReads(version: string)
    ensures ReadsAs(version, SplitPreRelease(version).base, SplitPreRelease(version).pre)
  {
    var text := DropV(version);
    TextIsDropV(version, text);
    IndexOfIsFirst(text, '-');
    var i := IndexOf(text, '-');
    if i >= 0 {
      assert text == text[..i] + ([text[i]] + text[i + 1..]);
    }
    assert TextReadsAs(text, SplitPreRelease(version).base, SplitPreRelease(version).pre);
  }

  ghost predicate IsNumber(s: string) {
    exists n :: IsIntText(s, n)
  }

  /** Numbers by value, before words; words in string order. */
  ghost predicate SegmentPrecedes(a: string, b: string) {
    || (exists m, n :: IsIntText(a, m) && IsIntText(b, n) && m < n)
    || (IsNumber(a) && !IsNumber(b))
    || (!IsNumber(a) && !IsNumber(b) && StringPrecedes(a, b))
  }

  /** The same value, or the same word. */
  ghost predicate SegmentTies(a: string, b: string) {
    || (exists n :: IsIntText(a, n) && IsIntText(b, n))
    || (!IsNumber(a) && a == b)
  }

  function Segment(segments: seq<string>, i: nat): string {
    if i < |segments| then segments[i] else ""
  }

  ghost predicate TieUpTo(a: seq<string>, b: seq<string>, n: nat) {
    forall k :: 0 <= k < n ==> SegmentTies(Segment(a, k), Segment(b, k))
  }

  /** The first segment where the two differ decides. */
  ghost predicate DottedPrecedes(a: seq<string>, b: seq<string>) {
    exists i: nat :: (i < |a| || i < |b|) && TieUpTo(a, b, i) && SegmentPrecedes(Segment(a, i), Segment(b, i))
  }

  ghost predicate DottedTies(a: seq<string>, b: seq<string>) {
    TieUpTo(a, b, |a|) && TieUpTo(a, b, |b|)
  }

  ghost predicate PreReleasePrecedes(a: string, b: string) {
    a != "" && (b == "" || StringPrecedes(a, b))
  }

  lemma SegmentOrder(a: string, b: string)
    ensures CompareSegments(a, b) < 0 <==> SegmentPrecedes(a, b)
    ensures CompareSegments(a, b) == 0 <==> SegmentTies(a, b)
  {
    forall n
      ensures Atoi(a) == Some(n) <==> IsIntText(a, n)
      ensures Atoi(b) == Some(n) <==> IsIntText(b, n)
    {
      AtoiMeans(a, n);
      AtoiMeans(b, n);
    }
    assert IsNumber(a) <==> Atoi(a).Some? by {
      if Atoi(a).Some? {
        assert IsIntText(a, Atoi(a).value);
      }
    }
    assert IsNumber(b) <==> Atoi(b).Some? by {
      if Atoi(b).Some? {
        assert IsIntText(b, Atoi(b).value);
      }
    }
    StringOrder(a, b);
    StringsConsistent(a, b, a);
  }

  /** Dropping a tied first segment moves the deciding segment one place. */
  lemma DottedShift(a: seq<string>, b: seq<string>)
    requires a != [] || b != []
    ensures DottedPrecedes(a, b) <==>
      || SegmentPrecedes(Segment(a, 0), Segment(b, 0))
      || (SegmentTies(Segment(a, 0), Segment(b, 0)) && DottedPrecedes(Tail(a), Tail(b)))
    ensures DottedTies(a, b) <==> SegmentTies(Segment(a, 0), Segment(b, 0)) && DottedTies(Tail(a), Tail(b))
  {
    var x, y := Tail(a), Tail(b);
    assert forall k: nat :: Segment(x, k) == Segment(a, k + 1) && Segment(y, k) == Segment(b, k + 1);
    forall n: nat
      ensures TieUpTo(a, b, n + 1) <==> SegmentTies(Segment(a, 0), Segment(b, 0)) && TieUpTo(x, y, n)
    {
      TieShift(a, b, n);
    }
    if i: nat :| (i < |a| || i < |b|) && TieUpTo(a, b, i) && SegmentPrecedes(Segment(a, i), Segment(b, i)) {
      if i > 0 {
        assert TieUpTo(a, b, (i - 1) + 1) && TieUpTo(x, y, i - 1);
      }
    }
    if SegmentPrecedes(Segment(a, 0), Segment(b, 0)) {
      assert TieUpTo(a, b, 0);
    }
    if j: nat :| (j < |x| || j < |y|) && TieUpTo(x, y, j) && SegmentPrecedes(Segment(x, j), Segment(y, j)) {
      if SegmentTies(Segment(a, 0), Segment(b, 0)) {
        assert TieUpTo(a, b, j + 1);
      }
    }
    TiesShift(a, b);
  }

  lemma TieShift(a: seq<string>, b: seq<string>, n: nat)
    ensures TieUpTo(a, b, n + 1) <==> SegmentTies(Segment(a, 0), Segment(b, 0)) && TieUpTo(Tail(a), Tail(b), n)
  {
    var x, y := Tail(a), Tail(b);
    assert forall k: nat :: Segment(x, k) == Segment(a, k + 1) && Segment(y, k) == Segment(b, k + 1);
    if SegmentTies(Segment(a, 0), Segment(b, 0)) && TieUpTo(x, y, n) {
      forall k | 0 <= k < n + 1
        ensures SegmentTies(Segment(a, k), Segment(b, k))
      {
        if k > 0 {
          assert SegmentTies(Segment(x, k - 1), Segment(y, k - 1));
        }
      }
    }
    if TieUpTo(a, b, n + 1) {
      forall k | 0 <= k < n
        ensures SegmentTies(Segment(x, k), Segment(y, k))
      {
        assert SegmentTies(Segment(a, k + 1), Segment(b, k + 1));
      }
    }
  }

  lemma TiesShift(a: seq<string>, b: seq<string>)
    requires a != [] || b != []
    ensures DottedTies(a, b) <==> SegmentTies(Segment(a, 0), Segment(b, 0)) && DottedTies(Tail(a), Tail(b))
  {
    var n := if |a| > |b| then |a| else |b|;
    TieShift(a, b, n - 1);
  }

  lemma {:induction false} PaddedOrder(a: seq<string>, b: seq<string>)
    ensures ComparePadded(CompareSegments, "", a, b) < 0 <==> DottedPrecedes(a, b)
    ensures ComparePadded(CompareSegments, "", a, b) == 0 <==> DottedTies(a, b)
    decreases |a| + |b|
  {
    if a != [] || b != [] {
      SegmentOrder(Head(a, ""), Head(b, ""));
      PaddedOrder(Tail(a), Tail(b));
      DottedShift(a, b);
    }
  }

  lemma PreReleaseOrder(a: string, b: string)
    ensures ComparePreRelease(a, b) < 0 <==> PreReleasePrecedes(a, b)
    ensures ComparePreRelease(a, b) == 0 <==> a == b
  {
    StringOrder(a, b);
    StringsConsistent(a, b, a);
  }

  /** The order of two versions, written out: the first differing segment decides, a missing one being
      the empty word; if none does, a pre-release comes before none, and two go by string order. */
  lemma VersionOrder(a: string, baseA: string, preA: string, b: string, baseB: string, preB: string)
    requires ReadsAs(a, baseA, preA) && ReadsAs(b, baseB, preB)
    ensures CompareVersions(a, b) < 0 <==>
      || DottedPrecedes(Split(baseA, '.'), Split(baseB, '.'))
      || (DottedTies(Split(baseA, '.'), Split(baseB, '.')) && PreReleasePrecedes(preA, preB))
    ensures Tied(a, b) <==> DottedTies(Split(baseA, '.'), Split(baseB, '.')) && preA == preB
    ensures AtMost(a, b) <==> CompareVersions(a, b) < 0 || Tied(a, b)
  {
    ReadsAsSplit(a, baseA, preA);
    ReadsAsSplit(b, baseB, preB);
    PaddedOrder(Split(baseA, '.'), Split(baseB, '.'));
    PreReleaseOrder(preA, preB);
  }
}
