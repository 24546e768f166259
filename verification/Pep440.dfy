/** The PEP 440 comparator (ecosystems/pypi/version.go). The source classifies each version into a
    phase and branches on it; PEP 440, section "Summary of permitted suffixes and relative
    ordering", orders versions by one lexicographic key. Where the two agree, and on what kinds of
    versions they do not, is stated below. */
module Pep440 {
  import opened Order
  import opened Text

  /** `postNum` and `devNum` are -1 when absent, `preKind` and `local` are empty. */
  datatype Version = Version(
    epoch: int,
    release: seq<int>,
    preKind: string,
    preNum: int,
    postNum: int,
    devNum: int,
    local: string)

  // ---- the comparator of the source ----

  const PHASE_DEV_ONLY := 0
  const PHASE_PRE := 1
  const PHASE_FINAL := 2
  const PHASE_POST := 3

  function ClassifyPhase(v: Version): int {
    if v.preKind != "" then PHASE_PRE
    else if v.postNum >= 0 then PHASE_POST
    else if v.devNum >= 0 then PHASE_DEV_ONLY
    else PHASE_FINAL
  }

  function PreKindRank(kind: string): int {
    if kind == "a" then 0 else if kind == "b" then 1 else if kind == "rc" then 2 else 99
  }

  const NO_DEV: int := 0x3fff_ffff

  /** The absent development number sorts after every present one below the sentinel. */
  function DevForOrder(n: int): int {
    if n < 0 then NO_DEV else n
  }

  function StripTrailingZeros(release: seq<int>): seq<int> {
    if |release| > 1 && release[|release| - 1] == 0 then StripTrailingZeros(release[..|release| - 1]) else release
  }

  function CompareRelease(a: seq<int>, b: seq<int>): int {
    ComparePadded(CompareInts, 0, StripTrailingZeros(a), StripTrailingZeros(b))
  }

  predicate IsLocalSeparator(c: char) {
    c == '.' || c == '-' || c == '_'
  }

  function SplitLocal(s: string): (parts: seq<string>)
    ensures |parts| >= 1
  {
    if s == "" then [""]
    else
      var rest := SplitLocal(s[1..]);
      if IsLocalSeparator(s[0]) then [""] + rest else [[s[0]] + rest[0]] + rest[1..]
  }

  function CompareLocalSegments(a: string, b: string): int {
    if AllDigits(a) && AllDigits(b) then CompareInts(Clamped(a), Clamped(b))
    else if AllDigits(a) then 1
    else if AllDigits(b) then -1
    else CompareStrings(a, b)
  }

  function CompareLocal(a: string, b: string): int {
    if a == "" && b == "" then 0
    else if a == "" then -1
    else if b == "" then 1
    else CompareRuns(CompareLocalSegments, SplitLocal(a), SplitLocal(b))
  }

  /** `cmpVersion`, branch by branch. */
  function CmpVersion(a: Version, b: Version): int {
    if CompareInts(a.epoch, b.epoch) != 0 then CompareInts(a.epoch, b.epoch)
    else if CompareRelease(a.release, b.release) != 0 then CompareRelease(a.release, b.release)
    else
      var pa, pb := ClassifyPhase(a), ClassifyPhase(b);
      if pa != pb then CompareInts(pa, pb)
      else
        var fields :=
          if pa == PHASE_DEV_ONLY then CompareInts(a.devNum, b.devNum)
          else if pa == PHASE_PRE then
            Then(CompareInts(PreKindRank(a.preKind), PreKindRank(b.preKind)),
              Then(CompareInts(a.preNum, b.preNum), CompareInts(DevForOrder(a.devNum), DevForOrder(b.devNum))))
          else if pa == PHASE_POST then
            Then(CompareInts(a.postNum, b.postNum), CompareInts(DevForOrder(a.devNum), DevForOrder(b.devNum)))
          else 0;
        Then(fields, CompareLocal(a.local, b.local))
  }

  /** `comparePEP440`, for whatever parser: strings that do not parse come first, in string order. */
  function Compare(parse: string -> Option<Version>, a: string, b: string): int {
    match (parse(a), parse(b))
    case (None, None) => CompareStrings(a, b)
    case (None, Some(_)) => -1
    case (Some(_), None) => 1
    case (Some(va), Some(vb)) => CmpVersion(va, vb)
  }

  // ---- its loops ----

  method StripZeros(seg: seq<int>) returns (r: seq<int>)
    ensures r == StripTrailingZeros(seg)
  {
    var end := |seg|;
    assert seg[..|seg|] == seg;
    while end > 1 && seg[end - 1] == 0
      invariant 0 <= end <= |seg|
      invariant StripTrailingZeros(seg[..end]) == StripTrailingZeros(seg)
    {
      assert seg[..end][..end - 1] == seg[..end - 1];
      end := end - 1;
    }
    r := seg[..end];
  }

  method CmpRelease(a: seq<int>, b: seq<int>) returns (c: int)
    ensures c == CompareRelease(a, b)
  {
    var sa := StripZeros(a);
    var sb := StripZeros(b);
    var n := |sa|;
    if |sb| > n {
      n := |sb|;
    }
    assert From(sa, 0) == sa && From(sb, 0) == sb;
    for i := 0 to n
      invariant ComparePadded(CompareInts, 0, From(sa, i), From(sb, i)) == ComparePadded(CompareInts, 0, sa, sb)
    {
      var av, bv := 0, 0;
      if i < |sa| {
        av := sa[i];
      }
      if i < |sb| {
        bv := sb[i];
      }
      assert Tail(From(sa, i)) == From(sa, i + 1) && Tail(From(sb, i)) == From(sb, i + 1);
      var d := CompareInts(av, bv);
      if d != 0 {
        return d;
      }
    }
    return 0;
  }

  lemma SliceAt(s: string, start: nat, i: nat)
    requires start <= i < |s|
    ensures s[start..] == s[start..i] + ([s[i]] + s[i + 1..])
  {
  }

  /** A separator at `i` closes the part that began at `start`. */
  lemma SplitLocalNext(s: string, start: nat, i: nat)
    requires start <= i < |s| && IsLocalSeparator(s[i]) && forall c :: c in s[start..i] ==> !IsLocalSeparator(c)
    ensures SplitLocal(s[start..]) == [s[start..i]] + SplitLocal(s[i + 1..])
  {
    var front, mark, rest := s[start..i], s[i], s[i + 1..];
    SliceAt(s, start, i);
    SplitLocalAt(front, mark, rest);
  }

  lemma Snoc<T>(a: seq<T>, x: T, b: seq<T>)
    ensures a + ([x] + b) == (a + [x]) + b
  {
  }

  method SplitLocalLabel(s: string) returns (out: seq<string>)
    ensures out == SplitLocal(s)
  {
    out := [];
    var start := 0;
    for i := 0 to |s|
      invariant 0 <= start <= i
      invariant forall c :: c in s[start..i] ==> !IsLocalSeparator(c)
      invariant SplitLocal(s) == out + SplitLocal(s[start..])
    {
      assert s[start..i + 1] == s[start..i] + [s[i]];
      if s[i] == '.' || s[i] == '-' || s[i] == '_' {
        SplitLocalNext(s, start, i);
        Snoc(out, s[start..i], SplitLocal(s[i + 1..]));
        out := out + [s[start..i]];
        start := i + 1;
      }
    }
    SplitLocalAlone(s[start..]);
    out := out + [s[start..]];
  }

  lemma {:induction false} SplitLocalAlone(s: string)
    requires forall c :: c in s ==> !IsLocalSeparator(c)
    ensures SplitLocal(s) == [s]
  {
    if s != "" {
      assert s[0] in s && forall c :: c in s[1..] ==> c in s;
      SplitLocalAlone(s[1..]);
      assert s == [s[0]] + s[1..];
    }
  }

  lemma {:induction false} SplitLocalAt(front: string, mark: char, rest: string)
    requires IsLocalSeparator(mark) && forall c :: c in front ==> !IsLocalSeparator(c)
    ensures SplitLocal(front + ([mark] + rest)) == [front] + SplitLocal(rest)
  {
    var s := front + ([mark] + rest);
    if front == "" {
      assert s == [mark] + rest && s[1..] == rest;
    } else {
      assert front[0] in front && forall c :: c in front[1..] ==> c in front;
      assert s[1..] == front[1..] + ([mark] + rest);
      SplitLocalAt(front[1..], mark, rest);
      assert front == [front[0]] + front[1..];
    }
  }

  method CmpLocal(a: string, b: string) returns (c: int)
    ensures c == CompareRuns(CompareLocalSegments, SplitLocal(a), SplitLocal(b))
  {
    var sa := SplitLocalLabel(a);
    var sb := SplitLocalLabel(b);
    var n := |sa|;
    if |sb| > n {
      n := |sb|;
    }
    for i := 0 to n
      invariant i <= |sa| && i <= |sb|
      invariant CompareRuns(CompareLocalSegments, sa[i..], sb[i..]) == CompareRuns(CompareLocalSegments, sa, sb)
    {
      if i >= |sa| {
        return -1;
      }
      if i >= |sb| {
        return 1;
      }
      assert sa[i..][1..] == sa[i + 1..] && sb[i..][1..] == sb[i + 1..];
      var aIsNum, bIsNum := AllDigits(sa[i]), AllDigits(sb[i]);
      if aIsNum && bIsNum {
        var d := CompareInts(Clamped(sa[i]), Clamped(sb[i]));
        if d != 0 {
          return d;
        }
      } else if aIsNum {
        return 1;
      } else if bIsNum {
        return -1;
      } else {
        var d := CompareStrings(sa[i], sb[i]);
        if d != 0 {
          return d;
        }
      }
    }
    return 0;
  }

  // ---- a total preorder ----

  /** The phase and the fields it looks at, as one run of numbers. */
  function PhaseKey(v: Version): seq<int> {
    var p := ClassifyPhase(v);
    if p == PHASE_DEV_ONLY then [p, v.devNum]
    else if p == PHASE_PRE then [p, PreKindRank(v.preKind), v.preNum, DevForOrder(v.devNum)]
    else if p == PHASE_POST then [p, v.postNum, DevForOrder(v.devNum)]
    else [p]
  }

  lemma CmpVersionByKey(a: Version, b: Version)
    ensures CmpVersion(a, b) ==
      Then(CompareInts(a.epoch, b.epoch), Then(CompareRelease(a.release, b.release),
        Then(CompareRuns(CompareInts, PhaseKey(a), PhaseKey(b)), CompareLocal(a.local, b.local))))
  {
    var ka, kb := PhaseKey(a), PhaseKey(b);
    RunsUpTo4(ka, kb);
  }

  /** The run comparison of up to four numbers, written out. */
  lemma RunsUpTo4(a: seq<int>, b: seq<int>)
    requires 1 <= |a| <= 4 && 1 <= |b| <= 4
    ensures CompareRuns(CompareInts, a, b) ==
      Then(CompareInts(a[0], b[0]), CompareRuns(CompareInts, a[1..], b[1..]))
    ensures |a| == |b| >= 2 ==>
      CompareRuns(CompareInts, a[1..], b[1..]) ==
        Then(CompareInts(a[1], b[1]), CompareRuns(CompareInts, a[2..], b[2..]))
    ensures |a| == |b| >= 3 ==>
      CompareRuns(CompareInts, a[2..], b[2..]) ==
        Then(CompareInts(a[2], b[2]), CompareRuns(CompareInts, a[3..], b[3..]))
    ensures |a| == |b| == 4 ==> CompareRuns(CompareInts, a[3..], b[3..]) == CompareInts(a[3], b[3])
    ensures |a| == |b| ==> CompareRuns(CompareInts, a[|a|..], b[|a|..]) == 0
  {
    if |a| == |b| >= 2 {
      assert a[1..][1..] == a[2..] && b[1..][1..] == b[2..];
    }
    if |a| == |b| >= 3 {
      assert a[2..][1..] == a[3..] && b[2..][1..] == b[3..];
    }
    if |a| == |b| == 4 {
      assert a[3..][1..] == [] && b[3..][1..] == [];
    }
  }

  lemma LocalSegmentsLaws()
    ensures Laws(CompareLocalSegments)
  {
    forall a: string, b: string, c: string
      ensures CompareLocalSegments(a, b) == -CompareLocalSegments(b, a)
      ensures CompareLocalSegments(a, b) <= 0 && CompareLocalSegments(b, c) <= 0 ==> CompareLocalSegments(a, c) <= 0
    {
      StringsConsistent(a, b, c);
    }
  }

  lemma LocalConsistent(a: string, b: string, c: string)
    ensures CompareLocal(a, b) == -CompareLocal(b, a)
    ensures Consistent(CompareLocal(a, b), CompareLocal(b, c), CompareLocal(a, c))
  {
    LocalSegmentsLaws();
    RunsConsistent(CompareLocalSegments, SplitLocal(a), SplitLocal(b), SplitLocal(c));
  }

  lemma CmpVersionConsistent(a: Version, b: Version, c: Version)
    ensures CmpVersion(a, b) == -CmpVersion(b, a)
    ensures Consistent(CmpVersion(a, b), CmpVersion(b, c), CmpVersion(a, c))
  {
    CmpVersionByKey(a, b);
    CmpVersionByKey(b, a);
    CmpVersionByKey(b, c);
    CmpVersionByKey(a, c);
    PaddedConsistent(CompareInts, 0, StripTrailingZeros(a.release), StripTrailingZeros(b.release),
      StripTrailingZeros(c.release));
    RunsConsistent(CompareInts, PhaseKey(a), PhaseKey(b), PhaseKey(c));
    LocalConsistent(a.local, b.local, c.local);
  }

  /** The branching comparator is a total preorder on all records, whatever their fields hold. */
  lemma CmpVersionTotalPreorder()
    ensures Laws(CmpVersion)
  {
    forall a: Version, b: Version, c: Version
      ensures CmpVersion(a, b) == -CmpVersion(b, a)
      ensures CmpVersion(a, b) <= 0 && CmpVersion(b, c) <= 0 ==> CmpVersion(a, c) <= 0
    {
      CmpVersionConsistent(a, b, c);
    }
  }

  /** So is the string comparator, with any parser. */
  lemma CompareTotalPreorder(parse: string -> Option<Version>)
    ensures Laws((a: string, b: string) => Compare(parse, a, b))
  {
    forall a: string, b: string, c: string
      ensures Compare(parse, a, b) == -Compare(parse, b, a)
      ensures Compare(parse, a, b) <= 0 && Compare(parse, b, c) <= 0 ==> Compare(parse, a, c) <= 0
    {
      StringsConsistent(a, b, c);
      if parse(a).Some? && parse(b).Some? {
        CmpVersionConsistent(parse(a).value, parse(b).value, if parse(c).Some? then parse(c).value else parse(a).value);
      }
    }
  }

  // ---- the key of PEP 440 ----

  /** A key component: below everything, a value, or above everything. */
  datatype Bound<+T> = Lowest | Value(v: T) | Highest

  function CompareBounds<T>(compare: (T, T) -> int, a: Bound<T>, b: Bound<T>): int {
    match (a, b)
    case (Value(m), Value(n)) => compare(m, n)
    case _ => CompareInts(BoundRank(a), BoundRank(b))
  }

  function BoundRank<T>(b: Bound<T>): int {
    match b
    case Lowest => 0
    case Value(_) => 1
    case Highest => 2
  }

  datatype Pre = Pre(kind: string, num: int)

  /** Kinds compare as words: "a", then "b", then "rc". */
  function PreOrder(a: Pre, b: Pre): int {
    Then(CompareStrings(a.kind, b.kind), CompareInts(a.num, b.num))
  }

  /** A development release of the final release sorts before its pre-releases; otherwise the lack
      of a pre-release sorts after them. */
  function PreKey(v: Version): Bound<Pre> {
    if v.preKind == "" && v.postNum < 0 && v.devNum >= 0 then Lowest
    else if v.preKind == "" then Highest
    else Value(Pre(v.preKind, v.preNum))
  }

  function PostKey(v: Version): Bound<int> {
    if v.postNum < 0 then Lowest else Value(v.postNum)
  }

  function DevKey(v: Version): Bound<int> {
    if v.devNum < 0 then Highest else Value(v.devNum)
  }

  /** Release numbers with every trailing zero dropped, compared as tuples. */
  function DropZeros(release: seq<int>): seq<int> {
    if release != [] && release[|release| - 1] == 0 then DropZeros(release[..|release| - 1]) else release
  }

  function ReleaseOrder(a: seq<int>, b: seq<int>): int {
    CompareRuns(CompareInts, DropZeros(a), DropZeros(b))
  }

  /** Local segments by value, numbers above words. */
  function LocalSegmentOrder(a: string, b: string): int {
    if AllDigits(a) && AllDigits(b) then CompareInts(DigitsValue(a), DigitsValue(b))
    else if AllDigits(a) then 1
    else if AllDigits(b) then -1
    else CompareStrings(a, b)
  }

  function LocalOrder(a: string, b: string): int {
    if a == "" || b == "" then CompareInts(if a == "" then 0 else 1, if b == "" then 0 else 1)
    else CompareRuns(LocalSegmentOrder, SplitLocal(a), SplitLocal(b))
  }

  function ComparePreKeys(a: Version, b: Version): int {
    CompareBounds(PreOrder, PreKey(a), PreKey(b))
  }

  function DevOrder(a: Version, b: Version): int {
    CompareBounds(CompareInts, DevKey(a), DevKey(b))
  }

  /** PEP 440 order: epoch, release, pre, post, dev, local, in this order. */
  function PepOrder(a: Version, b: Version): int {
    Then(CompareInts(a.epoch, b.epoch), Then(ReleaseOrder(a.release, b.release),
      Then(ComparePreKeys(a, b), Then(CompareBounds(CompareInts, PostKey(a), PostKey(b)),
        Then(DevOrder(a, b), LocalOrder(a.local, b.local))))))
  }

  /** What parsing yields. */
  predicate Parsed(v: Version) {
    && v.release != [] && (forall n :: n in v.release ==> n >= 0)
    && (v.preKind == "" || v.preKind == "a" || v.preKind == "b" || v.preKind == "rc")
    && v.preNum >= 0 && v.postNum >= -1 && v.devNum >= -1
  }

  // release numbers

  lemma {:induction false} PadTail(b: seq<int>)
    requires forall n :: n in b ==> n >= 0
    requires b != [] ==> b[|b| - 1] != 0
    ensures ComparePadded(CompareInts, 0, [], b) == if b == [] then 0 else -1
    ensures ComparePadded(CompareInts, 0, b, []) == if b == [] then 0 else 1
  {
    if b != [] {
      assert b[0] in b;
      assert forall n :: n in b[1..] ==> n in b;
      PadTail(b[1..]);
    }
  }

  lemma {:induction false} PaddedIsTuple(a: seq<int>, b: seq<int>)
    requires forall n :: n in a || n in b ==> n >= 0
    requires (a != [] ==> a[|a| - 1] != 0) && (b != [] ==> b[|b| - 1] != 0)
    ensures ComparePadded(CompareInts, 0, a, b) == CompareRuns(CompareInts, a, b)
  {
    if a == [] || b == [] {
      PadTail(a);
      PadTail(b);
    } else {
      assert (forall n :: n in a[1..] ==> n in a) && (forall n :: n in b[1..] ==> n in b);
      PaddedIsTuple(a[1..], b[1..]);
    }
  }

  lemma {:induction false} StripIsDrop(a: seq<int>)
    requires a != []
    ensures var s, d := StripTrailingZeros(a), DropZeros(a);
      (s == d || (s == [0] && d == [])) && (d != [] ==> d[|d| - 1] != 0) && (forall n :: n in d ==> n in a)
  {
    if |a| > 1 && a[|a| - 1] == 0 {
      StripIsDrop(a[..|a| - 1]);
    } else if |a| == 1 && a[0] == 0 {
      assert a == [0] && a[..0] == [];
    }
  }

  lemma ZeroIsNothing(b: seq<int>)
    ensures ComparePadded(CompareInts, 0, [0], b) == ComparePadded(CompareInts, 0, [], b)
    ensures ComparePadded(CompareInts, 0, b, [0]) == ComparePadded(CompareInts, 0, b, [])
  {
    assert Tail([0]) == [];
  }

  lemma ReleasesAgree(a: seq<int>, b: seq<int>)
    requires a != [] && b != [] && forall n :: n in a || n in b ==> n >= 0
    ensures CompareRelease(a, b) == ReleaseOrder(a, b)
  {
    StripIsDrop(a);
    StripIsDrop(b);
    ZeroIsNothing(StripTrailingZeros(b));
    ZeroIsNothing(StripTrailingZeros(a));
    ZeroIsNothing([]);
    PaddedIsTuple(DropZeros(a), DropZeros(b));
  }

  // local labels

  /** Numbers of different value that both reach the largest int. */
  predicate HiddenLocal(a: string, b: string) {
    AllDigits(a) && AllDigits(b) && DigitsValue(a) != DigitsValue(b) && DigitsValue(a) >= MAX_INT
      && DigitsValue(b) >= MAX_INT
  }

  /** The labels are first told apart at `i`, by two numbers the comparator takes for equal. */
  ghost predicate HiddenLocalAt(a: seq<string>, b: seq<string>, i: nat) {
    && i < |a| && i < |b| && HiddenLocal(a[i], b[i])
    && forall k :: 0 <= k < i ==> LocalSegmentOrder(a[k], b[k]) == 0
  }

  /** What follows position `i` happens to compare as the numbers there do. */
  ghost predicate LocalRestDecides(a: seq<string>, b: seq<string>, i: nat)
    requires HiddenLocalAt(a, b, i)
  {
    CompareRuns(CompareLocalSegments, a[i + 1..], b[i + 1..]) == LocalSegmentOrder(a[i], b[i])
  }

  ghost predicate LaterLocalsDecide(a: seq<string>, b: seq<string>) {
    forall i: nat :: HiddenLocalAt(a, b, i) ==> LocalRestDecides(a, b, i)
  }

  ghost predicate LocalRunsAgree(a: seq<string>, b: seq<string>) {
    CompareRuns(CompareLocalSegments, a, b) == CompareRuns(LocalSegmentOrder, a, b)
  }

  lemma SegmentsAgree(a: string, b: string)
    ensures CompareLocalSegments(a, b) == if HiddenLocal(a, b) then 0 else LocalSegmentOrder(a, b)
    ensures HiddenLocal(a, b) ==> LocalSegmentOrder(a, b) != 0
  {
  }

  /** Segments of one order in front do not matter to where the labels are told apart. */
  lemma ShiftHiddenLocal(a: seq<string>, b: seq<string>)
    requires a != [] && b != [] && LocalSegmentOrder(a[0], b[0]) == 0
    ensures LaterLocalsDecide(a, b) <==> LaterLocalsDecide(a[1..], b[1..])
  {
    forall i: nat
      ensures HiddenLocalAt(a[1..], b[1..], i) <==> HiddenLocalAt(a, b, i + 1)
      ensures HiddenLocalAt(a, b, i + 1) ==> (LocalRestDecides(a[1..], b[1..], i) <==> LocalRestDecides(a, b, i + 1))
    {
      assert HiddenLocalAt(a[1..], b[1..], i) ==> forall k :: 0 < k < i + 1 ==>
        a[k] == a[1..][k - 1] && b[k] == b[1..][k - 1];
      if i + 1 < |a| && i + 1 < |b| {
        assert a[1..][i + 1..] == a[i + 2..] && b[1..][i + 1..] == b[i + 2..];
      }
    }
    SegmentsAgree(a[0], b[0]);
    if LaterLocalsDecide(a[1..], b[1..]) {
      forall i: nat | HiddenLocalAt(a, b, i)
        ensures LocalRestDecides(a, b, i)
      {
        assert i > 0 && HiddenLocalAt(a[1..], b[1..], i - 1);
      }
    }
  }

  lemma {:induction false} LocalRunsAgreeIff(a: seq<string>, b: seq<string>)
    ensures LocalRunsAgree(a, b) <==> LaterLocalsDecide(a, b)
  {
    if a != [] && b != [] {
      SegmentsAgree(a[0], b[0]);
      if LocalSegmentOrder(a[0], b[0]) == 0 {
        LocalRunsAgreeIff(a[1..], b[1..]);
        ShiftHiddenLocal(a, b);
      } else {
        assert forall i: nat :: HiddenLocalAt(a, b, i) ==> i == 0;
        assert HiddenLocalAt(a, b, 0) <==> HiddenLocal(a[0], b[0]);
      }
    }
  }

  predicate LocalsAgree(a: Version, b: Version) {
    CompareLocal(a.local, b.local) == LocalOrder(a.local, b.local)
  }

  /** Local labels compare by value unless they are first told apart by two numbers that both reach
      the largest int; then, exactly when the later segments happen to agree. */
  lemma LocalsAgreeIff(a: Version, b: Version)
    ensures LocalsAgree(a, b) <==>
      (a.local != "" && b.local != "" ==> LaterLocalsDecide(SplitLocal(a.local), SplitLocal(b.local)))
  {
    LocalRunsAgreeIff(SplitLocal(a.local), SplitLocal(b.local));
  }

  // suffixes

  /** The ranks order the kinds as the words do. */
  lemma KindsByName(a: Version, b: Version)
    requires Parsed(a) && Parsed(b) && a.preKind != "" && b.preKind != ""
    ensures CompareInts(PreKindRank(a.preKind), PreKindRank(b.preKind)) == CompareStrings(a.preKind, b.preKind)
    ensures CompareStrings(a.preKind, b.preKind) == 0 <==> a.preKind == b.preKind
  {
    StringsConsistent(a.preKind, b.preKind, a.preKind);
  }

  /** Nothing tells the versions apart up to and including a pre segment. */
  predicate SamePre(a: Version, b: Version) {
    && a.epoch == b.epoch && ReleaseOrder(a.release, b.release) == 0
    && a.preKind != "" && a.preKind == b.preKind && a.preNum == b.preNum
  }

  /** Nothing tells the versions apart up to and including a post segment, and there is no pre segment. */
  predicate SamePost(a: Version, b: Version) {
    && a.epoch == b.epoch && ReleaseOrder(a.release, b.release) == 0
    && a.preKind == "" && b.preKind == "" && a.postNum == b.postNum >= 0
  }

  /** Versions without pre and post segments that only a local label can tell apart. */
  predicate SameFinal(a: Version, b: Version) {
    && a.epoch == b.epoch && ReleaseOrder(a.release, b.release) == 0
    && a.preKind == "" && b.preKind == "" && a.postNum < 0 && b.postNum < 0 && a.devNum == b.devNum
  }

  /** One development number reaches the sentinel and the other is absent. */
  predicate HugeDev(a: Version, b: Version) {
    (a.devNum >= NO_DEV && b.devNum < 0) || (a.devNum < 0 && b.devNum >= NO_DEV)
  }

  function CompareDev(a: Version, b: Version): int {
    CompareInts(DevForOrder(a.devNum), DevForOrder(b.devNum))
  }

  lemma DevsAgree(a: Version, b: Version)
    requires Parsed(a) && Parsed(b) && !HugeDev(a, b)
    ensures CompareDev(a, b) == DevOrder(a, b) && (DevOrder(a, b) == 0 <==> a.devNum == b.devNum)
  {
  }

  /** The suffix part of the two orders, by what tells the versions apart. */
  lemma SuffixOrders(a: Version, b: Version)
    requires Parsed(a) && Parsed(b)
    ensures var phases := CompareRuns(CompareInts, PhaseKey(a), PhaseKey(b));
      var pre, post := ComparePreKeys(a, b), CompareBounds(CompareInts, PostKey(a), PostKey(b));
      if a.preKind != "" && a.preKind == b.preKind && a.preNum == b.preNum then
        phases == CompareDev(a, b) && pre == 0 && post == CompareInts(a.postNum, b.postNum)
      else if a.preKind == "" && b.preKind == "" && a.postNum >= 0 && b.postNum >= 0 then
        pre == 0 && post == CompareInts(a.postNum, b.postNum) && phases == Then(post, CompareDev(a, b))
      else if a.preKind == "" && b.preKind == "" && a.postNum < 0 && b.postNum < 0 && a.devNum == b.devNum then
        phases == 0 && pre == 0 && post == 0 && DevOrder(a, b) == 0
      else phases != 0 && phases == Then(pre, Then(post, DevOrder(a, b)))
  {
    RunsUpTo4(PhaseKey(a), PhaseKey(b));
    if a.preKind != "" && b.preKind != "" {
      KindsByName(a, b);
    }
  }

  /** The branching comparator is PEP 440 order on every pair of parsed versions, except that behind
      an equal pre or post segment it ignores post numbers of pre-releases and misplaces huge
      development numbers, and that labels may hold huge numbers. Where it does, it is PEP 440 order
      exactly when the segments it looks at happen to say what the whole key says. */
  lemma FollowsPep440(a: Version, b: Version)
    requires Parsed(a) && Parsed(b)
    ensures CmpVersion(a, b) == PepOrder(a, b) <==>
      && (SamePre(a, b) || SamePost(a, b) ==>
           || (a.postNum == b.postNum && !HugeDev(a, b) && (a.devNum == b.devNum ==> LocalsAgree(a, b)))
           || Then(CompareDev(a, b), CompareLocal(a.local, b.local))
              == Then(CompareInts(a.postNum, b.postNum), Then(DevOrder(a, b), LocalOrder(a.local, b.local))))
      && (SameFinal(a, b) ==> LocalsAgree(a, b))
  {
    CmpVersionByKey(a, b);
    ReleasesAgree(a.release, b.release);
    SuffixOrders(a, b);
    if !HugeDev(a, b) {
      DevsAgree(a, b);
    }
  }

  // ---- the two ways to differ ----

  lemma BoundSelf(v: Version)
    ensures ComparePreKeys(v, v) == 0 && CompareBounds(CompareInts, PostKey(v), PostKey(v)) == 0
    ensures DevOrder(v, v) == 0 && LocalOrder(v.local, v.local) == 0
    ensures ReleaseOrder(v.release, v.release) == 0 && CmpVersion(v, v) == 0
  {
    CmpVersionConsistent(v, v, v);
    RunsConsistent(CompareInts, DropZeros(v.release), DropZeros(v.release), []);
    StringsConsistent(v.preKind, v.preKind, v.preKind);
    LocalSelf(v.local);
  }

  lemma LocalSelf(local: string)
    ensures LocalOrder(local, local) == 0
  {
    RunSelf(SplitLocal(local));
  }

  lemma {:induction false} RunSelf(s: seq<string>)
    ensures CompareRuns(LocalSegmentOrder, s, s) == 0
  {
    if s != [] {
      StringsConsistent(s[0], s[0], s[0]);
      RunSelf(s[1..]);
    }
  }

  /** On a pre-release the post number is ignored: two versions that differ only there compare as
      PEP 440 orders them exactly when they do not differ at all. */
  lemma PostOfPreIgnored(v: Version, m: int, n: int)
    requires Parsed(v) && v.preKind != "" && m >= -1 && n >= -1
    ensures CmpVersion(v.(postNum := m), v.(postNum := n)) == PepOrder(v.(postNum := m), v.(postNum := n)) <==> m == n
  {
    var a, b := v.(postNum := m), v.(postNum := n);
    BoundSelf(v);
    BoundSelf(a);
    assert PhaseKey(a) == PhaseKey(b);
    CmpVersionByKey(a, b);
    CmpVersionByKey(a, a);
  }

  /** A development release sorts before its release, as PEP 440 wants, exactly when its number is
      below 2^30 - 1, the sentinel that stands for "no development number". */
  lemma DevBelowSentinel(v: Version, n: nat)
    requires Parsed(v) && v.devNum == -1 && (v.preKind != "" || v.postNum >= 0)
    ensures PepOrder(v.(devNum := n), v) == -1
    ensures CmpVersion(v.(devNum := n), v) == -1 <==> n < 0x3fff_ffff
  {
    var a := v.(devNum := n);
    BoundSelf(v);
    assert PreKey(a) == PreKey(v) && PostKey(a) == PostKey(v);
    CmpVersionByKey(v, v);
    CmpVersionByKey(a, v);
    RunsUpTo4(PhaseKey(a), PhaseKey(v));
  }
}
