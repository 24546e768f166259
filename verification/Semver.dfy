/** Strict semantic versions (ecosystems/internal/semver/semver.go): a canonical parser and the
    comparator of section 11 of Semantic Versioning 2.0.0. */
module Semver {
  import opened Order
  import opened Text

  datatype Version = Version(major: nat, minor: nat, patch: nat, pre: seq<string>, build: seq<string>)

  // ---- parsing ----

  predicate IsIdentChar(c: char) {
    '0' <= c <= '9' || 'a' <= c <= 'z' || 'A' <= c <= 'Z' || c == '-'
  }

  predicate IsIdent(s: string) {
    s != "" && forall c :: c in s ==> IsIdentChar(c)
  }

  predicate IsNumeric(s: string) {
    s != "" && AllDigits(s)
  }

  /** `splitIdents`. */
  method SplitIdents(s: string) returns (parts: Option<seq<string>>)
    ensures parts == if forall p :: p in Split(s, '.') ==> IsIdent(p) then Some(Split(s, '.')) else None
  {
    var all := Split(s, '.');
    for i := 0 to |all|
      invariant forall p :: p in all[..i] ==> IsIdent(p)
    {
      var p := all[i];
      assert all[..i + 1] == all[..i] + [p] && p in all;
      if p == "" {
        return None;
      }
      for j := 0 to |p|
        invariant forall c :: c in p[..j] ==> IsIdentChar(c)
      {
        assert p[..j + 1] == p[..j] + [p[j]] && p[j] in p;
        if !IsIdentChar(p[j]) {
          return None;
        }
      }
      assert p[..|p|] == p;
    }
    assert all[..|all|] == all;
    parts := Some(all);
  }

  /** A dotted run of identifiers. */
  function Idents(s: string): Option<seq<string>> {
    var parts := Split(s, '.');
    if forall p :: p in parts ==> IsIdent(p) then Some(parts) else None
  }

  /** No superfluous leading zero in a numeric identifier. */
  predicate IsPreIdent(s: string) {
    IsIdent(s) && (IsNumeric(s) ==> IsDecimal(s))
  }

  /** One of the three main numbers. */
  function MainNumber(p: string): Option<nat> {
    if p == "" || (|p| > 1 && p[0] == '0') then None
    else
      match Atoi(p)
      case Some(n) => if n >= 0 then Some(n) else None
      case None => None
  }

  function Main(s: string, pre: seq<string>, build: seq<string>): Option<Version> {
    var parts := Split(s, '.');
    if |parts| != 3 then None
    else
      match (MainNumber(parts[0]), MainNumber(parts[1]), MainNumber(parts[2]))
      case (Some(major), Some(minor), Some(patch)) => Some(Version(major, minor, patch, pre, build))
      case _ => None
  }

  /** The text after the first `mark`, if there is one, as identifiers. */
  datatype Cut = NoMark | BadSuffix | Suffix(front: string, idents: seq<string>)

  function CutIdents(s: string, mark: char): Cut {
    var i := IndexOf(s, mark);
    if i < 0 then NoMark
    else if s[i + 1..] == "" then BadSuffix
    else
      match Idents(s[i + 1..])
      case None => BadSuffix
      case Some(idents) => Suffix(s[..i], idents)
  }

  function ParseRelease(s: string, build: seq<string>): Option<Version> {
    match CutIdents(s, '-')
    case NoMark => Main(s, [], build)
    case BadSuffix => None
    case Suffix(front, pre) => if forall p :: p in pre ==> IsPreIdent(p) then Main(front, pre, build) else None
  }

  /** `parse`. */
  function Parse(s: string): Option<Version> {
    if s == "" then None
    else
      match CutIdents(s, '+')
      case NoMark => ParseRelease(s, [])
      case BadSuffix => None
      case Suffix(front, build) => ParseRelease(front, build)
  }

  /** The statements of `parse`. `Atoi` accepts a sign, but no sign can reach it: both signs have
      been cut off by then. */
  method ParseVersion(input: string) returns (v: Option<Version>)
    ensures v == Parse(input)
  {
    if input == "" {
      return None;
    }
    var s := input;
    var build: seq<string> := [];
    var i := IndexOf(s, '+');
    if i >= 0 {
      var buildStr := s[i + 1..];
      s := s[..i];
      if buildStr == "" {
        return None;
      }
      var ids := SplitIdents(buildStr);
      if ids.None? {
        return None;
      }
      build := ids.value;
    }
    v := ParseMain(s, build);
  }

  method ParseMain(input: string, build: seq<string>) returns (v: Option<Version>)
    ensures v == ParseRelease(input, build)
  {
    var s := input;
    var pre: seq<string> := [];
    var i := IndexOf(s, '-');
    if i >= 0 {
      var preStr := s[i + 1..];
      s := s[..i];
      if preStr == "" {
        return None;
      }
      var ids := SplitIdents(preStr);
      if ids.None? {
        return None;
      }
      for k := 0 to |ids.value|
        invariant forall p :: p in ids.value[..k] ==> IsPreIdent(p)
      {
        var id := ids.value[k];
        assert ids.value[..k + 1] == ids.value[..k] + [id] && id in ids.value;
        if IsNumeric(id) && |id| > 1 && id[0] == '0' {
          return None;
        }
      }
      assert ids.value[..|ids.value|] == ids.value;
      pre := ids.value;
    }
    v := ReadMain(s, pre, build);
  }

  /** The loop over the three main segments. */
  method ReadMain(s: string, pre: seq<string>, build: seq<string>) returns (v: Option<Version>)
    ensures v == Main(s, pre, build)
  {
    var parts := Split(s, '.');
    if |parts| != 3 {
      return None;
    }
    var major, minor, patch := 0, 0, 0;
    for i := 0 to 3
      invariant major >= 0 && minor >= 0 && patch >= 0
      invariant i > 0 ==> MainNumber(parts[0]) == Some(major)
      invariant i > 1 ==> MainNumber(parts[1]) == Some(minor)
      invariant i > 2 ==> MainNumber(parts[2]) == Some(patch)
    {
      var p := parts[i];
      if p == "" {
        return None;
      }
      if |p| > 1 && p[0] == '0' {
        return None;
      }
      var n := Atoi(p);
      if n.None? || n.value < 0 {
        return None;
      }
      match i
      case 0 => major := n.value;
      case 1 => minor := n.value;
      case _ => patch := n.value;
    }
    v := Some(Version(major, minor, patch, pre, build));
  }

  // ---- the parser is canonical ----

  predicate WellFormed(v: Version) {
    && v.major <= MAX_INT && v.minor <= MAX_INT && v.patch <= MAX_INT
    && (forall p :: p in v.pre ==> IsPreIdent(p))
    && (forall p :: p in v.build ==> IsIdent(p))
  }

  function RenderMain(v: Version): string {
    Join([Decimal(v.major), Decimal(v.minor), Decimal(v.patch)], '.')
  }

  function RenderRelease(v: Version): string {
    if v.pre == [] then RenderMain(v) else RenderMain(v) + ("-" + Join(v.pre, '.'))
  }

  function Render(v: Version): string {
    if v.build == [] then RenderRelease(v) else RenderRelease(v) + ("+" + Join(v.build, '.'))
  }

  lemma {:induction false} JoinedChars(parts: seq<string>, c: char)
    requires |parts| >= 1 && c != '.' && forall p :: p in parts ==> c !in p
    ensures c !in Join(parts, '.')
  {
    if |parts| > 1 {
      assert parts == [parts[0]] + parts[1..];
      JoinedChars(parts[1..], c);
    }
  }

  lemma {:induction false} JoinedIdents(parts: seq<string>)
    requires |parts| >= 1 && forall p :: p in parts ==> IsIdent(p)
    ensures Join(parts, '.') != "" && Idents(Join(parts, '.')) == Some(parts)
    ensures '+' !in Join(parts, '.')
  {
    assert parts[0] in parts;
    forall p | p in parts
      ensures '.' !in p && '+' !in p
    {
      assert forall c :: c in p ==> IsIdentChar(c);
    }
    SplitJoin(parts, '.');
    JoinedChars(parts, '+');
  }

  lemma MainNumberDecimal(n: nat)
    requires n <= MAX_INT
    ensures MainNumber(Decimal(n)) == Some(n)
  {
    DecimalValue(n);
    AtoiDecimal(Decimal(n));
  }

  lemma MainRendered(v: Version)
    requires WellFormed(v)
    ensures Main(RenderMain(v), v.pre, v.build) == Some(v)
    ensures '+' !in RenderMain(v) && '-' !in RenderMain(v) && RenderMain(v) != ""
  {
    var parts := [Decimal(v.major), Decimal(v.minor), Decimal(v.patch)];
    forall p | p in parts
      ensures '.' !in p && '+' !in p && '-' !in p
    {
      assert AllDigits(p);
    }
    SplitJoin(parts, '.');
    JoinedChars(parts, '+');
    JoinedChars(parts, '-');
    MainNumberDecimal(v.major);
    MainNumberDecimal(v.minor);
    MainNumberDecimal(v.patch);
  }

  /** A mark that does not occur before it is found where it was put. */
  lemma CutRendered(front: string, mark: char, idents: seq<string>)
    requires mark !in front && |idents| >= 1 && forall p :: p in idents ==> IsIdent(p)
    ensures CutIdents(front + ([mark] + Join(idents, '.')), mark) == Suffix(front, idents)
  {
    var joined := Join(idents, '.');
    var s := front + ([mark] + joined);
    JoinedIdents(idents);
    MarkFound(front, mark, joined);
    assert IndexOf(s, mark) == |front|;
  }

  lemma MarkFound(front: string, mark: char, rest: string)
    requires mark !in front
    ensures var s := front + ([mark] + rest);
      IndexOf(s, mark) == |front| && s[..|front|] == front && s[|front| + 1..] == rest
  {
    IndexOfPrefix(front, [mark] + rest, mark);
  }

  lemma CutNothing(s: string, mark: char)
    requires mark !in s
    ensures CutIdents(s, mark) == NoMark
  {
    IndexOfIsFirst(s, mark);
  }

  lemma ReleaseRendered(v: Version)
    requires WellFormed(v)
    ensures ParseRelease(RenderRelease(v), v.build) == Some(v)
    ensures '+' !in RenderRelease(v) && RenderRelease(v) != ""
  {
    MainRendered(v);
    if v.pre == [] {
      CutNothing(RenderMain(v), '-');
    } else {
      CutRendered(RenderMain(v), '-', v.pre);
      JoinedIdents(v.pre);
    }
  }

  /** Parsing undoes rendering. */
  lemma ParseRendered(v: Version)
    requires WellFormed(v)
    ensures Parse(Render(v)) == Some(v)
  {
    ReleaseRendered(v);
    if v.build == [] {
      CutNothing(RenderRelease(v), '+');
    } else {
      CutRendered(RenderRelease(v), '+', v.build);
    }
  }

  lemma MainNumberCanonical(p: string)
    requires MainNumber(p).Some? && '-' !in p && '+' !in p
    ensures MainNumber(p).value <= MAX_INT && Decimal(MainNumber(p).value) == p
  {
    assert p[0] in p;
    assert IsDecimal(p);
    AtoiDecimal(p);
    DecimalOfValue(p);
  }

  lemma MainCanonical(s: string, pre: seq<string>, build: seq<string>)
    requires Main(s, pre, build).Some? && '-' !in s && '+' !in s
    ensures var v := Main(s, pre, build).value;
      && v.major <= MAX_INT && v.minor <= MAX_INT && v.patch <= MAX_INT
      && v.pre == pre && v.build == build && RenderMain(v) == s
  {
    var parts := Split(s, '.');
    JoinSplit(s, '.');
    forall p | p in parts
      ensures '-' !in p && '+' !in p
    {
      PartChars(s, '.', p);
    }
    assert parts[0] in parts && parts[1] in parts && parts[2] in parts;
    MainNumberCanonical(parts[0]);
    MainNumberCanonical(parts[1]);
    MainNumberCanonical(parts[2]);
    assert parts == [parts[0], parts[1], parts[2]];
  }

  lemma {:induction false} PartChars(s: string, sep: char, p: string)
    requires p in Split(s, sep)
    ensures forall c :: c in p ==> c in s
  {
    if s != "" {
      var rest := Split(s[1..], sep);
      assert s == [s[0]] + s[1..];
      if p in rest {
        PartChars(s[1..], sep, p);
      } else if s[0] != sep {
        PartChars(s[1..], sep, rest[0]);
      }
    }
  }

  lemma CutCanonical(s: string, mark: char)
    requires CutIdents(s, mark).Suffix?
    ensures var cut := CutIdents(s, mark);
      && s == cut.front + ([mark] + Join(cut.idents, '.')) && mark !in cut.front
      && |cut.idents| >= 1 && (forall p :: p in cut.idents ==> IsIdent(p))
      && (forall c :: c in cut.front ==> c in s)
  {
    var i := IndexOf(s, mark);
    IndexOfIsFirst(s, mark);
    JoinSplit(s[i + 1..], '.');
    assert s == s[..i] + ([s[i]] + s[i + 1..]);
  }

  lemma ReleaseCanonical(s: string, build: seq<string>)
    requires ParseRelease(s, build).Some? && '+' !in s && forall p :: p in build ==> IsIdent(p)
    ensures var v := ParseRelease(s, build).value; WellFormed(v) && v.build == build && RenderRelease(v) == s
  {
    match CutIdents(s, '-')
    case NoMark =>
      IndexOfIsFirst(s, '-');
      MainCanonical(s, [], build);
    case Suffix(front, pre) =>
      CutCanonical(s, '-');
      MainCanonical(front, pre, build);
  }

  /** Every accepted string is the rendering of its parsed record. */
  lemma ParsedCanonical(s: string)
    requires Parse(s).Some?
    ensures WellFormed(Parse(s).value) && Render(Parse(s).value) == s
  {
    match CutIdents(s, '+')
    case NoMark =>
      IndexOfIsFirst(s, '+');
      ReleaseCanonical(s, []);
    case Suffix(front, build) =>
      CutCanonical(s, '+');
      ReleaseCanonical(front, build);
  }

  /** Strings and records correspond one to one: a string is accepted as `v` exactly when `v` is
      well formed and the string is its rendering. */
  lemma CanonicalForm(s: string, v: Version)
    ensures Parse(s) == Some(v) <==> WellFormed(v) && s == Render(v)
  {
    if Parse(s) == Some(v) {
      ParsedCanonical(s);
    }
    if WellFormed(v) && s == Render(v) {
      ParseRendered(v);
    }
  }

  lemma OneSuffix(front: string, p: string)
    requires '-' !in front && '.' !in p
    ensures ParseRelease(front + (['-'] + p), []) == if IsPreIdent(p) then Main(front, [p], []) else None
  {
    MarkFound(front, '-', p);
    SplitJoin([p], '.');
  }

  /** Which text may stand as one pre-release identifier, written out. */
  lemma OneIdentifier(v: Version, p: string)
    requires WellFormed(v) && v.pre == [] && v.build == [] && '.' !in p && '+' !in p
    ensures Parse(Render(v) + (['-'] + p)).Some? <==>
      && p != ""
      && (forall c :: c in p ==> '0' <= c <= '9' || 'a' <= c <= 'z' || 'A' <= c <= 'Z' || c == '-')
      && ((forall c :: c in p ==> '0' <= c <= '9') ==> p == "0" || p[0] != '0')
  {
    MainRendered(v);
    CutNothing(Render(v) + (['-'] + p), '+');
    OneSuffix(Render(v), p);
    if IsPreIdent(p) {
      MainRendered(v.(pre := [p]));
    }
  }

  // ---- comparing ----

  function CompareIdents(a: string, b: string): int {
    if IsNumeric(a) && IsNumeric(b) then CompareInts(Clamped(a), Clamped(b))
    else if IsNumeric(a) then -1
    else if IsNumeric(b) then 1
    else CompareStrings(a, b)
  }

  function ComparePre(a: seq<string>, b: seq<string>): int {
    if a == [] && b == [] then 0
    else if a == [] then 1
    else if b == [] then -1
    else CompareRuns(CompareIdents, a, b)
  }

  function CompareParsed(a: Version, b: Version): int {
    Then(CompareInts(a.major, b.major), Then(CompareInts(a.minor, b.minor),
      Then(CompareInts(a.patch, b.patch), ComparePre(a.pre, b.pre))))
  }

  /** `Compare`: strings that do not parse come first, in string order. */
  function Compare(a: string, b: string): int {
    match (Parse(a), Parse(b))
    case (None, None) => CompareStrings(a, b)
    case (None, Some(_)) => -1
    case (Some(_), None) => 1
    case (Some(va), Some(vb)) => CompareParsed(va, vb)
  }

  /** `cmpPreRelease`: the index loop over both runs. */
  method CmpPreRelease(a: seq<string>, b: seq<string>) returns (c: int)
    ensures c == CompareRuns(CompareIdents, a, b)
  {
    var n := |a|;
    if |b| > n {
      n := |b|;
    }
    for i := 0 to n
      invariant i <= |a| && i <= |b|
      invariant CompareRuns(CompareIdents, a[i..], b[i..]) == CompareRuns(CompareIdents, a, b)
    {
      if i >= |a| {
        return -1;
      }
      if i >= |b| {
        return 1;
      }
      assert a[i..][1..] == a[i + 1..] && b[i..][1..] == b[i + 1..];
      var aIsNum, bIsNum := IsNumeric(a[i]), IsNumeric(b[i]);
      if aIsNum && bIsNum {
        var d := CompareInts(Clamped(a[i]), Clamped(b[i]));
        if d != 0 {
          return d;
        }
      } else if aIsNum {
        return -1;
      } else if bIsNum {
        return 1;
      } else {
        var d := CompareStrings(a[i], b[i]);
        if d != 0 {
          return d;
        }
      }
    }
    return 0;
  }

  lemma IdentsLaws()
    ensures Laws(CompareIdents)
  {
    forall a: string, b: string, c: string
      ensures CompareIdents(a, b) == -CompareIdents(b, a)
      ensures CompareIdents(a, b) <= 0 && CompareIdents(b, c) <= 0 ==> CompareIdents(a, c) <= 0
    {
      StringsConsistent(a, b, c);
    }
  }

  lemma ParsedConsistent(a: Version, b: Version, c: Version)
    ensures CompareParsed(a, b) == -CompareParsed(b, a)
    ensures Consistent(CompareParsed(a, b), CompareParsed(b, c), CompareParsed(a, c))
  {
    IdentsLaws();
    RunsConsistent(CompareIdents, a.pre, b.pre, c.pre);
  }

  /** `Compare` is a total preorder on all strings. */
  lemma CompareTotalPreorder()
    ensures Laws(Compare)
  {
    forall a: string, b: string, c: string
      ensures Compare(a, b) == -Compare(b, a)
      ensures Compare(a, b) <= 0 && Compare(b, c) <= 0 ==> Compare(a, c) <= 0
    {
      StringsConsistent(a, b, c);
      if Parse(a).Some? && Parse(b).Some? {
        ParsedConsistent(Parse(a).value, Parse(b).value, if Parse(c).Some? then Parse(c).value else Parse(a).value);
      }
    }
  }

  /** Strings that do not parse come before those that do, and in string order. */
  lemma InvalidFirst(a: string, b: string)
    ensures Parse(a).None? && Parse(b).Some? ==> Compare(a, b) < 0 < Compare(b, a)
    ensures Parse(a).None? && Parse(b).None? ==> (Compare(a, b) < 0 <==> StringPrecedes(a, b))
  {
    StringOrder(a, b);
  }

  // ---- section 11 ----

  /** Identifiers by section 11.4: numbers by value, below words; words in ASCII order. */
  ghost predicate IdentPrecedes(a: string, b: string) {
    if IsNumeric(a) && IsNumeric(b) then DigitsValue(a) < DigitsValue(b)
    else if IsNumeric(a) || IsNumeric(b) then IsNumeric(a)
    else StringPrecedes(a, b)
  }

  /** The first difference decides, and a longer run is higher when there is none. */
  ghost predicate RunPrecedes(a: seq<string>, b: seq<string>) {
    exists i: nat :: FirstDifference(a, b, i) && (i == |a| || (i < |b| && IdentPrecedes(a[i], b[i])))
  }

  ghost predicate FirstDifference(a: seq<string>, b: seq<string>, i: nat) {
    && i <= |a| && i <= |b| && a[..i] == b[..i]
    && (i < |a| || i < |b|) && (i < |a| && i < |b| ==> a[i] != b[i])
  }

  /** Precedence by section 11 of Semantic Versioning 2.0.0. */
  ghost predicate Precedes(a: Version, b: Version) {
    || a.major < b.major
    || (a.major == b.major && a.minor < b.minor)
    || (a.major == b.major && a.minor == b.minor && a.patch < b.patch)
    || (a.major == b.major && a.minor == b.minor && a.patch == b.patch
        && a.pre != [] && (b.pre == [] || RunPrecedes(a.pre, b.pre)))
  }

  /** Different numbers that both reach the largest int. */
  predicate Hidden(a: string, b: string) {
    IsNumeric(a) && IsNumeric(b) && a != b && DigitsValue(a) >= MAX_INT && DigitsValue(b) >= MAX_INT
  }

  /** On identifiers the comparator errs exactly where both numbers reach the largest int and
      differ: there it sees a tie. */
  lemma IdentsExactIff(a: string, b: string)
    requires IsPreIdent(a) && IsPreIdent(b)
    ensures ((CompareIdents(a, b) < 0 <==> IdentPrecedes(a, b)) && (CompareIdents(a, b) == 0 <==> a == b))
        <==> !Hidden(a, b)
  {
    StringsConsistent(a, b, a);
    StringOrder(a, b);
    if IsNumeric(a) && IsNumeric(b) {
      DecimalOfValue(a);
      DecimalOfValue(b);
    }
  }

  /** The runs first differ at `i`, in two numbers the comparator takes for equal. */
  ghost predicate HiddenAt(a: seq<string>, b: seq<string>, i: nat) {
    FirstDifference(a, b, i) && i < |a| && i < |b| && Hidden(a[i], b[i])
  }

  /** What follows position `i` happens to compare as the numbers there do. */
  ghost predicate RestDecides(a: seq<string>, b: seq<string>, i: nat)
    requires HiddenAt(a, b, i)
  {
    var rest := CompareRuns(CompareIdents, a[i + 1..], b[i + 1..]);
    rest != 0 && (rest < 0 <==> DigitsValue(a[i]) < DigitsValue(b[i]))
  }

  ghost predicate RunsAgree(a: seq<string>, b: seq<string>) {
    (CompareRuns(CompareIdents, a, b) < 0 <==> RunPrecedes(a, b)) && (CompareRuns(CompareIdents, a, b) == 0 <==> a == b)
  }

  /** A first difference at the very start is the only one. */
  lemma DifferAtStart(a: seq<string>, b: seq<string>)
    requires a == [] || b == [] || a[0] != b[0]
    ensures forall i: nat :: FirstDifference(a, b, i) ==> i == 0
    ensures a != b ==> FirstDifference(a, b, 0)
  {
    forall i: nat | i > 0 && i <= |a| && i <= |b|
      ensures a[..i] != b[..i]
    {
      assert a[..i][0] == a[0] && b[..i][0] == b[0];
    }
  }

  lemma {:induction false} RunsFollowSection11(a: seq<string>, b: seq<string>)
    requires forall p :: p in a || p in b ==> IsPreIdent(p)
    ensures RunsAgree(a, b) <==> forall i: nat :: HiddenAt(a, b, i) ==> RestDecides(a, b, i)
  {
    if a == [] || b == [] {
      DifferAtStart(a, b);
    } else {
      assert a[0] in a && b[0] in b && a == [a[0]] + a[1..] && b == [b[0]] + b[1..];
      IdentsExactIff(a[0], b[0]);
      RunPrecedesStep(a, b);
      if a[0] != b[0] {
        DifferAtStart(a, b);
        assert HiddenAt(a, b, 0) <==> Hidden(a[0], b[0]);
        assert CompareIdents(a[0], b[0]) == 0 <==> Hidden(a[0], b[0]);
        if Hidden(a[0], b[0]) {
          assert RunsAgree(a, b) <==> RestDecides(a, b, 0);
        }
      } else {
        RunsFollowSection11(a[1..], b[1..]);
        ShiftHidden(a, b);
      }
    }
  }

  /** A common first identifier does not matter to where the runs differ. */
  lemma ShiftHidden(a: seq<string>, b: seq<string>)
    requires a != [] && b != [] && a[0] == b[0]
    ensures (forall i: nat :: HiddenAt(a, b, i) ==> RestDecides(a, b, i))
       <==> (forall i: nat :: HiddenAt(a[1..], b[1..], i) ==> RestDecides(a[1..], b[1..], i))
  {
    forall i: nat
      ensures HiddenAt(a[1..], b[1..], i) <==> HiddenAt(a, b, i + 1)
      ensures HiddenAt(a, b, i + 1) ==> (RestDecides(a[1..], b[1..], i) <==> RestDecides(a, b, i + 1))
    {
      ShiftDifference(a, b, i);
      if i + 1 < |a| && i + 1 < |b| {
        assert a[1..][i + 1..] == a[i + 2..] && b[1..][i + 1..] == b[i + 2..];
      }
    }
    forall i: nat | HiddenAt(a, b, i)
      ensures i > 0
    {
      assert a[0] == b[0];
    }
    if forall i: nat :: HiddenAt(a[1..], b[1..], i) ==> RestDecides(a[1..], b[1..], i) {
      forall i: nat | HiddenAt(a, b, i)
        ensures RestDecides(a, b, i)
      {
        assert HiddenAt(a[1..], b[1..], i - 1);
      }
    }
  }

  lemma ShiftDifference(a: seq<string>, b: seq<string>, i: nat)
    requires a != [] && b != [] && a[0] == b[0]
    ensures FirstDifference(a[1..], b[1..], i) <==> FirstDifference(a, b, i + 1)
  {
    if i + 1 <= |a| && i + 1 <= |b| {
      assert a[..i + 1] == [a[0]] + a[1..][..i] && b[..i + 1] == [b[0]] + b[1..][..i];
      assert a[..i + 1] == b[..i + 1] ==> a[1..][..i] == a[..i + 1][1..] && b[1..][..i] == b[..i + 1][1..];
    }
  }

  lemma RunPrecedesStep(a: seq<string>, b: seq<string>)
    requires a != [] && b != []
    ensures RunPrecedes(a, b) <==> if a[0] == b[0] then RunPrecedes(a[1..], b[1..]) else IdentPrecedes(a[0], b[0])
  {
    if a[0] == b[0] {
      forall i: nat
        ensures FirstDifference(a[1..], b[1..], i) <==> FirstDifference(a, b, i + 1)
      {
        ShiftDifference(a, b, i);
      }
      if i: nat :| FirstDifference(a, b, i) && (i == |a| || (i < |b| && IdentPrecedes(a[i], b[i]))) {
        assert FirstDifference(a[1..], b[1..], i - 1);
      }
      var x, y := a[1..], b[1..];
      if j: nat :| FirstDifference(x, y, j) && (j == |x| || (j < |y| && IdentPrecedes(x[j], y[j]))) {
        assert FirstDifference(a, b, j + 1);
      }
    } else {
      assert FirstDifference(a, b, 0);
    }
  }

  predicate SameMain(a: Version, b: Version) {
    a.major == b.major && a.minor == b.minor && a.patch == b.patch
  }

  /** On valid versions the comparator is section 11 precedence, with ties for versions that differ
      at most in build metadata, unless the versions first differ in two pre-release numbers that
      both reach the largest int; then, exactly when the later identifiers happen to agree. */
  lemma FollowsSection11(a: string, b: string)
    requires Parse(a).Some? && Parse(b).Some?
    ensures var va, vb := Parse(a).value, Parse(b).value;
      && (Compare(a, b) < 0 <==> Precedes(va, vb))
      && (Compare(a, b) == 0 <==> va == vb.(build := va.build))
      <==> (SameMain(va, vb) ==> forall i: nat :: HiddenAt(va.pre, vb.pre, i) ==> RestDecides(va.pre, vb.pre, i))
  {
    var va, vb := Parse(a).value, Parse(b).value;
    ParsedCanonical(a);
    ParsedCanonical(b);
    RunsFollowSection11(va.pre, vb.pre);
  }

  function WithPre(n: nat): Version {
    Version(1, 0, 0, [Decimal(n)], [])
  }

  lemma HugeNumberParses(n: nat)
    ensures Parse(Render(WithPre(n))) == Some(WithPre(n)) && IsNumeric(Decimal(n)) && DigitsValue(Decimal(n)) == n
  {
    DecimalValue(n);
    assert forall c :: c in Decimal(n) ==> IsDigit(c) && IsIdentChar(c);
    ParseRendered(WithPre(n));
  }

  /** Such versions exist: any two pre-release numbers from the largest int on compare as equal. */
  lemma HugeNumbersTie(m: nat, n: nat)
    requires m >= 0x7fff_ffff_ffff_ffff && n >= 0x7fff_ffff_ffff_ffff
    ensures Compare(Render(WithPre(m)), Render(WithPre(n))) == 0
    ensures m != n ==> HiddenAt(WithPre(m).pre, WithPre(n).pre, 0)
  {
    var a, b := WithPre(m), WithPre(n);
    HugeNumberParses(m);
    HugeNumberParses(n);
    assert a.pre[1..] == [] && b.pre[1..] == [] && a.pre[..0] == b.pre[..0];
    assert CompareRuns(CompareIdents, a.pre, b.pre) == CompareIdents(Decimal(m), Decimal(n)) == 0;
  }
}
