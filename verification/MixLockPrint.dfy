/** Parsing a printed lock file. Entries of every kind, well formed or not, are printed with any white
    space and comments between them; the parser finds each package once and warns of the rest. */
module MixLockPrint {
  import opened Text
  import opened MixLock

  // ---- what is printed ----

  /** `tail` is whatever follows in the tuple. */
  datatype Value =
    | HexTuple(package: Package, tail: string)
    | SourceTuple(source: string, tail: string)
    | OddTuple(inner: string)
    | Bare(text: string)

  /** An entry with a separator and a value, or one whose key no separator follows. */
  datatype Line =
    | Keyed(gap: string, key: string, arrow: bool, value: Value)
    | Unkeyed(gap: string, key: string, text: string)

  function RenderValue(value: Value): string {
    match value
    case HexTuple(package, tail) =>
      "{" + ((":hex, :" + package.name + ", " + ("\"" + package.version + "\"") + tail) + "}")
    case SourceTuple(source, tail) => "{" + ((":" + (source + tail)) + "}")
    case OddTuple(inner) => "{" + (inner + "}")
    case Bare(text) => text
  }

  /** The text behind the key, up to the comma. */
  function RenderRest(line: Line): string {
    match line
    case Keyed(_, _, arrow, value) => (if arrow then " => " else ": ") + RenderValue(value)
    case Unkeyed(_, _, text) => " " + text
  }

  function RenderLine(line: Line): string {
    line.gap + ("\"" + (line.key + ("\"" + (RenderRest(line) + ","))))
  }

  function RenderBody(lines: seq<Line>): string {
    if lines == [] then "\n" else RenderLine(lines[0]) + RenderBody(lines[1..])
  }

  /** `rest` is whatever follows the map. */
  function RenderLock(lines: seq<Line>, rest: string): string {
    "%" + ("{" + (RenderBody(lines) + ("}" + rest)))
  }

  // ---- what may be printed ----

  /** White space and whole comments. */
  predicate IsGap(s: string)
    decreases |s|
  {
    if s == "" then true
    else if s[0] == '#' then '\n' in s && IsGap(AfterLine(s))
    else IsWhite(s[0]) && IsGap(s[1..])
  }

  /** The inside of a string: a backslash takes the next character along. */
  predicate IsQuoted(s: string)
    decreases |s|
  {
    if s == "" then true
    else if s[0] == '\\' then |s| > 1 && IsQuoted(s[2..])
    else s[0] != '"' && IsQuoted(s[1..])
  }

  predicate IsLetter(c: char) {
    'A' <= c <= 'Z' || 'a' <= c <= 'z' || c == '_'
  }

  predicate IsAtom(s: string) {
    s != "" && IsLetter(s[0]) && forall c :: c in s ==> IsLetter(c) || '0' <= c <= '9'
  }

  /** Every string closed, every brace outside strings matched. */
  predicate Balanced(s: string, depth: nat, inString: bool)
    decreases |s|
  {
    if s == "" then depth == 0 && !inString
    else if inString then
      if s[0] == '\\' then |s| > 1 && Balanced(s[2..], depth, true) else Balanced(s[1..], depth, s[0] != '"')
    else if s[0] == '"' then Balanced(s[1..], depth, true)
    else if s[0] == '{' then Balanced(s[1..], depth + 1, false)
    else if s[0] == '}' then depth > 0 && Balanced(s[1..], depth - 1, false)
    else Balanced(s[1..], depth, false)
  }

  /** Every comma is inside a string or a bracket. */
  predicate Enclosed(s: string, depth: nat, inString: bool)
    decreases |s|
  {
    if s == "" then depth == 0 && !inString
    else if inString then
      if s[0] == '\\' then |s| > 1 && Enclosed(s[2..], depth, true) else Enclosed(s[1..], depth, s[0] != '"')
    else if s[0] == '"' then Enclosed(s[1..], depth, true)
    else if s[0] == '{' || s[0] == '[' || s[0] == '(' then Enclosed(s[1..], depth + 1, false)
    else if s[0] == '}' || s[0] == ']' || s[0] == ')' then depth > 0 && Enclosed(s[1..], depth - 1, false)
    else (s[0] != ',' || depth > 0) && Enclosed(s[1..], depth, false)
  }

  predicate IsWhite(c: char) {
    c == ' ' || c == '\t' || c == '\n' || c == '\r'
  }

  /** Starts white space or a comment. */
  predicate StartsGap(s: string) {
    s != "" && (IsWhite(s[0]) || s[0] == '#')
  }

  predicate PrintableValue(value: Value) {
    match value
    case HexTuple(package, tail) =>
      && IsAtom(package.name) && package.version != "" && IsQuoted(package.version) && '"' !in package.version
      && Balanced(tail, 0, false)
    case SourceTuple(source, tail) =>
      && IsAtom(source) && source != "hex" && Balanced(tail, 0, false)
      && (tail == "" || !(IsLetter(tail[0]) || '0' <= tail[0] <= '9'))
    case OddTuple(inner) =>
      && Balanced(inner, 0, false)
      && (inner == "" || (inner[0] != ':' && !IsWhite(inner[0]) && inner[0] != '\U{0c}'))
    case Bare(text) =>
      Balanced(text, 0, false) && Enclosed(text, 0, false) && !StartsGap(text) && (text == "" || text[0] != '{')
  }

  predicate Printable(line: Line) {
    && IsGap(line.gap) && Balanced(line.gap, 0, false) && IsQuoted(line.key)
    && match line
       case Keyed(_, _, _, value) => PrintableValue(value)
       case Unkeyed(_, _, text) =>
         && Balanced(text, 0, false) && Enclosed(text, 0, false) && !StartsGap(text)
         && (text == "" || text[0] != ':') && !("=>" <= text)
  }

  // ---- what parsing yields ----

  /** The packages of the hex entries, each name and version once. */
  function Packages(packages: seq<Package>, lines: seq<Line>): seq<Package>
    decreases |lines|
  {
    if lines == [] then packages
    else if lines[0].Keyed? && lines[0].value.HexTuple? && lines[0].value.package !in packages then
      Packages(packages + [lines[0].value.package], lines[1..])
    else Packages(packages, lines[1..])
  }

  /** One warning for each other entry, in order. */
  function Warnings(lines: seq<Line>): seq<Warning> {
    if lines == [] then [] else WarningOf(lines[0]) + Warnings(lines[1..])
  }

  function WarningOf(line: Line): seq<Warning> {
    match line
    case Unkeyed(_, key, _) => [MissingSeparator(key)]
    case Keyed(_, key, _, HexTuple(_, _)) => []
    case Keyed(_, key, _, SourceTuple(source, _)) => [OtherSource(key, source)]
    case Keyed(_, key, _, OddTuple(_)) => [Unrecognised(key)]
    case Keyed(_, key, _, Bare(_)) => [NotATuple(key)]
  }

  // ---- balanced text ----

  lemma {:induction false} BraceSpanBalanced(s: string, depth: nat, inString: bool, outer: nat, rest: string)
    requires Balanced(s, depth, inString) && outer > 0
    ensures BraceSpan(s + rest, outer + depth, inString) == Plus(|s|, BraceSpan(rest, outer, false))
    decreases |s|, 1
  {
    if s == "" {
      assert s + rest == rest;
    } else if inString {
      BraceSpanInString(s, depth, outer, rest);
    } else {
      BraceSpanOutside(s, depth, outer, rest);
    }
  }

  lemma {:induction false} BraceSpanInString(s: string, depth: nat, outer: nat, rest: string)
    requires s != "" && Balanced(s, depth, true) && outer > 0
    ensures BraceSpan(s + rest, outer + depth, true) == Plus(|s|, BraceSpan(rest, outer, false))
    decreases |s|, 0
  {
    var all := s + rest;
    if s[0] == '\\' {
      assert all[2..] == s[2..] + rest;
      BraceSpanBalanced(s[2..], depth, true, outer, rest);
    } else {
      assert all[1..] == s[1..] + rest;
      BraceSpanBalanced(s[1..], depth, s[0] != '"', outer, rest);
    }
  }

  lemma {:induction false} BraceSpanOutside(s: string, depth: nat, outer: nat, rest: string)
    requires s != "" && Balanced(s, depth, false) && outer > 0
    ensures BraceSpan(s + rest, outer + depth, false) == Plus(|s|, BraceSpan(rest, outer, false))
    decreases |s|, 0
  {
    var all := s + rest;
    assert all[0] == s[0] && all[1..] == s[1..] + rest;
    BraceSpanBalanced(s[1..], Depth(s[0], depth, false), s[0] == '"', outer, rest);
  }

  lemma {:induction false} BalancedConcat(a: string, b: string, depth: nat, inString: bool, outer: nat)
    requires Balanced(a, depth, inString)
    ensures Balanced(a + b, outer + depth, inString) == Balanced(b, outer, false)
    decreases |a|
  {
    if a == "" {
      assert a + b == b;
    } else if inString && a[0] == '\\' {
      assert (a + b)[2..] == a[2..] + b;
      BalancedConcat(a[2..], b, depth, true, outer);
    } else {
      assert (a + b)[1..] == a[1..] + b;
      BalancedConcat(a[1..], b, Depth(a[0], depth, inString), InString(a[0], inString), outer);
    }
  }

  /** Text without quotes or braces is balanced. */
  lemma {:induction false} QuietBalanced(s: string)
    requires forall c :: c in s ==> c != '"' && c != '{' && c != '}'
    ensures Balanced(s, 0, false)
  {
    if s != "" {
      assert s[0] in s && forall c :: c in s[1..] ==> c in s;
      QuietBalanced(s[1..]);
    }
  }

  /** Inside a string, text without an open escape or a quote runs up to the closing quote. */
  lemma {:induction false} QuotedString(s: string, rest: string)
    requires IsQuoted(s)
    ensures StringBody(s + ("\"" + rest)) == Some(|s|)
    ensures Balanced(s + "\"", 0, true)
    decreases |s|
  {
    if s == "" {
      assert s + ("\"" + rest) == "\"" + rest && s + "\"" == "\"";
    } else if s[0] == '\\' {
      QuotedString(s[2..], rest);
      assert (s + ("\"" + rest))[2..] == s[2..] + ("\"" + rest) && (s + "\"")[2..] == s[2..] + "\"";
    } else {
      QuotedString(s[1..], rest);
      assert (s + ("\"" + rest))[1..] == s[1..] + ("\"" + rest) && (s + "\"")[1..] == s[1..] + "\"";
    }
  }

  lemma QuotedBalanced(s: string)
    requires IsQuoted(s)
    ensures Balanced("\"" + s + "\"", 0, false)
  {
    QuotedString(s, "");
    assert ("\"" + s + "\"")[1..] == s + "\"";
  }

  lemma BalancedBoth(a: string, b: string)
    requires Balanced(a, 0, false) && Balanced(b, 0, false)
    ensures Balanced(a + b, 0, false)
  {
    BalancedConcat(a, b, 0, false, 0);
  }

  lemma BracedBalanced(inner: string)
    requires Balanced(inner, 0, false)
    ensures Balanced("{" + (inner + "}"), 0, false)
  {
    assert ("{" + (inner + "}"))[1..] == inner + "}" && "}"[1..] == "";
    BalancedConcat(inner, "}", 0, false, 1);
  }

  lemma BracedSpan(inner: string, rest: string)
    requires Balanced(inner, 0, false)
    ensures BraceSpan(("{" + (inner + "}")) + rest, 0, false) == Some(|inner| + 2)
  {
    BraceSpanBalanced(inner, 0, false, 1, "}" + rest);
    assert (("{" + (inner + "}")) + rest)[1..] == inner + ("}" + rest);
  }

  /** What stands between the braces of a tuple. */
  function Inner(value: Value): string
    requires !value.Bare?
  {
    match value
    case HexTuple(package, tail) => ":hex, :" + package.name + ", " + ("\"" + package.version + "\"") + tail
    case SourceTuple(source, tail) => ":" + (source + tail)
    case OddTuple(inner) => inner
  }

  lemma AtomQuiet(name: string)
    requires IsAtom(name)
    ensures forall c :: c in name ==> c != '"' && c != '{' && c != '}'
  {
  }

  lemma InnerBalanced(value: Value)
    requires PrintableValue(value) && !value.Bare?
    ensures Balanced(Inner(value), 0, false)
  {
    match value
    case HexTuple(package, tail) =>
      var start := ":hex, :" + package.name + ", ";
      AtomQuiet(package.name);
      QuietBalanced(start);
      QuotedBalanced(package.version);
      BalancedBoth(start, "\"" + package.version + "\"");
      BalancedBoth(start + ("\"" + package.version + "\""), tail);
    case SourceTuple(source, tail) =>
      AtomQuiet(source);
      QuietBalanced(":" + source);
      BalancedBoth(":" + source, tail);
      assert ":" + (source + tail) == (":" + source) + tail;
    case OddTuple(_) =>
  }

  lemma TupleBalanced(value: Value, rest: string)
    requires PrintableValue(value) && !value.Bare?
    ensures Balanced(RenderValue(value), 0, false)
    ensures RenderValue(value) == "{" + (Inner(value) + "}")
    ensures BraceSpan(RenderValue(value) + rest, 0, false) == Some(|RenderValue(value)|)
  {
    InnerBalanced(value);
    BracedBalanced(Inner(value));
    BracedSpan(Inner(value), rest);
  }

  // ---- the regular expressions on printed tuples ----

  lemma {:induction false} WordTaken(word: string, rest: string)
    requires (forall c :: c in word ==> IsWordChar(c)) && rest != "" && !IsWordChar(rest[0])
    ensures WordLength(word + rest) == |word|
  {
    if word == "" {
      assert word + rest == rest;
    } else {
      assert word[0] in word && forall c :: c in word[1..] ==> c in word;
      assert (word + rest)[1..] == word[1..] + rest;
      WordTaken(word[1..], rest);
    }
  }

  lemma EatText(space: bool, text: string, rest: string)
    requires text != "" && !IsRegexSpace(text[0])
    ensures Eat((if space then " " else "") + (text + rest), text) == Some(rest)
  {
    var plain := text + rest;
    assert SkipRegexSpace(plain) == plain && plain[|text|..] == rest;
    if space {
      assert (" " + plain)[1..] == plain;
    } else {
      assert "" + plain == plain;
    }
  }

  lemma AtomTaken(name: string, rest: string)
    requires IsAtom(name) && rest != "" && !IsWordChar(rest[0])
    ensures Atom(name + rest) == Some((name, rest))
  {
    WordTaken(name, rest);
    var all := name + rest;
    assert all[..|name|] == name && all[|name|..] == rest && all[0] == name[0];
  }

  lemma EatNow(text: string, rest: string)
    requires text != "" && !IsRegexSpace(text[0])
    ensures Eat(text + rest, text) == Some(rest)
  {
    EatText(false, text, rest);
    assert "" + (text + rest) == text + rest;
  }

  lemma EatSpaced(text: string, rest: string)
    requires text != "" && !IsRegexSpace(text[0])
    ensures Eat(" " + (text + rest), text) == Some(rest)
  {
    EatText(true, text, rest);
  }

  /** What follows the package atom. */
  function AfterAtom(package: Package, tail: string): string {
    "," + (" " + ("\"" + (package.version + ("\"" + (tail + "}")))))
  }

  lemma TupleRegrouped(package: Package, tail: string)
    ensures RenderValue(HexTuple(package, tail)) ==
      "{" + (":hex" + ("," + (" " + (":" + (package.name + AfterAtom(package, tail))))))
  {
    var after := package.version + ("\"" + (tail + "}"));
    assert ":hex, :" == ":hex" + ("," + (" " + ":"));
    assert ", " + ("\"" + package.version + "\"") + (tail + "}") == "," + (" " + ("\"" + after));
    assert AfterAtom(package, tail) == ", " + ("\"" + package.version + "\"") + (tail + "}");
    assert RenderValue(HexTuple(package, tail)) == "{" + (":hex, :" + (package.name + AfterAtom(package, tail)));
  }

  lemma HexTaken(package: Package, tail: string)
    requires PrintableValue(HexTuple(package, tail))
    ensures HexEntry(RenderValue(HexTuple(package, tail))) == Some(package)
  {
    var g := package.version + ("\"" + (tail + "}"));
    var d := package.name + AfterAtom(package, tail);
    var c := " " + (":" + d);
    TupleRegrouped(package, tail);
    EatNow("{", ":hex" + ("," + c));
    EatNow(":hex", "," + c);
    EatNow(",", c);
    EatSpaced(":", d);
    AtomTaken(package.name, AfterAtom(package, tail));
    EatNow(",", " " + ("\"" + g));
    EatSpaced("\"", g);
    IndexOfPrefix(package.version, "\"" + (tail + "}"), '"');
    assert g[..|package.version|] == package.version;
  }

  /** Another source: its atom may start like "hex", but no comma follows there. */
  lemma SourceTaken(source: string, tail: string)
    requires PrintableValue(SourceTuple(source, tail))
    ensures var text := RenderValue(SourceTuple(source, tail)); HexEntry(text).None? && SourceAtom(text) == Some(source)
  {
    var rest := source + (tail + "}");
    assert RenderValue(SourceTuple(source, tail)) == "{" + (":" + rest);
    EatNow("{", ":" + rest);
    EatNow(":", rest);
    AtomTaken(source, tail + "}");
    HexFails(source, tail);
  }

  lemma HexFails(source: string, tail: string)
    requires PrintableValue(SourceTuple(source, tail))
    ensures var hex := Eat(":" + (source + (tail + "}")), ":hex"); hex.None? || Eat(hex.value, ",").None?
  {
    if ":hex" <= ":" + (source + (tail + "}")) {
      NotHex(source, tail);
    }
  }

  lemma NotHex(source: string, tail: string)
    requires PrintableValue(SourceTuple(source, tail)) && ":hex" <= ":" + (source + (tail + "}"))
    ensures var after := (":" + (source + (tail + "}")))[4..]; Eat(after, ",").None?
  {
    var rest := source + (tail + "}");
    var all := ":" + rest;
    assert all[1] == 'h' && all[2] == 'e' && all[3] == 'x';
    assert rest[0] == 'h' && rest[1] == 'e' && rest[2] == 'x';
    assert !IsWordChar((tail + "}")[0]) && rest[|source|] == (tail + "}")[0];
    assert |source| > 2;
    assert source[..3] == rest[..3] == "hex";
    assert source != source[..3];
    assert all[4..][0] == source[3] && source[3] in source;
  }

  lemma OddTaken(inner: string)
    requires PrintableValue(OddTuple(inner))
    ensures var text := RenderValue(OddTuple(inner)); HexEntry(text).None? && SourceAtom(text).None?
  {
    EatNow("{", inner + "}");
    assert (inner + "}")[0] == if inner == "" then '}' else inner[0];
  }

  /** What a tuple yields. */
  lemma TupleTaken(value: Value, key: string, packages: seq<Package>, warnings: seq<Warning>)
    requires PrintableValue(value) && !value.Bare?
    ensures var line := Keyed("", key, false, value);
      TakeTuple(key, RenderValue(value), packages, warnings) == (Packages(packages, [line]), warnings + WarningOf(line))
  {
    var line := Keyed("", key, false, value);
    OneMore(packages, line);
    match value
    case HexTuple(package, tail) =>
      HexTaken(package, tail);
      assert warnings + [] == warnings;
    case SourceTuple(source, tail) =>
      SourceTaken(source, tail);
    case OddTuple(inner) =>
      OddTaken(inner);
  }

  lemma OneMore(packages: seq<Package>, line: Line)
    ensures Packages(packages, [line]) ==
      if line.Keyed? && line.value.HexTuple? && line.value.package !in packages then packages + [line.value.package]
      else packages
  {
    assert [line][1..] == [];
  }

  // ---- one entry ----

  lemma {:induction false} CommaFound(s: string, depth: nat, inString: bool, rest: string)
    requires Enclosed(s, depth, inString)
    ensures AfterTopComma(s + ("," + rest), depth, inString) == rest
    decreases |s|
  {
    var all := s + ("," + rest);
    if s == "" {
      assert all == "," + rest && all[1..] == rest;
    } else {
      assert all[0] == s[0] && all[1..] == s[1..] + ("," + rest) && (|s| > 1 ==> all[2..] == s[2..] + ("," + rest));
      if inString {
        if s[0] == '\\' {
          CommaFound(s[2..], depth, true, rest);
        } else {
          CommaFound(s[1..], depth, s[0] != '"', rest);
        }
      } else if s[0] == '"' {
        CommaFound(s[1..], depth, true, rest);
      } else if Opens(s[0]) {
        CommaFound(s[1..], depth + 1, false, rest);
      } else if Closes(s[0]) {
        CommaFound(s[1..], depth - 1, false, rest);
      } else {
        CommaFound(s[1..], depth, false, rest);
      }
    }
  }

  lemma SpaceSkipped(c: char, s: string)
    requires IsSpace(c)
    ensures SkipSpace([c] + s) == SkipSpace(s)
  {
    assert ([c] + s)[1..] == s;
  }

  /** Text that starts no space and no comment is left alone, whatever follows its comma. */
  lemma NothingSkipped(text: string, rest: string)
    requires !StartsGap(text)
    ensures SkipSpace(text + ("," + rest)) == text + ("," + rest)
    ensures SkipSpace(" " + (text + ("," + rest))) == text + ("," + rest)
  {
    var all := text + ("," + rest);
    assert all[0] == if text == "" then ',' else text[0];
    SpaceSkipped(' ', all);
  }

  /** The value of a printed entry is taken whole, with the comma behind it. */
  lemma ValueTaken(line: Line, rest: string, packages: seq<Package>, warnings: seq<Warning>)
    requires line.Keyed? && PrintableValue(line.value)
    ensures ValueStep(" " + (RenderValue(line.value) + ("," + rest)), line.key, packages, warnings)
         == Next(rest, Packages(packages, [line]), warnings + WarningOf(line))
  {
    var text := RenderValue(line.value);
    var all := text + ("," + rest);
    OneMore(packages, line);
    if line.value.Bare? {
      NothingSkipped(text, rest);
      CommaFound(text, 0, false, rest);
      assert all[0] == if text == "" then ',' else text[0];
    } else {
      TupleBalanced(line.value, "," + rest);
      NothingSkipped(text, rest);
      TupleTaken(line.value, line.key, packages, warnings);
      OneMore(packages, Keyed("", line.key, false, line.value));
      assert all[..|text|] == text && all[|text|..] == "," + rest;
      assert SkipSpace("," + rest) == "," + rest && ("," + rest)[1..] == rest;
    }
  }

  /** What follows a key. */
  lemma RestTaken(line: Line, rest: string, packages: seq<Package>, warnings: seq<Warning>)
    requires Printable(line)
    ensures KeyStep(RenderRest(line) + ("," + rest), line.key, packages, warnings)
         == Next(rest, Packages(packages, [line]), warnings + WarningOf(line))
  {
    match line
    case Keyed(_, key, arrow, value) =>
      SeparatorTaken(arrow, RenderValue(value) + ("," + rest), key, packages, warnings);
      ValueTaken(line, rest, packages, warnings);
      Regroup(if arrow then " => " else ": ", RenderValue(value), "," + rest);
    case Unkeyed(_, key, text) =>
      var all := text + ("," + rest);
      NothingSkipped(text, rest);
      Regroup(" ", text, "," + rest);
      CommaFound(text, 0, false, rest);
      OneMore(packages, line);
      assert AfterSeparator(all).None?;
  }

  lemma SeparatorTaken(arrow: bool, value: string, key: string, packages: seq<Package>, warnings: seq<Warning>)
    ensures KeyStep((if arrow then " => " else ": ") + value, key, packages, warnings)
         == ValueStep(" " + value, key, packages, warnings)
  {
    var after := (if arrow then " => " else ": ") + value;
    if arrow {
      var mark := "=> " + value;
      assert after == [' '] + mark && mark[2..] == " " + value && SkipSpace(mark) == mark;
      SpaceSkipped(' ', mark);
    } else {
      assert SkipSpace(after) == after && after[1..] == " " + value;
    }
  }

  lemma Regroup(a: string, b: string, c: string)
    ensures (a + b) + c == a + (b + c)
  {
  }

  /** The text of an entry behind the opening quote of its key. */
  function EntryText(line: Line): string {
    line.key + ("\"" + (RenderRest(line) + ","))
  }

  lemma EntryRegrouped(line: Line, rest: string)
    ensures EntryText(line) + rest == line.key + ("\"" + (RenderRest(line) + ("," + rest)))
  {
    Regroup(line.key, "\"" + (RenderRest(line) + ","), rest);
    Regroup("\"", RenderRest(line) + ",", rest);
    Regroup(RenderRest(line), ",", rest);
  }

  lemma KeyTaken(key: string, after: string, packages: seq<Package>, warnings: seq<Warning>)
    requires IsQuoted(key)
    ensures EntryStep(key + ("\"" + after), packages, warnings) == KeyStep(after, key, packages, warnings)
  {
    var s := key + ("\"" + after);
    QuotedString(key, after);
    assert s[..|key|] == key && s[|key| + 1..] == after;
  }

  lemma EntryTaken(line: Line, rest: string, packages: seq<Package>, warnings: seq<Warning>)
    requires Printable(line)
    ensures EntryStep(EntryText(line) + rest, packages, warnings)
         == Next(rest, Packages(packages, [line]), warnings + WarningOf(line))
  {
    EntryRegrouped(line, rest);
    KeyTaken(line.key, RenderRest(line) + ("," + rest), packages, warnings);
    RestTaken(line, rest, packages, warnings);
  }

  // ---- the whole text ----

  lemma {:induction false} LineEnds(s: string, rest: string)
    requires '\n' in s
    ensures AfterLine(s + rest) == AfterLine(s) + rest
  {
    if s[0] != '\n' {
      assert s == [s[0]] + s[1..] && (s + rest)[1..] == s[1..] + rest;
      LineEnds(s[1..], rest);
    }
  }

  lemma {:induction false} GapSkipped(gap: string, rest: string)
    requires IsGap(gap)
    ensures SkipSpace(gap + rest) == SkipSpace(rest)
    decreases |gap|
  {
    if gap == "" {
      assert gap + rest == rest;
    } else if gap[0] == '#' {
      LineEnds(gap, rest);
      GapSkipped(AfterLine(gap), rest);
    } else {
      assert (gap + rest)[1..] == gap[1..] + rest;
      GapSkipped(gap[1..], rest);
    }
  }

  lemma LineSkipped(line: Line, rest: string)
    requires IsGap(line.gap)
    ensures SkipSpace(RenderLine(line) + rest) == "\"" + (EntryText(line) + rest)
  {
    var quoted := "\"" + (EntryText(line) + rest);
    Regroup(line.gap, "\"" + EntryText(line), rest);
    Regroup("\"", EntryText(line), rest);
    GapSkipped(line.gap, quoted);
    assert SkipSpace(quoted) == quoted;
  }

  lemma FirstOfMore(packages: seq<Package>, lines: seq<Line>)
    requires lines != []
    ensures Packages(packages, lines) == Packages(Packages(packages, [lines[0]]), lines[1..])
  {
    OneMore(packages, lines[0]);
  }

  lemma LineParsed(line: Line, rest: string, packages: seq<Package>, warnings: seq<Warning>)
    requires Printable(line)
    ensures ParseBody(RenderLine(line) + rest, packages, warnings)
         == ParseBody(rest, Packages(packages, [line]), warnings + WarningOf(line))
  {
    var skipped := "\"" + (EntryText(line) + rest);
    LineSkipped(line, rest);
    assert skipped[1..] == EntryText(line) + rest;
    EntryTaken(line, rest, packages, warnings);
  }

  lemma {:induction false} BodyParsed(lines: seq<Line>, packages: seq<Package>, warnings: seq<Warning>)
    requires forall line :: line in lines ==> Printable(line)
    ensures ParseBody(RenderBody(lines), packages, warnings)
         == Parsed(Packages(packages, lines), warnings + Warnings(lines))
    decreases |lines|
  {
    if lines == [] {
      assert "\n"[1..] == "" && warnings + [] == warnings;
    } else {
      var line, rest := lines[0], RenderBody(lines[1..]);
      assert line in lines && forall l :: l in lines[1..] ==> l in lines;
      LineParsed(line, rest, packages, warnings);
      BodyParsed(lines[1..], Packages(packages, [line]), warnings + WarningOf(line));
      FirstOfMore(packages, lines);
      WarningsRegrouped(warnings, WarningOf(line), Warnings(lines[1..]));
    }
  }

  lemma WarningsRegrouped(a: seq<Warning>, b: seq<Warning>, c: seq<Warning>)
    ensures (a + b) + c == a + (b + c)
  {
  }

  lemma RestBalanced(line: Line)
    requires Printable(line)
    ensures Balanced(RenderRest(line) + ",", 0, false)
  {
    QuietBalanced(",");
    match line
    case Keyed(_, _, arrow, value) =>
      var mark := if arrow then " => " else ": ";
      QuietBalanced(mark);
      if !value.Bare? {
        TupleBalanced(value, "");
      }
      BalancedBoth(mark, RenderValue(value));
      BalancedBoth(RenderRest(line), ",");
    case Unkeyed(_, _, text) =>
      QuietBalanced(" ");
      BalancedBoth(" ", text);
      BalancedBoth(RenderRest(line), ",");
  }

  lemma KeyBalanced(key: string, after: string)
    requires IsQuoted(key) && Balanced(after, 0, false)
    ensures Balanced("\"" + (key + ("\"" + after)), 0, false)
  {
    QuotedBalanced(key);
    BalancedBoth("\"" + key + "\"", after);
    assert ("\"" + key + "\"") + after == "\"" + (key + ("\"" + after));
  }

  lemma LineBalanced(line: Line)
    requires Printable(line)
    ensures Balanced(RenderLine(line), 0, false)
  {
    RestBalanced(line);
    KeyBalanced(line.key, RenderRest(line) + ",");
    BalancedBoth(line.gap, "\"" + (line.key + ("\"" + (RenderRest(line) + ","))));
  }

  lemma {:induction false} BodyBalanced(lines: seq<Line>)
    requires forall line :: line in lines ==> Printable(line)
    ensures Balanced(RenderBody(lines), 0, false)
  {
    if lines == [] {
      QuietBalanced("\n");
    } else {
      assert forall l :: l in lines[1..] ==> l in lines;
      BodyBalanced(lines[1..]);
      LineBalanced(lines[0]);
      BalancedBoth(RenderLine(lines[0]), RenderBody(lines[1..]));
    }
  }

  /** A balanced body is taken whole, and what follows its closing brace is ignored. */
  lemma MapTaken(body: string, rest: string)
    requires Balanced(body, 0, false)
    ensures Parse("%" + ("{" + (body + ("}" + rest)))) == ParseBody(body, [], [])
  {
    var inner := body + ("}" + rest);
    var open := "{" + inner;
    var s := "%" + open;
    assert s[0] == '%' && s[1] == '{' && s[1..] == open;
    BraceSpanBalanced(body, 0, false, 1, "}" + rest);
    assert open[1..] == inner;
    assert BraceSpan(open, 0, false) == Some(|body| + 2);
    assert open[1..|body| + 1] == body;
  }

  lemma {:induction false} NothingBehind(comment: string)
    requires '\n' !in comment
    ensures AfterLine(comment) == ""
  {
    if comment != "" {
      assert comment == [comment[0]] + comment[1..];
      NothingBehind(comment[1..]);
    }
  }

  /** The end of the map is looked for without regard to comments: a closing brace in a comment ends
      it, and whatever follows is dropped without a warning. */
  lemma CommentEndsMap(comment: string, rest: string)
    requires Balanced(comment, 0, false) && '\n' !in comment
    ensures Parse("%" + ("{" + (("#" + comment) + ("}" + rest)))) == Parsed([], [])
  {
    QuietBalanced("#");
    BalancedBoth("#", comment);
    MapTaken("#" + comment, rest);
    NothingBehind("#" + comment);
  }

  /** Parsing undoes printing: of a printed lock file the hex entries yield their packages, each name
      and version once, in the order they first appear, and every other entry one warning of its kind. */
  lemma ParseUndoesPrint(lines: seq<Line>, rest: string)
    requires forall line :: line in lines ==> Printable(line)
    ensures Parse(RenderLock(lines, rest)) == Parsed(Packages([], lines), Warnings(lines))
  {
    BodyBalanced(lines);
    MapTaken(RenderBody(lines), rest);
    BodyParsed(lines, [], []);
    assert [] + Warnings(lines) == Warnings(lines);
  }

  ghost predicate PrintsPackage(line: Line, p: Package) {
    line.Keyed? && line.value.HexTuple? && line.value.package == p
  }

  /** The packages found are exactly the packages printed, once each. */
  lemma {:induction false} PackagesOnce(packages: seq<Package>, lines: seq<Line>)
    requires forall i, j :: 0 <= i < j < |packages| ==> packages[i] != packages[j]
    ensures var r := Packages(packages, lines);
      && (forall i, j :: 0 <= i < j < |r| ==> r[i] != r[j])
      && (forall p :: p in r <==> p in packages || exists line :: line in lines && PrintsPackage(line, p))
    decreases |lines|
  {
    if lines != [] {
      var more := Packages(packages, [lines[0]]);
      OneMore(packages, lines[0]);
      FirstOfMore(packages, lines);
      PackagesOnce(more, lines[1..]);
      assert lines == [lines[0]] + lines[1..];
      assert forall p :: p in more <==> p in packages || PrintsPackage(lines[0], p);
    }
  }
}
