/** The scanner for Elixir's mix.lock (ecosystems/hexpm/mixlock.go). Specifications speak of the
    text that remains; the methods move an index through the whole text, as the source does. */
module MixLock {
  import opened Text

  datatype Package = Package(name: string, version: string)

  datatype Warning =
    | MissingSeparator(key: string)
    | NotATuple(key: string)
    | OtherSource(key: string, source: string)
    | Unrecognised(key: string)

  datatype Failure = NoMap | UnmatchedMap | UnterminatedKey | UnmatchedValue(key: string)

  datatype Result = Parsed(packages: seq<Package>, warnings: seq<Warning>) | Failed(failure: Failure)

  // ---- the scanners ----

  predicate IsSpace(c: char) {
    c == ' ' || c == '\t' || c == '\n' || c == '\r'
  }

  function AfterLine(s: string): (rest: string)
    ensures |rest| <= |s| && (s != "" && s[0] != '\n' ==> |rest| < |s|)
  {
    if s == "" || s[0] == '\n' then s else AfterLine(s[1..])
  }

  /** What is left after white space and `#` comments. */
  function SkipSpace(s: string): (rest: string)
    ensures |rest| <= |s|
    decreases |s|
  {
    if s == "" then s
    else if IsSpace(s[0]) then SkipSpace(s[1..])
    else if s[0] == '#' then SkipSpace(AfterLine(s))
    else s
  }

  /** The text up to the closing quote of a string, and what follows the quote. */
  function StringBody(s: string): (end: Option<nat>)
    ensures end.Some? ==> end.value < |s| && s[end.value] == '"'
    decreases |s|
  {
    if s == "" then None
    else if s[0] == '\\' then
      if |s| > 1 then Plus(2, StringBody(s[2..])) else None
    else if s[0] == '"' then Some(0)
    else Plus(1, StringBody(s[1..]))
  }

  function Plus(n: nat, m: Option<nat>): Option<nat> {
    if m.None? then None else Some(n + m.value)
  }

  /** The brace depth after one character; braces inside string literals do not count. */
  function Depth(c: char, depth: int, inString: bool): int {
    if inString then depth
    else if c == '{' then depth + 1
    else if c == '}' then depth - 1
    else depth
  }

  predicate InString(c: char, inString: bool) {
    inString != (c == '"')
  }

  /** How much of `s` there is up to and including the brace that brings the depth to zero. */
  function BraceSpan(s: string, depth: int, inString: bool): (n: Option<nat>)
    ensures n.Some? ==> 0 < n.value <= |s|
    ensures n.Some? && s[0] == '{' ==> n.value > 1
    decreases |s|
  {
    if s == "" then None
    else if inString && s[0] == '\\' && |s| > 1 then Plus(2, BraceSpan(s[2..], depth, true))
    else if !inString && s[0] == '}' && depth - 1 == 0 then Some(1)
    else Plus(1, BraceSpan(s[1..], Depth(s[0], depth, inString), InString(s[0], inString)))
  }

  predicate Opens(c: char) {
    c == '{' || c == '[' || c == '('
  }

  predicate Closes(c: char) {
    c == '}' || c == ']' || c == ')'
  }

  /** What is left after the next comma outside strings and brackets. */
  function AfterTopComma(s: string, depth: nat, inString: bool): (rest: string)
    ensures |rest| <= |s|
    decreases |s|
  {
    if s == "" then s
    else if inString then
      if s[0] == '\\' && |s| > 1 then AfterTopComma(s[2..], depth, true)
      else AfterTopComma(s[1..], depth, s[0] != '"')
    else if s[0] == '"' then AfterTopComma(s[1..], depth, true)
    else if Opens(s[0]) then AfterTopComma(s[1..], depth + 1, false)
    else if Closes(s[0]) then AfterTopComma(s[1..], if depth > 0 then depth - 1 else 0, false)
    else if s[0] == ',' && depth == 0 then s[1..]
    else AfterTopComma(s[1..], depth, false)
  }

  /** `BraceSpan` by position: where the closing brace is. */
  function BraceEnd(s: string, i: nat, depth: int, inString: bool): Option<nat>
    decreases |s| - i
  {
    if i >= |s| then None
    else if inString && s[i] == '\\' && i + 1 < |s| then BraceEnd(s, i + 2, depth, true)
    else if !inString && s[i] == '}' && depth - 1 == 0 then Some(i)
    else BraceEnd(s, i + 1, Depth(s[i], depth, inString), InString(s[i], inString))
  }

  lemma {:induction false} BraceEndIsSpan(s: string, i: nat, depth: int, inString: bool)
    requires i <= |s|
    ensures BraceSpan(s[i..], depth, inString) == After(BraceEnd(s, i, depth, inString), i)
    ensures BraceEnd(s, i, depth, inString).Some? ==> i <= BraceEnd(s, i, depth, inString).value < |s|
    decreases |s| - i
  {
    if i < |s| {
      assert s[i..][1..] == s[i + 1..] && (i + 1 < |s| ==> s[i..][2..] == s[i + 2..]);
      if inString && s[i] == '\\' && i + 1 < |s| {
        BraceEndIsSpan(s, i + 2, depth, true);
      } else {
        BraceEndIsSpan(s, i + 1, Depth(s[i], depth, inString), InString(s[i], inString));
      }
    }
  }

  /** How many characters from `start` up to and including the one at `end`. */
  function After(end: Option<nat>, start: nat): Option<int> {
    if end.None? then None else Some(end.value + 1 - start)
  }

  method MatchBrace(s: string, openIdx: nat) returns (end: Option<nat>)
    ensures end.Some? ==>
      && openIdx < end.value < |s| && s[openIdx] == '{'
      && BraceSpan(s[openIdx..], 0, false) == Some(end.value + 1 - openIdx)
    ensures end.None? ==> openIdx >= |s| || s[openIdx] != '{' || BraceSpan(s[openIdx..], 0, false).None?
  {
    if openIdx >= |s| || s[openIdx] != '{' {
      return None;
    }
    var depth, inString := 0, false;
    BraceEndIsSpan(s, openIdx, depth, inString);
    var i := openIdx;
    while i < |s|
      invariant openIdx <= i <= |s|
      invariant i == openIdx ==> depth == 0 && !inString
      invariant BraceEnd(s, i, depth, inString) == BraceEnd(s, openIdx, 0, false)
    {
      var c := s[i];
      if inString {
        if c == '\\' && i + 1 < |s| {
          i := i + 2;
          continue;
        }
        if c == '"' {
          inString := false;
        }
        i := i + 1;
        continue;
      }
      if c == '"' {
        inString := true;
      } else if c == '{' {
        depth := depth + 1;
      } else if c == '}' {
        depth := depth - 1;
        if depth == 0 {
          return Some(i);
        }
      }
      i := i + 1;
    }
    return None;
  }

  lemma StringBodyStep(s: string, i: nat)
    requires i < |s|
    ensures StringBody(s[i..]) ==
      if s[i] == '\\' then if i + 1 < |s| then Plus(2, StringBody(s[i + 2..])) else None
      else if s[i] == '"' then Some(0)
      else Plus(1, StringBody(s[i + 1..]))
  {
    assert s[i..][1..] == s[i + 1..] && (i + 1 < |s| ==> s[i..][2..] == s[i + 2..]);
  }

  /** `StringBody` by position, as the source computes it. */
  function StringEnd(s: string, i: nat): Option<nat>
    decreases |s| - i
  {
    if i >= |s| then None
    else if s[i] == '\\' then if i + 1 < |s| then StringEnd(s, i + 2) else None
    else if s[i] == '"' then Some(i)
    else StringEnd(s, i + 1)
  }

  lemma {:induction false} StringEndIsBody(s: string, i: nat)
    requires i <= |s|
    ensures StringEnd(s, i) == Plus(i, StringBody(s[i..]))
    decreases |s| - i
  {
    if i < |s| {
      StringBodyStep(s, i);
      if s[i] == '\\' {
        if i + 1 < |s| {
          StringEndIsBody(s, i + 2);
        }
      } else {
        StringEndIsBody(s, i + 1);
      }
    }
  }

  method FindStringEnd(s: string, openIdx: nat) returns (end: Option<nat>)
    requires openIdx < |s| && s[openIdx] == '"'
    ensures end == Plus(openIdx + 1, StringBody(s[openIdx + 1..]))
  {
    StringEndIsBody(s, openIdx + 1);
    var i := openIdx + 1;
    while i < |s|
      invariant openIdx + 1 <= i <= |s|
      invariant StringEnd(s, i) == StringEnd(s, openIdx + 1)
    {
      if s[i] == '\\' {
        if i + 1 < |s| {
          i := i + 1;
        }
      } else if s[i] == '"' {
        return Some(i);
      }
      i := i + 1;
    }
    return None;
  }

  method SkipSpaceFrom(s: string, start: nat) returns (pos: nat)
    requires start <= |s|
    ensures start <= pos <= |s| && s[pos..] == SkipSpace(s[start..])
  {
    pos := start;
    while pos < |s|
      invariant start <= pos <= |s| && SkipSpace(s[start..]) == SkipSpace(s[pos..])
    {
      var c := s[pos];
      assert s[pos..][1..] == s[pos + 1..];
      if c == ' ' || c == '\t' || c == '\n' || c == '\r' {
        pos := pos + 1;
      } else if c == '#' {
        var hash := pos;
        while pos < |s| && s[pos] != '\n'
          invariant hash <= pos <= |s|
          invariant AfterLine(s[hash..]) == AfterLine(s[pos..])
        {
          assert s[pos..][1..] == s[pos + 1..];
          pos := pos + 1;
        }
      } else {
        return;
      }
    }
  }

  method AdvanceToTopComma(s: string, pos: nat) returns (next: nat)
    requires pos <= |s|
    ensures pos <= next <= |s| && s[next..] == AfterTopComma(s[pos..], 0, false)
  {
    var depth: nat, inString := 0, false;
    var i := pos;
    while i < |s|
      invariant pos <= i <= |s|
      invariant AfterTopComma(s[i..], depth, inString) == AfterTopComma(s[pos..], 0, false)
    {
      var c := s[i];
      assert s[i..][1..] == s[i + 1..] && (i + 1 < |s| ==> s[i..][2..] == s[i + 2..]);
      if inString {
        if c == '\\' && i + 1 < |s| {
          i := i + 2;
          continue;
        }
        if c == '"' {
          inString := false;
        }
        i := i + 1;
        continue;
      }
      if c == '"' {
        inString := true;
      } else if Opens(c) {
        depth := depth + 1;
      } else if Closes(c) {
        if depth > 0 {
          depth := depth - 1;
        }
      } else if c == ',' && depth == 0 {
        return i + 1;
      }
      i := i + 1;
    }
    return |s|;
  }

  // ---- the two regular expressions ----

  /** `\s` of Go's regular expressions. */
  predicate IsRegexSpace(c: char) {
    c == ' ' || c == '\t' || c == '\n' || c == '\r' || c == '\U{0c}'
  }

  function SkipRegexSpace(s: string): string {
    if s != "" && IsRegexSpace(s[0]) then SkipRegexSpace(s[1..]) else s
  }

  predicate IsAtomStart(c: char) {
    'A' <= c <= 'Z' || 'a' <= c <= 'z' || c == '_'
  }

  predicate IsWordChar(c: char) {
    IsAtomStart(c) || '0' <= c <= '9'
  }

  function WordLength(s: string): (n: nat)
    ensures n <= |s|
  {
    if s != "" && IsWordChar(s[0]) then 1 + WordLength(s[1..]) else 0
  }

  /** White space, then exactly this text; what is left. */
  function Eat(s: string, text: string): Option<string> {
    var rest := SkipRegexSpace(s);
    if text <= rest then Some(rest[|text|..]) else None
  }

  function Atom(s: string): Option<(string, string)> {
    var n := WordLength(s);
    if n > 0 && IsAtomStart(s[0]) then Some((s[..n], s[n..])) else None
  }

  /** `hexEntryRE`: the package atom and the version of a hex-sourced tuple. */
  function HexEntry(value: string): Option<Package> {
    var a :- Eat(value, "{");
    var b :- Eat(a, ":hex");
    var c :- Eat(b, ",");
    var d :- Eat(c, ":");
    var (name, e) :- Atom(d);
    var f :- Eat(e, ",");
    var g :- Eat(f, "\"");
    var end := IndexOf(g, '"');
    if end > 0 then Some(Package(name, g[..end])) else None
  }

  /** `otherSourceRE`: the source atom of any tuple. */
  function SourceAtom(value: string): Option<string> {
    var a :- Eat(value, "{");
    var b :- Eat(a, ":");
    var (name, _) :- Atom(b);
    Some(name)
  }

  // ---- the parser ----

  /** Add a package unless the same name and version was seen before. */
  function AddPackage(packages: seq<Package>, p: Package): seq<Package> {
    if p in packages then packages else packages + [p]
  }

  /** The tuple that follows a key: the package or the warning it yields. */
  function TakeTuple(key: string, value: string, packages: seq<Package>, warnings: seq<Warning>): (seq<Package>,
                     seq<Warning>) {
    var hex := HexEntry(value);
    if hex.Some? then (AddPackage(packages, hex.value), warnings)
    else
      var source := SourceAtom(value);
      (packages, warnings + [if source.Some? then OtherSource(key, source.value) else Unrecognised(key)])
  }

  function AfterSeparator(s: string): Option<string> {
    if s != "" && s[0] == ':' then Some(s[1..])
    else if |s| > 1 && s[0] == '=' && s[1] == '>' then Some(s[2..])
    else None
  }

  function DropComma(s: string): string {
    if s != "" && s[0] == ',' then s[1..] else s
  }

  /** What one entry leaves: the rest of the map and what has been found, or a failure. */
  datatype Step = Next(rest: string, packages: seq<Package>, warnings: seq<Warning>) | Stop(failure: Failure)

  /** A tuple that starts here and ends `span` characters on. */
  function TupleStep(tuple: string, span: nat, key: string, packages: seq<Package>,
                     warnings: seq<Warning>): (step: Step)
    requires span <= |tuple|
    ensures step.Next? && |step.rest| <= |tuple|
  {
    var (packages', warnings') := TakeTuple(key, tuple[..span], packages, warnings);
    Next(DropComma(SkipSpace(tuple[span..])), packages', warnings')
  }

  /** The value after a key and its separator. */
  function ValueStep(s: string, key: string, packages: seq<Package>, warnings: seq<Warning>): (step: Step)
    ensures step.Next? ==> |step.rest| <= |s|
  {
    var tuple := SkipSpace(s);
    if tuple == "" || tuple[0] != '{' then Next(AfterTopComma(tuple, 0, false), packages, warnings + [NotATuple(key)])
    else
      var span := BraceSpan(tuple, 0, false);
      if span.None? then Stop(UnmatchedValue(key)) else TupleStep(tuple, span.value, key, packages, warnings)
  }

  /** What follows a key. */
  function KeyStep(s: string, key: string, packages: seq<Package>, warnings: seq<Warning>): (step: Step)
    ensures step.Next? ==> |step.rest| <= |s|
  {
    var after := SkipSpace(s);
    var separated := AfterSeparator(after);
    if separated.None? then Next(AfterTopComma(after, 0, false), packages, warnings + [MissingSeparator(key)])
    else ValueStep(separated.value, key, packages, warnings)
  }

  /** An entry, from behind the opening quote of its key. */
  function EntryStep(s: string, packages: seq<Package>, warnings: seq<Warning>): (step: Step)
    ensures step.Next? ==> |step.rest| <= |s|
  {
    var end := StringBody(s);
    if end.None? then Stop(UnterminatedKey) else KeyStep(s[end.value + 1..], s[..end.value], packages, warnings)
  }

  /** The loop of `parseMixLock` over what remains of the map. */
  function ParseBody(rest: string, packages: seq<Package>, warnings: seq<Warning>): Result
    decreases |rest|
  {
    var s := SkipSpace(rest);
    if s == "" then Parsed(packages, warnings)
    else if s[0] != '"' then ParseBody(s[1..], packages, warnings)
    else
      match EntryStep(s[1..], packages, warnings)
      case Stop(failure) => Failed(failure)
      case Next(left, packages', warnings') => ParseBody(left, packages', warnings')
  }

  /** The position of the first "%{". */
  function MapStart(s: string): (i: Option<nat>)
    ensures i.Some? ==> i.value + 1 < |s| && s[i.value + 1] == '{'
  {
    if |s| < 2 then None
    else if s[0] == '%' && s[1] == '{' then Some(0)
    else Plus(1, MapStart(s[1..]))
  }

  predicate OpensMap(s: string, i: nat) {
    i + 1 < |s| && s[i] == '%' && s[i + 1] == '{'
  }

  /** The map starts at the first "%{", and there is none exactly when the text has no "%{". */
  lemma {:induction false} MapStartIsFirst(s: string)
    ensures MapStart(s).None? <==> forall i: nat :: !OpensMap(s, i)
    ensures MapStart(s).Some? ==> OpensMap(s, MapStart(s).value) && forall i: nat :: OpensMap(s, i) ==>
      MapStart(s).value <= i
  {
    if |s| >= 2 && !OpensMap(s, 0) {
      MapStartIsFirst(s[1..]);
      forall i: nat
        ensures OpensMap(s, i) <==> i > 0 && OpensMap(s[1..], i - 1)
      {
      }
      forall i: nat
        ensures OpensMap(s[1..], i) ==> OpensMap(s, i + 1)
      {
      }
    }
  }

  function Parse(s: string): Result {
    var outer := MapStart(s);
    if outer.None? then Failed(NoMap)
    else
      var open := s[outer.value + 1..];
      var span := BraceSpan(open, 0, false);
      if span.None? then Failed(UnmatchedMap) else ParseBody(open[1..span.value - 1], [], [])
  }

  /** Where the loop continues after an entry, and what it has found, or why it fails. */
  datatype Entry = Continue(pos: nat, packages: seq<Package>, warnings: seq<Warning>) | Fail(failure: Failure)

  predicate Matches(e: Entry, step: Step, body: string, start: nat) {
    match e
    case Continue(pos, packages, warnings) => start <= pos <= |body| && step == Next(body[pos..], packages, warnings)
    case Fail(failure) => step == Stop(failure)
  }

  lemma Suffix(s: string, i: nat, n: nat)
    requires i + n <= |s|
    ensures s[i..][n..] == s[i + n..] && s[i..][..n] == s[i..i + n]
  {
  }

  method SkipComma(body: string, start: nat) returns (next: nat)
    requires start <= |body|
    ensures start <= next <= |body| && body[next..] == DropComma(SkipSpace(body[start..]))
  {
    next := SkipSpaceFrom(body, start);
    if next < |body| && body[next] == ',' {
      Suffix(body, next, 1);
      next := next + 1;
    }
  }

  method ParseTuple(body: string, pos: nat, end: nat, key: string, packages: seq<Package>, warnings: seq<Warning>)
    returns (e: Entry)
    requires pos <= end <= |body|
    ensures Matches(e, TupleStep(body[pos..], end - pos, key, packages, warnings), body, pos)
  {
    Suffix(body, pos, end - pos);
    var next := SkipComma(body, end);
    var (packages', warnings') := TakeTuple(key, body[pos..end], packages, warnings);
    e := Continue(next, packages', warnings');
  }

  method ParseValue(body: string, start: nat, key: string, packages: seq<Package>, warnings: seq<Warning>)
    returns (e: Entry)
    requires start <= |body|
    ensures Matches(e, ValueStep(body[start..], key, packages, warnings), body, start)
  {
    var pos := SkipSpaceFrom(body, start);
    if pos >= |body| || body[pos] != '{' {
      var next := AdvanceToTopComma(body, pos);
      return Continue(next, packages, warnings + [NotATuple(key)]);
    }
    var valueEnd := MatchBrace(body, pos);
    if valueEnd.None? {
      return Fail(UnmatchedValue(key));
    }
    e := ParseTuple(body, pos, valueEnd.value + 1, key, packages, warnings);
  }

  method ParseAfterKey(body: string, start: nat, key: string, packages: seq<Package>, warnings: seq<Warning>)
    returns (e: Entry)
    requires start <= |body|
    ensures Matches(e, KeyStep(body[start..], key, packages, warnings), body, start)
  {
    var pos := SkipSpaceFrom(body, start);
    if pos < |body| && body[pos] == ':' {
      assert body[pos..][1..] == body[pos + 1..];
      e := ParseValue(body, pos + 1, key, packages, warnings);
    } else if pos + 1 < |body| && body[pos] == '=' && body[pos + 1] == '>' {
      assert body[pos..][2..] == body[pos + 2..];
      e := ParseValue(body, pos + 2, key, packages, warnings);
    } else {
      var next := AdvanceToTopComma(body, pos);
      e := Continue(next, packages, warnings + [MissingSeparator(key)]);
    }
  }

  method ParseEntry(body: string, start: nat, packages: seq<Package>, warnings: seq<Warning>) returns (e: Entry)
    requires start < |body| && body[start] == '"'
    ensures Matches(e, EntryStep(body[start + 1..], packages, warnings), body, start + 1)
  {
    var keyEnd := FindStringEnd(body, start);
    if keyEnd.None? {
      return Fail(UnterminatedKey);
    }
    var key := body[start + 1..keyEnd.value];
    assert key == body[start + 1..][..keyEnd.value - start - 1];
    assert body[start + 1..][keyEnd.value - start..] == body[keyEnd.value + 1..];
    e := ParseAfterKey(body, keyEnd.value + 1, key, packages, warnings);
  }

  /** One turn of the loop below leaves the result as it was. */
  lemma ParseBodySkips(body: string, start: nat, packages: seq<Package>, warnings: seq<Warning>)
    requires start < |body| && SkipSpace(body[start..]) == body[start..] && body[start] != '"'
    ensures ParseBody(body[start..], packages, warnings) == ParseBody(body[start + 1..], packages, warnings)
  {
    Suffix(body, start, 1);
  }

  lemma ParseBodyEntry(body: string, start: nat, packages: seq<Package>, warnings: seq<Warning>, e: Entry)
    requires start < |body| && SkipSpace(body[start..]) == body[start..] && body[start] == '"'
    requires Matches(e, EntryStep(body[start + 1..], packages, warnings), body, start + 1)
    ensures ParseBody(body[start..], packages, warnings) ==
      match e
      case Continue(pos, packages', warnings') => ParseBody(body[pos..], packages', warnings')
      case Fail(failure) => Failed(failure)
  {
    Suffix(body, start, 1);
  }

  /** The loop of `parseMixLock`: every scan stays within the text, and every turn advances. */
  method ParseMap(body: string) returns (r: Result)
    ensures r == ParseBody(body, [], [])
  {
    var packages: seq<Package>, warnings: seq<Warning> := [], [];
    var pos := 0;
    assert body[0..] == body;
    while pos < |body|
      invariant pos <= |body| && ParseBody(body[pos..], packages, warnings) == ParseBody(body, [], [])
      decreases |body| - pos
    {
      var start := SkipSpaceFrom(body, pos);
      SkippedStops(body[pos..]);
      SkipSpaceTwice(body[pos..], packages, warnings);
      if start >= |body| {
        return Parsed(packages, warnings);
      }
      if body[start] != '"' {
        ParseBodySkips(body, start, packages, warnings);
        pos := start + 1;
        continue;
      }
      var e := ParseEntry(body, start, packages, warnings);
      ParseBodyEntry(body, start, packages, warnings, e);
      if e.Fail? {
        return Failed(e.failure);
      }
      pos, packages, warnings := e.pos, e.packages, e.warnings;
    }
    r := Parsed(packages, warnings);
  }

  /** `parseMixLock`. */
  method ParseMixLock(s: string) returns (r: Result)
    ensures r == Parse(s)
  {
    var outer := MapStart(s);
    if outer.None? {
      return Failed(NoMap);
    }
    var closeBrace := MatchBrace(s, outer.value + 1);
    if closeBrace.None? {
      return Failed(UnmatchedMap);
    }
    Middle(s, outer.value + 1, 1, closeBrace.value - outer.value - 1);
    r := ParseMap(s[outer.value + 2..closeBrace.value]);
  }

  lemma Middle(s: string, i: nat, lo: nat, hi: nat)
    requires lo <= hi && i + hi <= |s|
    ensures s[i..][lo..hi] == s[i + lo..i + hi]
  {
  }

  lemma {:induction false} SkippedStops(s: string)
    ensures SkipSpace(SkipSpace(s)) == SkipSpace(s)
    decreases |s|
  {
    if s != "" && IsSpace(s[0]) {
      SkippedStops(s[1..]);
    } else if s != "" && s[0] == '#' {
      SkippedStops(AfterLine(s));
    }
  }

  lemma SkipSpaceTwice(s: string, packages: seq<Package>, warnings: seq<Warning>)
    ensures ParseBody(s, packages, warnings) == ParseBody(SkipSpace(s), packages, warnings)
  {
    SkippedStops(s);
  }
}
