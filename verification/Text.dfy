/** The string operations of Go's standard library that the modelled code calls, on strings as
    sequences of characters: `strings.Split`, `strings.Index`, `strconv.Atoi`. */
module Text {

  datatype Option<+T> = None | Some(value: T) {
    predicate IsFailure() {
      None?
    }

    function PropagateFailure<U>(): Option<U>
      requires None?
    {
      None
    }

    function Extract(): T
      requires Some?
    {
      value
    }
  }

  /** The position of the first `c`, or -1. */
  function IndexOf(s: string, c: char): (i: int)
    ensures -1 <= i < |s|
  {
    if s == "" then -1
    else if s[0] == c then 0
    else
      var rest := IndexOf(s[1..], c);
      if rest < 0 then -1 else rest + 1
  }

  lemma {:induction false} IndexOfIsFirst(s: string, c: char)
    ensures IndexOf(s, c) == -1 <==> c !in s
    ensures IndexOf(s, c) >= 0 ==> s[IndexOf(s, c)] == c && c !in s[..IndexOf(s, c)]
  {
    if s != "" && s[0] != c {
      var rest := IndexOf(s[1..], c);
      IndexOfIsFirst(s[1..], c);
      assert s == [s[0]] + s[1..];
      if rest >= 0 {
        assert s[..rest + 1] == [s[0]] + s[1..][..rest];
      }
    }
  }

  /** The parts of `s` between separators; there is always at least one. */
  function Split(s: string, sep: char): (parts: seq<string>)
    ensures |parts| >= 1
  {
    if s == "" then [""]
    else
      var rest := Split(s[1..], sep);
      if s[0] == sep then [""] + rest else [[s[0]] + rest[0]] + rest[1..]
  }

  function Join(parts: seq<string>, sep: char): string
    requires |parts| >= 1
  {
    if |parts| == 1 then parts[0] else parts[0] + [sep] + Join(parts[1..], sep)
  }

  lemma {:induction false} JoinSplit(s: string, sep: char)
    ensures Join(Split(s, sep), sep) == s
  {
    if s != "" {
      JoinSplit(s[1..], sep);
      JoinFirst(Split(s[1..], sep), s[0], sep);
      assert s == [s[0]] + s[1..];
    }
  }

  /** Starting a new part, or putting one more character in front of the first. */
  lemma JoinFirst(rest: seq<string>, c: char, sep: char)
    requires |rest| >= 1
    ensures Join([""] + rest, sep) == [sep] + Join(rest, sep)
    ensures Join([[c] + rest[0]] + rest[1..], sep) == [c] + Join(rest, sep)
  {
    assert ([""] + rest)[1..] == rest;
    assert ([[c] + rest[0]] + rest[1..])[1..] == rest[1..];
  }

  /** Joining and splitting are inverse on parts without the separator. */
  lemma {:induction false} SplitJoin(parts: seq<string>, sep: char)
    requires |parts| >= 1 && forall p :: p in parts ==> sep !in p
    ensures Split(Join(parts, sep), sep) == parts
  {
    assert parts[0] + "" == parts[0];
    if |parts| == 1 {
      SplitPrefix(parts[0], "", sep);
      assert parts == [parts[0]];
    } else {
      var rest := Join(parts[1..], sep);
      var tail := [sep] + rest;
      SplitJoin(parts[1..], sep);
      assert tail[1..] == rest;
      assert Split(tail, sep) == [""] + parts[1..];
      SplitPrefix(parts[0], tail, sep);
      assert parts[0] + tail == Join(parts, sep);
      assert parts == [parts[0]] + parts[1..];
    }
  }

  /** Text before the first separator goes to the first part. */
  lemma {:induction false} SplitPrefix(front: string, rest: string, sep: char)
    requires sep !in front
    ensures Split(front + rest, sep) == [front + Split(rest, sep)[0]] + Split(rest, sep)[1..]
  {
    var tail := Split(rest, sep);
    if front == [] {
      assert front + rest == rest && front + tail[0] == tail[0];
    } else {
      assert (front + rest)[1..] == front[1..] + rest;
      assert front[0] in front && forall c :: c in front[1..] ==> c in front;
      SplitPrefix(front[1..], rest, sep);
      var inner := Split(front[1..] + rest, sep);
      assert inner[0] == front[1..] + tail[0] && inner[1..] == tail[1..];
      assert [front[0]] + inner[0] == front + tail[0];
    }
  }

  lemma {:induction false} IndexOfPrefix(front: string, rest: string, c: char)
    requires c !in front
    ensures IndexOf(front + rest, c) == if IndexOf(rest, c) < 0 then -1 else |front| + IndexOf(rest, c)
  {
    if front == [] {
      assert front + rest == rest;
    } else {
      assert (front + rest)[1..] == front[1..] + rest;
      assert front[0] in front && forall x :: x in front[1..] ==> x in front;
      IndexOfPrefix(front[1..], rest, c);
    }
  }

  predicate IsDigit(c: char) {
    '0' <= c <= '9'
  }

  predicate AllDigits(s: string) {
    forall c :: c in s ==> IsDigit(c)
  }

  function DigitValue(c: char): nat
    requires IsDigit(c)
  {
    c as int - '0' as int
  }

  function DigitsValue(s: string): nat
    requires AllDigits(s)
  {
    if s == "" then 0 else 10 * DigitsValue(s[..|s| - 1]) + DigitValue(s[|s| - 1])
  }

  const MIN_INT: int := -0x8000_0000_0000_0000
  const MAX_INT: int := 0x7fff_ffff_ffff_ffff

  /** `strconv.Atoi` on a 64-bit machine: an optional sign, at least one digit, nothing else, and
      the value must fit. */
  function Atoi(s: string): (n: Option<int>)
    ensures n.Some? ==> MIN_INT <= n.value <= MAX_INT
  {
    var signed := s != "" && (s[0] == '-' || s[0] == '+');
    var digits := if signed then s[1..] else s;
    if digits == "" || !AllDigits(digits) then None
    else
      var magnitude: int := DigitsValue(digits);
      var n := if s[0] == '-' then -magnitude else magnitude;
      if MIN_INT <= n <= MAX_INT then Some(n) else None
  }

  /** The value `strconv.Atoi` returns for digits, its error ignored: clamped to the largest int. */
  function Clamped(s: string): int
    requires AllDigits(s)
  {
    if DigitsValue(s) > MAX_INT then MAX_INT else DigitsValue(s)
  }

  /** The text of an int: digits behind an optional sign, with a value that fits 64 bits. */
  ghost predicate IsIntText(s: string, n: int) {
    && MIN_INT <= n <= MAX_INT
    && exists sign, digits ::
         && (sign == "" || sign == "-" || sign == "+") && digits != "" && AllDigits(digits) && s == sign + digits
         && (if sign == "-" then n + DigitsValue(digits) == 0 else n == DigitsValue(digits))
  }

  lemma AtoiMeans(s: string, n: int)
    ensures Atoi(s) == Some(n) <==> IsIntText(s, n)
  {
    if Atoi(s) == Some(n) {
      if s[0] == '-' || s[0] == '+' {
        assert s == s[..1] + s[1..] && s[..1] == [s[0]];
      } else {
        assert s == "" + s;
      }
    }
    if IsIntText(s, n) {
      var sign, digits :|
        && (sign == "" || sign == "-" || sign == "+") && digits != "" && AllDigits(digits) && s == sign + digits
        && (if sign == "-" then n + DigitsValue(digits) == 0 else n == DigitsValue(digits));
      assert digits[0] in digits;
      if sign == "" {
        assert s == digits;
      } else {
        assert s[0] == sign[0] && s[1..] == digits;
      }
    }
  }

  // ---- decimal numbers ----

  function DigitChar(d: nat): (c: char)
    requires d < 10
    ensures IsDigit(c) && DigitValue(c) == d
  {
    ('0' as int + d) as char
  }

  function Decimal(n: nat): (s: string)
    ensures s != "" && AllDigits(s)
  {
    if n < 10 then [DigitChar(n)] else Decimal(n / 10) + [DigitChar(n % 10)]
  }

  /** One or more digits without a superfluous leading zero. */
  predicate IsDecimal(s: string) {
    s != "" && AllDigits(s) && (|s| > 1 ==> s[0] != '0')
  }

  lemma {:induction false} DecimalValue(n: nat)
    ensures DigitsValue(Decimal(n)) == n && IsDecimal(Decimal(n)) && (Decimal(n)[0] == '0' ==> n == 0)
  {
    if n >= 10 {
      DecimalValue(n / 10);
      var s := Decimal(n);
      assert s[..|s| - 1] == Decimal(n / 10);
    } else {
      assert Decimal(n)[..0] == "";
    }
  }

  lemma {:induction false} DecimalOfValue(s: string)
    requires IsDecimal(s)
    ensures Decimal(DigitsValue(s)) == s
    ensures |s| > 1 ==> DigitsValue(s) >= 10
  {
    var front, last := s[..|s| - 1], s[|s| - 1];
    assert s == front + [last] && last in s;
    if |s| > 1 {
      FrontIsDecimal(s);
      DecimalOfValue(front);
      DecimalAppended(DigitsValue(front), last);
    } else {
      assert front == "" && s == [last];
    }
  }

  lemma DecimalAppended(n: nat, last: char)
    requires n > 0 && IsDigit(last)
    ensures Decimal(10 * n + DigitValue(last)) == Decimal(n) + [last]
  {
  }

  lemma FrontIsDecimal(s: string)
    requires IsDecimal(s) && |s| > 1
    ensures IsDecimal(s[..|s| - 1]) && (|s| == 2 ==> DigitsValue(s[..1]) > 0)
  {
    var front := s[..|s| - 1];
    assert (forall c :: c in front ==> c in s) && front[0] == s[0] && s[0] in s;
    if |s| == 2 {
      assert s[..1][..0] == "";
    }
  }

  lemma AtoiDecimal(s: string)
    requires IsDecimal(s)
    ensures Atoi(s) == if DigitsValue(s) <= MAX_INT then Some(DigitsValue(s)) else None
  {
    assert s[0] in s;
  }
}
