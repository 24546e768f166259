/** Three-way comparators, as Go's `cmp.Compare` and `strings.Compare` give them, and the laws
    that make one a total preorder.

    `Laws` speaks of a whole comparator; `Consistent` speaks of one triple of results, which is
    the form that composes: comparators chained with `Then` and comparators lifted to lists keep
    it one position at a time. */
module Order {

  ghost predicate Laws<T(!new)>(compare: (T, T) -> int) {
    && (forall a, b :: compare(a, b) == -compare(b, a))
    && (forall a, b, c :: compare(a, b) <= 0 && compare(b, c) <= 0 ==> compare(a, c) <= 0)
  }

  /** The results `ab`, `bc` and `ac` of comparing three things pairwise fit one ordering. */
  predicate Consistent(ab: int, bc: int, ac: int) {
    && (ab <= 0 && bc <= 0 ==> ac <= 0 && (ac == 0 ==> ab == 0 && bc == 0))
    && (ab >= 0 && bc >= 0 ==> ac >= 0 && (ac == 0 ==> ab == 0 && bc == 0))
  }

  lemma TripleConsistent<T(!new)>(compare: (T, T) -> int, a: T, b: T, c: T)
    requires Laws(compare)
    ensures Consistent(compare(a, b), compare(b, c), compare(a, c))
  {
    assert compare(b, c) == -compare(c, b) && compare(a, b) == -compare(b, a) && compare(a, c) == -compare(c, a);
  }

  /** Use the second comparison only when the first is a tie. */
  function Then(first: int, second: int): int {
    if first != 0 then first else second
  }

  function CompareInts(a: int, b: int): int {
    if a < b then -1 else if a > b then 1 else 0
  }

  function CompareChars(a: char, b: char): int {
    if a < b then -1 else if a > b then 1 else 0
  }

  /** Compare two runs position by position; a run that ends first is the smaller. */
  function CompareRuns<T>(compare: (T, T) -> int, a: seq<T>, b: seq<T>): int
    decreases |a|
  {
    if a == [] then (if b == [] then 0 else -1)
    else if b == [] then 1
    else Then(compare(a[0], b[0]), CompareRuns(compare, a[1..], b[1..]))
  }

  /** Compare two runs position by position; a run that ends first is continued with `pad`. */
  function ComparePadded<T>(compare: (T, T) -> int, pad: T, a: seq<T>, b: seq<T>): int
    decreases |a| + |b|
  {
    if a == [] && b == [] then 0
    else Then(compare(Head(a, pad), Head(b, pad)), ComparePadded(compare, pad, Tail(a), Tail(b)))
  }

  function Head<T>(s: seq<T>, pad: T): T {
    if s == [] then pad else s[0]
  }

  function Tail<T>(s: seq<T>): seq<T> {
    if s == [] then [] else s[1..]
  }

  ghost function From<T>(s: seq<T>, i: nat): seq<T> {
    if i <= |s| then s[i..] else []
  }

  /** Byte-wise string order. */
  function CompareStrings(a: string, b: string): int {
    CompareRuns(CompareChars, a, b)
  }

  lemma {:induction false} RunsConsistent<T(!new)>(compare: (T, T) -> int, a: seq<T>, b: seq<T>, c: seq<T>)
    requires Laws(compare)
    ensures CompareRuns(compare, a, b) == -CompareRuns(compare, b, a)
    ensures Consistent(CompareRuns(compare, a, b), CompareRuns(compare, b, c), CompareRuns(compare, a, c))
    decreases |a| + |b|
  {
    if a != [] && b != [] {
      RunsConsistent(compare, a[1..], b[1..], Tail(c));
      if c != [] {
        TripleConsistent(compare, a[0], b[0], c[0]);
      }
    }
  }

  lemma {:induction false} PaddedConsistent<T(!new)>(compare: (T, T) -> int, pad: T, a: seq<T>, b: seq<T>, c: seq<T>)
    requires Laws(compare)
    ensures ComparePadded(compare, pad, a, b) == -ComparePadded(compare, pad, b, a)
    ensures Consistent(ComparePadded(compare, pad, a, b), ComparePadded(compare, pad, b, c),
      ComparePadded(compare, pad, a, c))
    decreases |a| + |b| + |c|
  {
    if a != [] || b != [] || c != [] {
      TripleConsistent(compare, Head(a, pad), Head(b, pad), Head(c, pad));
      PaddedConsistent(compare, pad, Tail(a), Tail(b), Tail(c));
    }
  }

  lemma {:induction false} RunsEqual<T(!new)>(compare: (T, T) -> int, a: seq<T>, b: seq<T>)
    requires forall x, y :: compare(x, y) == 0 <==> x == y
    ensures CompareRuns(compare, a, b) == 0 <==> a == b
  {
    if a != [] && b != [] {
      RunsEqual(compare, a[1..], b[1..]);
      assert a == [a[0]] + a[1..] && b == [b[0]] + b[1..];
    }
  }

  lemma StringsConsistent(a: string, b: string, c: string)
    ensures CompareStrings(a, b) == -CompareStrings(b, a)
    ensures Consistent(CompareStrings(a, b), CompareStrings(b, c), CompareStrings(a, c))
    ensures CompareStrings(a, b) == 0 <==> a == b
  {
    RunsConsistent(CompareChars, a, b, c);
    RunsEqual(CompareChars, a, b);
  }

  lemma StringsLaws()
    ensures Laws(CompareStrings)
  {
    forall a: string, b: string, c: string
      ensures CompareStrings(a, b) == -CompareStrings(b, a)
      ensures CompareStrings(a, b) <= 0 && CompareStrings(b, c) <= 0 ==> CompareStrings(a, c) <= 0
    {
      StringsConsistent(a, b, c);
    }
  }

  /** The order of strings, written out: the first different character decides, and a string comes
      before its extensions. */
  ghost predicate StringPrecedes(a: string, b: string) {
    exists i: nat :: i <= |a| && i < |b| && a[..i] == b[..i] && (i < |a| ==> a[i] < b[i])
  }

  lemma {:induction false} StringOrder(a: string, b: string)
    ensures CompareStrings(a, b) < 0 <==> StringPrecedes(a, b)
    ensures CompareStrings(a, b) == -1 || CompareStrings(a, b) == 0 || CompareStrings(a, b) == 1
  {
    if a == "" || b == "" {
      assert b != "" ==> a[..0] == b[..0];
    } else if a[0] == b[0] {
      StringOrder(a[1..], b[1..]);
      StringShift(a, b);
    } else {
      assert a[..0] == b[..0];
      forall i: nat | 0 < i && i <= |a| && i <= |b|
        ensures a[..i] != b[..i]
      {
        assert a[..i][0] == a[0] && b[..i][0] == b[0];
      }
    }
  }

  lemma StringShift(a: string, b: string)
    requires a != "" && b != "" && a[0] == b[0]
    ensures StringPrecedes(a, b) <==> StringPrecedes(a[1..], b[1..])
  {
    forall i: nat | i + 1 <= |a| && i + 1 <= |b|
      ensures a[..i + 1] == b[..i + 1] <==> a[1..][..i] == b[1..][..i]
    {
      assert a[..i + 1] == [a[0]] + a[1..][..i] && b[..i + 1] == [b[0]] + b[1..][..i];
      assert a[1..][..i] == a[..i + 1][1..] && b[1..][..i] == b[..i + 1][1..];
    }
    if i: nat :| i <= |a| && i < |b| && a[..i] == b[..i] && (i < |a| ==> a[i] < b[i]) {
      assert i > 0;
      var j: nat := i - 1;
      assert a[..j + 1] == b[..j + 1];
      assert j <= |a[1..]| && j < |b[1..]| && a[1..][..j] == b[1..][..j];
    }
    var x, y := a[1..], b[1..];
    if j: nat :| j <= |x| && j < |y| && x[..j] == y[..j] && (j < |x| ==> x[j] < y[j]) {
      assert a[..j + 1] == b[..j + 1];
    }
  }

  /** The runs tie at every position before `i`. */
  ghost predicate TieBefore<T(!new)>(compare: (T, T) -> int, a: seq<T>, b: seq<T>, i: nat)
    requires i <= |a| && i <= |b|
  {
    forall k :: 0 <= k < i ==> compare(a[k], b[k]) == 0
  }

  /** The first position where the runs do not tie is `i`, and `a` is the smaller or ends there. */
  ghost predicate DecidedAt<T(!new)>(compare: (T, T) -> int, a: seq<T>, b: seq<T>, i: nat) {
    i <= |a| && i < |b| && TieBefore(compare, a, b, i) && (i < |a| ==> compare(a[i], b[i]) < 0)
  }

  lemma {:induction false} RunsDecided<T(!new)>(compare: (T, T) -> int, a: seq<T>, b: seq<T>)
    ensures CompareRuns(compare, a, b) < 0 <==> exists i: nat :: DecidedAt(compare, a, b, i)
    ensures CompareRuns(compare, a, b) == 0 <==> |a| == |b| && TieBefore(compare, a, b, |a|)
  {
    if a == [] || b == [] {
      assert b != [] ==> DecidedAt(compare, a, b, 0);
    } else {
      RunsDecided(compare, a[1..], b[1..]);
      DecidedShift(compare, a, b);
    }
  }

  lemma DecidedShift<T(!new)>(compare: (T, T) -> int, a: seq<T>, b: seq<T>)
    requires a != [] && b != []
    ensures DecidedAt(compare, a, b, 0) <==> compare(a[0], b[0]) < 0
    ensures forall i: nat :: DecidedAt(compare, a, b, i + 1) <==>
      compare(a[0], b[0]) == 0 && DecidedAt(compare, a[1..], b[1..], i)
    ensures (exists i: nat :: DecidedAt(compare, a, b, i)) <==>
      compare(a[0], b[0]) < 0
      || (compare(a[0], b[0]) == 0 && exists i: nat :: DecidedAt(compare, a[1..], b[1..], i))
    ensures |a| == |b| ==> (TieBefore(compare, a, b, |a|) <==>
      compare(a[0], b[0]) == 0 && TieBefore(compare, a[1..], b[1..], |a| - 1))
  {
    forall i: nat | i < |a| && i < |b|
      ensures TieBefore(compare, a, b, i + 1) <==>
        compare(a[0], b[0]) == 0 && TieBefore(compare, a[1..], b[1..], i)
    {
      TieShifted(compare, a, b, i);
    }
    if i: nat :| DecidedAt(compare, a, b, i) {
      if i > 0 {
        var j: nat := i - 1;
        assert DecidedAt(compare, a, b, j + 1);
        assert DecidedAt(compare, a[1..], b[1..], j);
      }
    }
    if compare(a[0], b[0]) < 0 {
      assert DecidedAt(compare, a, b, 0);
    } else if compare(a[0], b[0]) == 0 {
      if i: nat :| DecidedAt(compare, a[1..], b[1..], i) {
        assert DecidedAt(compare, a, b, i + 1);
      }
    }
  }

  lemma TieShifted<T(!new)>(compare: (T, T) -> int, a: seq<T>, b: seq<T>, i: nat)
    requires i < |a| && i < |b|
    ensures TieBefore(compare, a, b, i + 1) <==> compare(a[0], b[0]) == 0 && TieBefore(compare, a[1..], b[1..], i)
  {
    if compare(a[0], b[0]) == 0 && TieBefore(compare, a[1..], b[1..], i) {
      forall k | 0 <= k < i + 1
        ensures compare(a[k], b[k]) == 0
      {
        assert k > 0 ==> a[k] == a[1..][k - 1] && b[k] == b[1..][k - 1];
      }
    }
    if TieBefore(compare, a, b, i + 1) {
      forall k | 0 <= k < i
        ensures compare(a[1..][k], b[1..][k]) == 0
      {
        assert a[1..][k] == a[k + 1] && b[1..][k] == b[k + 1];
      }
    }
  }

  // ---- sorting ----

  ghost predicate Sorted<T>(compare: (T, T) -> int, s: seq<T>) {
    forall i, j :: 0 <= i < j < |s| ==> compare(s[i], s[j]) <= 0
  }

  /** Stands for Go's `sort.Slice`, which is not stable: only order and contents are promised. */
  method Sort<T(!new)>(compare: (T, T) -> int, s: seq<T>) returns (sorted: seq<T>)
    requires Laws(compare)
    ensures Sorted(compare, sorted) && multiset(sorted) == multiset(s)
  {
    sorted := [];
    for i := 0 to |s|
      invariant Sorted(compare, sorted) && multiset(sorted) == multiset(s[..i])
    {
      assert s[..i + 1] == s[..i] + [s[i]];
      sorted := Insert(compare, sorted, s[i]);
    }
    assert s[..|s|] == s;
  }

  method Insert<T(!new)>(compare: (T, T) -> int, sorted: seq<T>, x: T) returns (longer: seq<T>)
    requires Laws(compare) && Sorted(compare, sorted)
    ensures Sorted(compare, longer) && multiset(longer) == multiset(sorted) + multiset{x}
  {
    var k := |sorted|;
    while k > 0 && compare(x, sorted[k - 1]) < 0
      invariant 0 <= k <= |sorted|
      invariant forall j :: k <= j < |sorted| ==> compare(x, sorted[j]) < 0
    {
      k := k - 1;
    }
    if k > 0 {
      NotAfter(compare, sorted, k, x);
    }
    longer := Placed(compare, sorted, k, x);
  }

  lemma NotAfter<T(!new)>(compare: (T, T) -> int, sorted: seq<T>, k: nat, x: T)
    requires Laws(compare) && Sorted(compare, sorted) && 0 < k <= |sorted| && compare(x, sorted[k - 1]) >= 0
    ensures forall j :: 0 <= j < k ==> compare(sorted[j], x) <= 0
  {
    assert compare(sorted[k - 1], x) == -compare(x, sorted[k - 1]);
  }

  function Placed<T>(compare: (T, T) -> int, sorted: seq<T>, k: nat, x: T): (longer: seq<T>)
    requires Sorted(compare, sorted) && k <= |sorted|
    requires forall j :: 0 <= j < k ==> compare(sorted[j], x) <= 0
    requires forall j :: k <= j < |sorted| ==> compare(x, sorted[j]) < 0
    ensures Sorted(compare, longer) && multiset(longer) == multiset(sorted) + multiset{x}
  {
    InsertedSorted(compare, sorted, k, x);
    assert sorted == sorted[..k] + sorted[k..];
    sorted[..k] + [x] + sorted[k..]
  }

  lemma InsertedSorted<T>(compare: (T, T) -> int, sorted: seq<T>, k: nat, x: T)
    requires Sorted(compare, sorted) && k <= |sorted|
    requires forall j :: 0 <= j < k ==> compare(sorted[j], x) <= 0
    requires forall j :: k <= j < |sorted| ==> compare(x, sorted[j]) <= 0
    ensures Sorted(compare, sorted[..k] + [x] + sorted[k..])
  {
    var longer := sorted[..k] + [x] + sorted[k..];
    assert forall j :: k < j < |longer| ==> longer[j] == sorted[j - 1];
  }

  lemma SameMembers<T>(a: seq<T>, b: seq<T>)
    requires multiset(a) == multiset(b)
    ensures forall x :: x in a <==> x in b
  {
    forall x
      ensures x in a <==> x in b
    {
      assert x in a <==> x in multiset(a);
      assert x in b <==> x in multiset(b);
    }
  }
}
