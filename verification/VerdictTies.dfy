/** When two distinct bases do compare equal, the memoised search can report too low a status. */
module VerdictTies {
  import opened Versions
  import opened Payloads
  import opened Verdicts
  import opened VerdictMeaning
  import opened VerdictExact

  function Exact(version: string, level: Level): SigInfo {
    SigInfo(ContributingDecision("s", [], level, "", "", false, KindExact, version, "", ""), false, version, "", "")
  }

  function Delta(from: string, to: string, level: Level): SigInfo {
    SigInfo(ContributingDecision("s", [], level, "", "", false, KindDelta, "", from, to), true, "", from, to)
  }

  /** An allowed version `a` with an allowed delta from it, and a vetted delta from `b`. */
  function TwoBases(a: string, b: string, x: string, y: string): seq<SigInfo> {
    [Exact(a, Allowed), Delta(a, x, Allowed), Delta(b, y, Vetted)]
  }

  lemma TiedCoverage(a: string, b: string, x: string, y: string)
    requires AtMost(a, x) && AtMost(b, y) && Tied(a, b)
    ensures Covers(Delta(a, x, Allowed), a) && Covers(Delta(a, x, Allowed), b)
    ensures Covers(Delta(b, y, Vetted), a) && Covers(Delta(b, y, Vetted), b)
  {
    VersionsConsistent(a, b, y);
    VersionsConsistent(b, a, x);
    VersionsConsistent(a, a, a);
    VersionsConsistent(b, b, b);
  }

  /** While `a` is in progress nothing is known about `b`, although `a` is trusted. */
  lemma TiedInner(a: string, b: string, x: string, y: string)
    requires a != b && AtMost(a, x) && AtMost(b, y) && Tied(a, b)
    ensures Resolve(b, TwoBases(a, b, x, y), map[], {a}) == (UNKNOWN, map[b := UNKNOWN])
  {
    var sigs, resolving := TwoBases(a, b, x, y), {a} + {b};
    TiedCoverage(a, b, x, y);
    assert a in resolving && b in resolving;
    assert Gather(b, sigs, 3, map[], resolving) == ([], map[]);
    assert Resolve(b, sigs, map[], resolving) == (UNKNOWN, map[]);
    assert Gather(b, sigs, 2, map[], resolving) == ([], map[]);
    assert Resolve(a, sigs, map[], resolving) == (UNKNOWN, map[]);
    assert Gather(b, sigs, 1, map[], resolving) == ([], map[]);
    assert Gather(b, sigs, 0, map[], resolving) == ([], map[]);
  }

  lemma TiedOuter(a: string, b: string, x: string, y: string)
    requires a != b && AtMost(a, x) && AtMost(b, y) && Tied(a, b)
    ensures Gather(a, TwoBases(a, b, x, y), 0, map[], {a}).0 == [Exact(a, Allowed).decision]
  {
    var sigs := TwoBases(a, b, x, y);
    var seen: Cache := map[b := UNKNOWN];
    TiedCoverage(a, b, x, y);
    TiedInner(a, b, x, y);
    assert Gather(a, sigs, 3, seen, {a}) == ([], seen);
    assert Gather(a, sigs, 2, map[], {a}) == ([], seen);
    assert Resolve(a, sigs, map[], {a}) == (UNKNOWN, map[]);
    assert Gather(a, sigs, 1, map[], {a}) == ([], seen);
  }

  lemma TiedLookup(a: string, b: string, x: string, y: string)
    requires a != b && AtMost(a, x) && AtMost(b, y) && Tied(a, b)
    ensures Resolve(a, TwoBases(a, b, x, y), map[], {}).0.status == StatusAllowed
  {
    TiedOuter(a, b, x, y);
    assert {} + {a} == {a};
    assert Exact(a, Allowed).decision in [Exact(a, Allowed).decision];
  }

  lemma TiedMeaning(a: string, b: string, x: string, y: string)
    requires a != b && AtMost(a, x) && AtMost(b, y) && Tied(a, b)
    ensures Meaning(TwoBases(a, b, x, y), a).status == StatusVetted
  {
    var sigs := TwoBases(a, b, x, y);
    TiedCoverage(a, b, x, y);
    assert sigs[0] in sigs && sigs[1] in sigs && sigs[2] in sigs;
    assert !IsRejected(sigs, a) && !IsRejected(sigs, b);
    assert TrustedWithin(sigs, a, 1) by {
      assert Names(sigs[0], a);
    }
    assert TrustedWithin(sigs, b, 2) by {
      assert Covers(sigs[1], b) && TrustedWithin(sigs, sigs[1].fromVersion, 1);
    }
    assert Trusted(sigs, b);
    assert Contributes(sigs, sigs[2], a);
    MeaningByMembership(sigs, a);
    assert HasLevel(Contributions(sigs, a, 0), Vetted);
    MeaningStatus(sigs, a);
  }

  lemma BasesOfTwo(a: string, b: string, x: string, y: string)
    ensures Bases(TwoBases(a, b, x, y)) <= {a, b}
  {
  }

  lemma TwoBasesOnly(a: string, b: string, x: string, y: string)
    requires !Tied(a, b)
    ensures NoTiedBases(TwoBases(a, b, x, y))
  {
    BasesOfTwo(a, b, x, y);
    VersionsConsistent(a, b, a);
    UntiedPair(Bases(TwoBases(a, b, x, y)), a, b);
  }

  lemma UntiedPair(bases: set<string>, a: string, b: string)
    requires bases <= {a, b} && !Tied(a, b) && !Tied(b, a)
    ensures forall u, v :: u in bases && v in bases && Tied(u, v) ==> u == v
  {
  }

  ghost predicate LookedUpExactly(sigs: seq<SigInfo>) {
    forall v :: Resolve(v, sigs, map[], {}).0 == Meaning(sigs, v)
  }

  lemma NoTiesLookedUpExactly(sigs: seq<SigInfo>)
    requires NoTiedBases(sigs)
    ensures LookedUpExactly(sigs)
  {
    forall v
      ensures Resolve(v, sigs, map[], {}).0 == Meaning(sigs, v)
    {
      ResolveExact(v, sigs, map[], {});
    }
  }

  lemma TiedNotLookedUpExactly(a: string, b: string, x: string, y: string)
    requires a != b && AtMost(a, x) && AtMost(b, y) && Tied(a, b)
    ensures !LookedUpExactly(TwoBases(a, b, x, y))
  {
    TiedLookup(a, b, x, y);
    TiedMeaning(a, b, x, y);
  }

  /** There are tied versions: a leading "v" is dropped before comparing. */
  lemma TiedSpellings()
    ensures "1.0" != "v1.0" && Tied("1.0", "v1.0")
  {
    assert "v1.0"[1..] == "1.0";
    VersionsConsistent("1.0", "1.0", "1.0");
    assert SplitPreRelease("v1.0") == SplitPreRelease("1.0");
  }

  /** For any two bases these three signatures are looked up exactly, at every version, if and only if
      the two do not compare equal. */
  lemma ExactIffNotTied(a: string, b: string, x: string, y: string)
    requires a != b && AtMost(a, x) && AtMost(b, y)
    ensures LookedUpExactly(TwoBases(a, b, x, y)) <==> !Tied(a, b)
  {
    if Tied(a, b) {
      TiedNotLookedUpExactly(a, b, x, y);
    } else {
      TwoBasesOnly(a, b, x, y);
      NoTiesLookedUpExactly(TwoBases(a, b, x, y));
    }
  }

  ghost predicate AllLookedUpExactly(bases: set<string>) {
    forall sigs :: Bases(sigs) <= bases ==> LookedUpExactly(sigs)
  }

  /** For any set of versions: whatever signatures have their bases in it are looked up exactly, at
      every version, if and only if no two of its versions tie. */
  lemma ExactIffNoTies(bases: set<string>)
    ensures AllLookedUpExactly(bases) <==> forall a, b :: a in bases && b in bases && Tied(a, b) ==> a == b
  {
    if AllLookedUpExactly(bases) {
      forall a, b | a in bases && b in bases && Tied(a, b)
        ensures a == b
      {
        if a != b {
          VersionsConsistent(a, b, a);
          BasesOfTwo(a, b, b, a);
          ExactIffNotTied(a, b, b, a);
        }
      }
    }
    if forall a, b :: a in bases && b in bases && Tied(a, b) ==> a == b {
      forall sigs | Bases(sigs) <= bases
        ensures LookedUpExactly(sigs)
      {
        NoTiesLookedUpExactly(sigs);
      }
    }
  }

  /** Tied bases are a real input: two spellings of one version, each the base of a delta to the
      other, one allowed and one vetted. */
  lemma TiesAreLookedUpWrong()
    ensures Resolve("1.0", TwoBases("1.0", "v1.0", "v1.0", "1.0"), map[], {}).0.status == StatusAllowed
    ensures Meaning(TwoBases("1.0", "v1.0", "v1.0", "1.0"), "1.0").status == StatusVetted
  {
    TiedSpellings();
    VersionsConsistent("1.0", "v1.0", "1.0");
    TiedLookup("1.0", "v1.0", "v1.0", "1.0");
    TiedMeaning("1.0", "v1.0", "v1.0", "1.0");
  }
}
