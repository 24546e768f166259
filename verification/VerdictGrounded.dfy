/** The memoised search is always grounded in the meaning of a verdict: for any signatures, cyclic
    deltas and bases that compare equal included. */
module VerdictGrounded {
  import opened Payloads
  import opened Verdicts
  import opened VerdictMeaning

  /** A reported decision is that of a signature that names the version, or covers it and either
      rejects or starts from a trusted base. */
  ghost predicate Grounded(sigs: seq<SigInfo>, version: string, d: ContributingDecision) {
    exists s :: s in sigs && s.decision == d
      && (Names(s, version) || (Covers(s, version) && (Rejects(s) || Trusted(sigs, s.fromVersion))))
  }

  ghost predicate GroundedFrom(sigs: seq<SigInfo>, version: string, k: nat, decisions: seq<ContributingDecision>) {
    && (forall d :: d in decisions ==> Grounded(sigs, version, d))
    && (forall i :: k <= i < |sigs| && Rejects(sigs[i]) && (Names(sigs[i], version) || Covers(sigs[i], version)) ==>
         sigs[i].decision in decisions)
  }

  ghost predicate VerdictGrounded(sigs: seq<SigInfo>, version: string, v: Verdict) {
    && v.status == Aggregate(v.decisions)
    && (forall d :: d in v.decisions ==> Grounded(sigs, version, d))
    && (v.status == StatusRejected <==> IsRejected(sigs, version))
    && (Approves(v.status) ==> Trusted(sigs, version))
  }

  ghost predicate CacheGrounded(sigs: seq<SigInfo>, cache: Cache) {
    forall v :: v in cache ==> VerdictGrounded(sigs, v, cache[v])
  }

  lemma AggregateGrounded(sigs: seq<SigInfo>, version: string, decisions: seq<ContributingDecision>)
    requires GroundedFrom(sigs, version, 0, decisions)
    ensures VerdictGrounded(sigs, version, Verdict(Aggregate(decisions), decisions))
  {
    TrustedIsFixedPoint(sigs, version);
    if IsRejected(sigs, version) {
      var s :| s in sigs && Rejects(s) && (Names(s, version) || Covers(s, version));
      var i :| 0 <= i < |sigs| && sigs[i] == s;
      assert s.decision in decisions;
    }
    if Approves(Aggregate(decisions)) {
      var d :| d in decisions && (d.level == Vetted || d.level == Allowed);
      assert Grounded(sigs, version, d);
      var s :| s in sigs && s.decision == d
        && (Names(s, version) || (Covers(s, version) && (Rejects(s) || Trusted(sigs, s.fromVersion))));
      assert TrustStep(sigs, v => Trusted(sigs, v), version);
    }
  }

  lemma {:induction false} ResolveGrounded(version: string, sigs: seq<SigInfo>, cache: Cache, resolving: set<string>)
    requires CacheGrounded(sigs, cache)
    ensures CacheGrounded(sigs, Resolve(version, sigs, cache, resolving).1)
    ensures var v := Resolve(version, sigs, cache, resolving).0;
      if version !in cache && version in resolving then v == UNKNOWN else VerdictGrounded(sigs, version, v)
    decreases Bases(sigs) - resolving, if version in Bases(sigs) then 0 else 2, 0
  {
    if version !in cache && version !in resolving {
      assert version in Bases(sigs) ==> version in Bases(sigs) - resolving;
      assert version !in Bases(sigs) ==> Bases(sigs) - (resolving + {version}) == Bases(sigs) - resolving;
      GatherGrounded(version, sigs, 0, cache, resolving + {version});
      AggregateGrounded(sigs, version, Gather(version, sigs, 0, cache, resolving + {version}).0);
    }
  }

  lemma {:induction false} GatherGrounded(version: string, sigs: seq<SigInfo>, k: nat, cache: Cache,
                                          resolving: set<string>)
    requires k <= |sigs| && CacheGrounded(sigs, cache)
    ensures CacheGrounded(sigs, Gather(version, sigs, k, cache, resolving).1)
    ensures GroundedFrom(sigs, version, k, Gather(version, sigs, k, cache, resolving).0)
    decreases Bases(sigs) - resolving, 1, |sigs| - k
  {
    if k < |sigs| {
      var sig := sigs[k];
      if sig.isDelta && Covers(sig, version) && !Rejects(sig) {
        assert sig.fromVersion in Bases(sigs);
        ResolveGrounded(sig.fromVersion, sigs, cache, resolving);
      }
      var (counts, cache1) := Consider(version, sigs, sig, cache, resolving);
      GatherGrounded(version, sigs, k + 1, cache1, resolving);
      GroundedStep(sigs, version, k, counts, Gather(version, sigs, k + 1, cache1, resolving).0);
    }
  }

  lemma GroundedStep(sigs: seq<SigInfo>, version: string, k: nat, counts: bool, rest: seq<ContributingDecision>)
    requires k < |sigs| && GroundedFrom(sigs, version, k + 1, rest)
    requires counts ==> Grounded(sigs, version, sigs[k].decision)
    requires Rejects(sigs[k]) && (Names(sigs[k], version) || Covers(sigs[k], version)) ==> counts
    ensures GroundedFrom(sigs, version, k, if counts then [sigs[k].decision] + rest else rest)
  {
    assert forall d :: d in [sigs[k].decision] + rest <==> d == sigs[k].decision || d in rest;
  }

  /** For any signatures, any grounded cache and no version in progress: a verdict is rejected
      exactly when some rejection applies, an approving verdict has a finite chain of approvals
      back to an exact one, and the cache stays grounded. */
  lemma LookupGrounded(version: string, sigs: seq<SigInfo>, cache: Cache)
    requires CacheGrounded(sigs, cache)
    ensures var (v, cache') := Resolve(version, sigs, cache, {});
      && CacheGrounded(sigs, cache')
      && (v.status == StatusRejected <==> IsRejected(sigs, version))
      && (Approves(v.status) ==> exists chain, versions :: Grounds(sigs, chain, versions, version))
  {
    ResolveGrounded(version, sigs, cache, {});
    if Approves(Resolve(version, sigs, cache, {}).0.status) {
      var n: nat :| TrustedWithin(sigs, version, n);
      var chain, versions := TrustedHasChain(sigs, version, n);
    }
  }
}
