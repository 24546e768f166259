/** What the verdict on a version means, without cache, order of evaluation or cycle breaking.

    Rejection needs no recursion. Trust is the least fixed point of "an approval names the version,
    or an approving delta from a trusted base covers it, and nothing rejects it". */
module VerdictMeaning {
  import opened Payloads
  import opened Verdicts

  // ---- the meaning ----

  ghost predicate IsRejected(sigs: seq<SigInfo>, version: string) {
    exists s :: s in sigs && Rejects(s) && (Names(s, version) || Covers(s, version))
  }

  /** One step of the definition of trust, over a given notion of trusted base. */
  ghost predicate TrustStep(sigs: seq<SigInfo>, trusted: string -> bool, version: string) {
    && !IsRejected(sigs, version)
    && exists s :: s in sigs && IsApproval(s) && (Names(s, version) || (Covers(s, version) && trusted(s.fromVersion)))
  }

  /** Trusted through a chain of at most `n` approvals. */
  ghost predicate TrustedWithin(sigs: seq<SigInfo>, version: string, n: nat)
    decreases n
  {
    && n > 0
    && !IsRejected(sigs, version)
    && exists s :: s in sigs && IsApproval(s)
         && (Names(s, version) || (Covers(s, version) && TrustedWithin(sigs, s.fromVersion, n - 1)))
  }

  ghost predicate Trusted(sigs: seq<SigInfo>, version: string) {
    exists n: nat :: TrustedWithin(sigs, version, n)
  }

  /** A signature contributes to the verdict on a version when it names it, or covers it and
      either rejects or starts from a trusted base other than the version itself. */
  ghost predicate Contributes(sigs: seq<SigInfo>, s: SigInfo, version: string) {
    || Names(s, version)
    || (Covers(s, version) && (Rejects(s) || (s.fromVersion != version && Trusted(sigs, s.fromVersion))))
  }

  /** The decisions of the signatures from index `k` on that satisfy `keep`, in order. */
  ghost function Select(sigs: seq<SigInfo>, keep: SigInfo -> bool, k: nat): seq<ContributingDecision>
    requires k <= |sigs|
    decreases |sigs| - k
  {
    if k == |sigs| then []
    else
      var rest := Select(sigs, keep, k + 1);
      if keep(sigs[k]) then [sigs[k].decision] + rest else rest
  }

  ghost function Contributions(sigs: seq<SigInfo>, version: string, k: nat): seq<ContributingDecision>
    requires k <= |sigs|
  {
    Select(sigs, s => Contributes(sigs, s, version), k)
  }

  ghost function Meaning(sigs: seq<SigInfo>, version: string): Verdict {
    var decisions := Contributions(sigs, version, 0);
    Verdict(Aggregate(decisions), decisions)
  }

  // ---- trust is the least fixed point ----

  lemma TrustedIsFixedPoint(sigs: seq<SigInfo>, version: string)
    ensures Trusted(sigs, version) <==> TrustStep(sigs, v => Trusted(sigs, v), version)
  {
    if Trusted(sigs, version) {
      var n: nat :| TrustedWithin(sigs, version, n);
      var s :| s in sigs && IsApproval(s)
        && (Names(s, version) || (Covers(s, version) && TrustedWithin(sigs, s.fromVersion, n - 1)));
      assert Covers(s, version) && !Names(s, version) ==> Trusted(sigs, s.fromVersion);
    }
    if TrustStep(sigs, v => Trusted(sigs, v), version) {
      var s :| s in sigs && IsApproval(s)
        && (Names(s, version) || (Covers(s, version) && Trusted(sigs, s.fromVersion)));
      if Names(s, version) {
        assert TrustedWithin(sigs, version, 1);
      } else {
        var n: nat :| TrustedWithin(sigs, s.fromVersion, n);
        assert TrustedWithin(sigs, version, n + 1);
      }
    }
  }

  lemma {:induction false} TrustedIsLeast(sigs: seq<SigInfo>, trusted: string -> bool, version: string, n: nat)
    requires forall v :: TrustStep(sigs, trusted, v) ==> trusted(v)
    requires TrustedWithin(sigs, version, n)
    ensures trusted(version)
    decreases n
  {
    var s :| s in sigs && IsApproval(s)
      && (Names(s, version) || (Covers(s, version) && TrustedWithin(sigs, s.fromVersion, n - 1)));
    if !Names(s, version) {
      TrustedIsLeast(sigs, trusted, s.fromVersion, n - 1);
    }
    assert TrustStep(sigs, trusted, version);
  }

  /** A chain that grounds trust in a version: `chain[0]` is an approval of an exact version, each
      later link is an approving delta from the version reached before, and no version passed is
      rejected. `versions[i]` is where link `i` arrives. */
  ghost predicate Grounds(sigs: seq<SigInfo>, chain: seq<SigInfo>, versions: seq<string>, version: string) {
    && |chain| == |versions| > 0 && versions[|versions| - 1] == version
    && (forall i :: 0 <= i < |chain| ==> chain[i] in sigs && IsApproval(chain[i]) && !IsRejected(sigs, versions[i]))
    && Names(chain[0], versions[0])
    && (forall i :: 0 < i < |chain| ==> Covers(chain[i], versions[i]) && chain[i].fromVersion == versions[i - 1])
  }

  lemma ChainExtended(sigs: seq<SigInfo>, chain: seq<SigInfo>, versions: seq<string>, s: SigInfo, version: string)
    requires Grounds(sigs, chain, versions, s.fromVersion)
    requires s in sigs && IsApproval(s) && Covers(s, version) && !IsRejected(sigs, version)
    ensures Grounds(sigs, chain + [s], versions + [version], version)
  {
    var chain', versions' := chain + [s], versions + [version];
    forall i | 0 <= i < |chain'|
      ensures chain'[i] in sigs && IsApproval(chain'[i]) && !IsRejected(sigs, versions'[i])
    {
      if i < |chain| {
        assert chain'[i] == chain[i] && versions'[i] == versions[i];
      }
    }
    forall i | 0 < i < |chain'|
      ensures Covers(chain'[i], versions'[i]) && chain'[i].fromVersion == versions'[i - 1]
    {
      if i < |chain| {
        assert chain'[i] == chain[i] && versions'[i] == versions[i] && versions'[i - 1] == versions[i - 1];
      }
    }
    assert chain'[0] == chain[0] && versions'[0] == versions[0];
  }

  lemma {:induction false} TrustedHasChain(sigs: seq<SigInfo>, version: string, n: nat)
    returns (chain: seq<SigInfo>, versions: seq<string>)
    requires TrustedWithin(sigs, version, n)
    ensures Grounds(sigs, chain, versions, version)
    decreases n
  {
    var s :| s in sigs && IsApproval(s)
      && (Names(s, version) || (Covers(s, version) && TrustedWithin(sigs, s.fromVersion, n - 1)));
    if Names(s, version) {
      chain, versions := [s], [version];
    } else {
      chain, versions := TrustedHasChain(sigs, s.fromVersion, n - 1);
      ChainExtended(sigs, chain, versions, s, version);
      chain, versions := chain + [s], versions + [version];
    }
  }

  // ---- the status the meaning gives ----

  lemma {:induction false} SelectLevels(sigs: seq<SigInfo>, keep: SigInfo -> bool, k: nat, level: Level)
    requires k <= |sigs|
    ensures HasLevel(Select(sigs, keep, k), level) <==>
      exists i :: k <= i < |sigs| && keep(sigs[i]) && sigs[i].decision.level == level
    decreases |sigs| - k
  {
    if k < |sigs| {
      SelectLevels(sigs, keep, k + 1, level);
      LevelsCons(sigs[k].decision, Select(sigs, keep, k + 1), level);
    }
  }

  lemma LevelsCons(d: ContributingDecision, rest: seq<ContributingDecision>, level: Level)
    ensures HasLevel([d] + rest, level) <==> d.level == level || HasLevel(rest, level)
  {
    assert forall x :: x in [d] + rest <==> x == d || x in rest;
  }

  /** The status by membership alone, so that it cannot depend on the order of the signatures. */
  lemma MeaningByMembership(sigs: seq<SigInfo>, version: string)
    ensures forall level :: HasLevel(Contributions(sigs, version, 0), level) <==>
      exists s :: s in sigs && Contributes(sigs, s, version) && s.decision.level == level
  {
    forall level
      ensures HasLevel(Contributions(sigs, version, 0), level) <==>
        exists s :: s in sigs && Contributes(sigs, s, version) && s.decision.level == level
    {
      SelectLevels(sigs, s => Contributes(sigs, s, version), 0, level);
    }
  }

  lemma {:induction false} OtherBase(sigs: seq<SigInfo>, version: string, n: nat) returns (s: SigInfo)
    requires TrustedWithin(sigs, version, n)
    ensures s in sigs && IsApproval(s) && Contributes(sigs, s, version)
    decreases n
  {
    s :| s in sigs && IsApproval(s)
      && (Names(s, version) || (Covers(s, version) && TrustedWithin(sigs, s.fromVersion, n - 1)));
    if !Names(s, version) && s.fromVersion == version {
      s := OtherBase(sigs, version, n - 1);
    }
  }

  /** The status is rejected, approving or unknown exactly as the definition of trust says. */
  lemma MeaningStatus(sigs: seq<SigInfo>, version: string)
    ensures Meaning(sigs, version).status == StatusRejected <==> IsRejected(sigs, version)
    ensures Approves(Meaning(sigs, version).status) <==> Trusted(sigs, version)
  {
    MeaningByMembership(sigs, version);
    TrustedIsFixedPoint(sigs, version);
    if Trusted(sigs, version) {
      var n: nat :| TrustedWithin(sigs, version, n);
      var s := OtherBase(sigs, version, n);
    }
  }

  lemma {:induction false} TrustedByMembership(sigs: seq<SigInfo>, sigs': seq<SigInfo>, version: string, n: nat)
    requires forall s :: s in sigs <==> s in sigs'
    ensures TrustedWithin(sigs, version, n) <==> TrustedWithin(sigs', version, n)
    decreases n
  {
    assert IsRejected(sigs, version) <==> IsRejected(sigs', version);
    if n > 0 {
      var m: nat := n - 1;
      forall v
        ensures TrustedWithin(sigs, v, m) <==> TrustedWithin(sigs', v, m)
      {
        TrustedByMembership(sigs, sigs', v, m);
      }
    }
  }

  /** The status depends only on which signatures there are, not on their order or repetition. */
  lemma MeaningIgnoresOrder(sigs: seq<SigInfo>, sigs': seq<SigInfo>, version: string)
    requires forall s :: s in sigs <==> s in sigs'
    ensures Meaning(sigs, version).status == Meaning(sigs', version).status
  {
    forall v, n: nat
      ensures TrustedWithin(sigs, v, n) <==> TrustedWithin(sigs', v, n)
    {
      TrustedByMembership(sigs, sigs', v, n);
    }
    MeaningByMembership(sigs, version);
    MeaningByMembership(sigs', version);
    forall s
      ensures Contributes(sigs, s, version) <==> Contributes(sigs', s, version)
    {
    }
  }
}
