/** The verdict on one version (resolver/query.go, `resolveVersion` and `aggregate`): a recursive
    search with a cache shared between lookups and a set of versions in progress that breaks
    cycles. `Resolve` is what the method of `ResolveState` computes; `Meaning` is the definition
    without cache or cycles it is measured against. */
module Verdicts {
  import opened Versions
  import opened Payloads

  datatype Status = StatusAllowed | StatusVetted | StatusRejected | StatusUnknown

  datatype DecisionKind = KindExact | KindDelta

  /** One signed decision of one signer of the trust set. */
  datatype ContributingDecision = ContributingDecision(
    signerID: ID,
    path: seq<ID>,
    level: Level,
    reason: string,
    signatureID: ID,
    vetoOnly: bool,
    kind: DecisionKind,
    version: string,
    fromVersion: string,
    toVersion: string)

  datatype SigInfo = SigInfo(
    decision: ContributingDecision,
    isDelta: bool,
    exactVersion: string,
    fromVersion: string,
    toVersion: string)

  datatype Verdict = Verdict(status: Status, decisions: seq<ContributingDecision>)

  type Cache = map<string, Verdict>

  const UNKNOWN: Verdict := Verdict(StatusUnknown, [])

  function StatusFromLevel(level: Level): Status {
    match level
    case Rejected => StatusRejected
    case Vetted => StatusVetted
    case Allowed => StatusAllowed
    case UnknownLevel(_) => StatusUnknown
  }

  predicate Approves(status: Status) {
    status == StatusAllowed || status == StatusVetted
  }

  predicate HasLevel(decisions: seq<ContributingDecision>, level: Level) {
    exists d :: d in decisions && d.level == level
  }

  /** Any rejection wins, then any vetting, then any allowance. */
  function Aggregate(decisions: seq<ContributingDecision>): Status {
    if HasLevel(decisions, Rejected) then StatusRejected
    else if HasLevel(decisions, Vetted) then StatusVetted
    else if HasLevel(decisions, Allowed) then StatusAllowed
    else StatusUnknown
  }

  lemma LevelsSnoc(front: seq<ContributingDecision>, d: ContributingDecision)
    ensures forall level :: HasLevel(front + [d], level) <==> HasLevel(front, level) || d.level == level
  {
    forall level
      ensures HasLevel(front + [d], level) <==> HasLevel(front, level) || d.level == level
    {
      assert forall x :: x in front + [d] <==> x in front || x == d;
    }
  }

  /** `aggregate`: one pass with two flags. */
  method AggregateLevels(decisions: seq<ContributingDecision>) returns (s: Status)
    ensures s == Aggregate(decisions)
  {
    var hasVetted, hasAllowed := false, false;
    for i := 0 to |decisions|
      invariant !HasLevel(decisions[..i], Rejected)
      invariant hasVetted == HasLevel(decisions[..i], Vetted)
      invariant hasAllowed == HasLevel(decisions[..i], Allowed)
    {
      var d := decisions[i];
      assert decisions[..i + 1] == decisions[..i] + [d];
      LevelsSnoc(decisions[..i], d);
      match d.level
      case Rejected =>
        assert d in decisions;
        return StatusRejected;
      case Vetted => hasVetted := true;
      case Allowed => hasAllowed := true;
      case UnknownLevel(_) =>
    }
    assert decisions[..|decisions|] == decisions;
    s := if hasVetted then StatusVetted else if hasAllowed then StatusAllowed else StatusUnknown;
  }

  // ---- what one signature says about one version ----

  predicate Between(from: string, version: string, to: string) {
    AtMost(from, version) && AtMost(version, to)
  }

  predicate Covers(sig: SigInfo, version: string) {
    sig.isDelta && Between(sig.fromVersion, version, sig.toVersion)
  }

  predicate Names(sig: SigInfo, version: string) {
    !sig.isDelta && sig.exactVersion == version
  }

  predicate Rejects(sig: SigInfo) {
    sig.decision.level == Rejected
  }

  predicate IsApproval(sig: SigInfo) {
    sig.decision.level == Vetted || sig.decision.level == Allowed
  }

  /** The bases a lookup can recurse into. */
  function Bases(sigs: seq<SigInfo>): set<string> {
    set s | s in sigs && s.isDelta && !Rejects(s) :: s.fromVersion
  }

  // ---- the memoised search ----

  /** `resolveVersion`: the verdict, and the cache afterwards. */
  function Resolve(version: string, sigs: seq<SigInfo>, cache: Cache, resolving: set<string>): (Verdict, Cache)
    decreases Bases(sigs) - resolving, if version in Bases(sigs) then 0 else 2, 0
  {
    if version in cache then (cache[version], cache)
    else if version in resolving then (UNKNOWN, cache)
    else
      assert version in Bases(sigs) ==> version in Bases(sigs) - resolving;
      assert version !in Bases(sigs) ==> Bases(sigs) - (resolving + {version}) == Bases(sigs) - resolving;
      var (decisions, cache') := Gather(version, sigs, 0, cache, resolving + {version});
      var v := Verdict(Aggregate(decisions), decisions);
      (v, cache'[version := v])
  }

  /** Whether one signature contributes to the verdict on `version`, and the cache afterwards. */
  function Consider(version: string, sigs: seq<SigInfo>, sig: SigInfo, cache: Cache, resolving: set<string>): (bool,
                    Cache)
    requires sig in sigs
    decreases Bases(sigs) - resolving, 1, 0
  {
    if !sig.isDelta then (sig.exactVersion == version, cache)
    else if !Covers(sig, version) then (false, cache)
    else if Rejects(sig) then (true, cache)
    else
      var (from, cache') := Resolve(sig.fromVersion, sigs, cache, resolving);
      (Approves(from.status), cache')
  }

  /** The decisions the signatures from index `k` on contribute to the verdict on `version`. */
  function Gather(version: string, sigs: seq<SigInfo>, k: nat, cache: Cache,
                  resolving: set<string>): (seq<ContributingDecision>, Cache)
    requires k <= |sigs|
    decreases Bases(sigs) - resolving, 1, |sigs| - k
  {
    if k == |sigs| then ([], cache)
    else
      var (counts, cache1) := Consider(version, sigs, sigs[k], cache, resolving);
      var (rest, cache2) := Gather(version, sigs, k + 1, cache1, resolving);
      (if counts then [sigs[k].decision] + rest else rest, cache2)
  }

  /** The `cache` and `resolving` maps that one query passes down its recursion. */
  class ResolveState {
    var cache: Cache
    var resolving: set<string>

    constructor ()
      ensures cache == map[] && resolving == {}
    {
      cache, resolving := map[], {};
    }

    method ResolveVersion(version: string, sigs: seq<SigInfo>) returns (v: Verdict)
      modifies this
      ensures (v, cache) == Resolve(version, sigs, old(cache), old(resolving))
      ensures resolving == old(resolving)
      decreases Bases(sigs) - resolving, if version in Bases(sigs) then 0 else 2, 0
    {
      if version in cache {
        return cache[version];
      }
      if version in resolving {
        return UNKNOWN;
      }
      ghost var outer := resolving;
      resolving := resolving + {version};
      assert version in Bases(sigs) ==> version in Bases(sigs) - outer;
      assert version !in Bases(sigs) ==> Bases(sigs) - resolving == Bases(sigs) - outer;
      var decisions := GatherDecisions(version, sigs);
      var status := AggregateLevels(decisions);
      v := Verdict(status, decisions);
      cache := cache[version := v];
      resolving := resolving - {version};
    }

    /** The loop of `resolveVersion`. */
    method GatherDecisions(version: string, sigs: seq<SigInfo>) returns (decisions: seq<ContributingDecision>)
      modifies this
      ensures (decisions, cache) == Gather(version, sigs, 0, old(cache), old(resolving))
      ensures resolving == old(resolving)
      decreases Bases(sigs) - resolving, 1, 1
    {
      decisions := [];
      ghost var (all, final) := Gather(version, sigs, 0, cache, resolving);
      assert decisions + all == all;
      for k := 0 to |sigs|
        invariant resolving == old(resolving)
        invariant decisions + Gather(version, sigs, k, cache, resolving).0 == all
        invariant Gather(version, sigs, k, cache, resolving).1 == final
      {
        ghost var before := decisions;
        var counts := CountsFor(version, sigs, sigs[k]);
        ghost var rest := Gather(version, sigs, k + 1, cache, resolving).0;
        if counts {
          decisions := decisions + [sigs[k].decision];
        }
        assert before + [sigs[k].decision] + rest == before + ([sigs[k].decision] + rest);
      }
      assert decisions + [] == decisions;
    }

    /** The body of that loop: whether one signature contributes. */
    method CountsFor(version: string, sigs: seq<SigInfo>, sig: SigInfo) returns (counts: bool)
      requires sig in sigs
      modifies this
      ensures (counts, cache) == Consider(version, sigs, sig, old(cache), old(resolving))
      ensures resolving == old(resolving)
      decreases Bases(sigs) - resolving, 1, 0
    {
      if !sig.isDelta {
        return sig.exactVersion == version;
      }
      if CompareVersions(sig.fromVersion, version) > 0 || CompareVersions(version, sig.toVersion) > 0 {
        return false;
      }
      if sig.decision.level == Rejected {
        return true;
      }
      var from := ResolveVersion(sig.fromVersion, sigs);
      counts := from.status == StatusAllowed || from.status == StatusVetted;
    }
  }
}
