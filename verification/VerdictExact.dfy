/** The memoised search is exact, in whatever order versions are looked up, when distinct bases never
    compare equal. */
module VerdictExact {
  import opened Versions
  import opened Verdicts
  import opened VerdictMeaning

  ghost predicate NoTiedBases(sigs: seq<SigInfo>) {
    forall a, b :: a in Bases(sigs) && b in Bases(sigs) && Tied(a, b) ==> a == b
  }

  ghost predicate CacheExact(sigs: seq<SigInfo>, cache: Cache) {
    forall v :: v in cache ==> cache[v] == Meaning(sigs, v)
  }

  /** Versions in progress are not cached, and those that are bases are not below `version`. */
  ghost predicate Above(sigs: seq<SigInfo>, version: string, cache: Cache, resolving: set<string>) {
    && (forall u :: u in resolving ==> u !in cache)
    && (forall u :: u in resolving && u in Bases(sigs) && u != version ==> version in Bases(sigs) && AtMost(version, u))
  }

  lemma BaseIsAbove(sigs: seq<SigInfo>, sig: SigInfo, version: string, cache: Cache, resolving: set<string>)
    requires NoTiedBases(sigs) && Above(sigs, version, cache, resolving) && version in resolving
    requires sig in sigs && !Rejects(sig) && Covers(sig, version) && sig.fromVersion != version
    ensures sig.fromVersion !in resolving && Above(sigs, sig.fromVersion, cache, resolving)
  {
    var from := sig.fromVersion;
    assert from in Bases(sigs);
    VersionsTotalPreorder();
    if from in resolving {
      VersionsConsistent(from, version, from);
      assert Tied(from, version);
    }
  }

  lemma {:induction false} ResolveExact(version: string, sigs: seq<SigInfo>, cache: Cache, resolving: set<string>)
    requires NoTiedBases(sigs) && CacheExact(sigs, cache)
    requires version !in resolving && Above(sigs, version, cache, resolving)
    ensures Resolve(version, sigs, cache, resolving).0 == Meaning(sigs, version)
    ensures CacheExact(sigs, Resolve(version, sigs, cache, resolving).1)
    ensures forall u :: u in resolving ==> u !in Resolve(version, sigs, cache, resolving).1
    decreases Bases(sigs) - resolving, if version in Bases(sigs) then 0 else 2, 0
  {
    if version !in cache {
      assert version in Bases(sigs) ==> version in Bases(sigs) - resolving;
      assert version !in Bases(sigs) ==> Bases(sigs) - (resolving + {version}) == Bases(sigs) - resolving;
      GatherExact(version, sigs, 0, cache, resolving + {version});
    }
  }

  /** A signature counts when it contributes, given the meaning of its base. */
  lemma ConsiderExact(version: string, sigs: seq<SigInfo>, sig: SigInfo, cache: Cache, resolving: set<string>)
    requires sig in sigs && version in resolving && version !in cache
    requires Covers(sig, version) && !Rejects(sig) && sig.fromVersion != version ==>
      Resolve(sig.fromVersion, sigs, cache, resolving).0 == Meaning(sigs, sig.fromVersion)
    ensures Consider(version, sigs, sig, cache, resolving).0 <==> Contributes(sigs, sig, version)
  {
    if Covers(sig, version) && !Rejects(sig) && sig.fromVersion != version {
      MeaningStatus(sigs, sig.fromVersion);
    }
  }

  lemma {:induction false} GatherExact(version: string, sigs: seq<SigInfo>, k: nat, cache: Cache,
                                       resolving: set<string>)
    requires NoTiedBases(sigs) && CacheExact(sigs, cache) && k <= |sigs|
    requires version in resolving && Above(sigs, version, cache, resolving)
    ensures Gather(version, sigs, k, cache, resolving).0 == Contributions(sigs, version, k)
    ensures CacheExact(sigs, Gather(version, sigs, k, cache, resolving).1)
    ensures forall u :: u in resolving ==> u !in Gather(version, sigs, k, cache, resolving).1
    decreases Bases(sigs) - resolving, 1, |sigs| - k
  {
    if k < |sigs| {
      var sig := sigs[k];
      assert sig in sigs;
      if sig.isDelta && Covers(sig, version) && !Rejects(sig) {
        if sig.fromVersion != version {
          BaseIsAbove(sigs, sig, version, cache, resolving);
          ResolveExact(sig.fromVersion, sigs, cache, resolving);
        }
        ConsiderExact(version, sigs, sig, cache, resolving);
        GatherExact(version, sigs, k + 1, Resolve(sig.fromVersion, sigs, cache, resolving).1, resolving);
      } else {
        ConsiderExact(version, sigs, sig, cache, resolving);
        GatherExact(version, sigs, k + 1, cache, resolving);
      }
    }
  }

  /** Look up versions one after the other, sharing the cache. */
  function Lookups(versions: seq<string>, sigs: seq<SigInfo>, cache: Cache): (seq<Verdict>, Cache) {
    if versions == [] then ([], cache)
    else
      var (v, cache') := Resolve(versions[0], sigs, cache, {});
      var (rest, cache'') := Lookups(versions[1..], sigs, cache');
      ([v] + rest, cache'')
  }

  /** Memoisation refines the meaning: whatever is looked up, in whatever order and however often,
      each lookup returns the meaning of its version. */
  lemma {:induction false} LookupsExact(versions: seq<string>, sigs: seq<SigInfo>, cache: Cache)
    requires NoTiedBases(sigs) && CacheExact(sigs, cache)
    ensures var (verdicts, cache') := Lookups(versions, sigs, cache);
      && CacheExact(sigs, cache')
      && |verdicts| == |versions|
      && forall i :: 0 <= i < |versions| ==> verdicts[i] == Meaning(sigs, versions[i])
  {
    if versions != [] {
      ResolveExact(versions[0], sigs, cache, {});
      LookupsExact(versions[1..], sigs, Resolve(versions[0], sigs, cache, {}).1);
    }
  }

  /** The status of a lookup does not depend on the order the signatures are listed in. */
  lemma LookupIgnoresOrder(version: string, sigs: seq<SigInfo>, sigs': seq<SigInfo>)
    requires NoTiedBases(sigs) && forall s :: s in sigs <==> s in sigs'
    ensures Resolve(version, sigs, map[], {}).0.status == Resolve(version, sigs', map[], {}).0.status
  {
    assert Bases(sigs) == Bases(sigs');
    ResolveExact(version, sigs, map[], {});
    ResolveExact(version, sigs', map[], {});
    MeaningIgnoresOrder(sigs, sigs', version);
  }
}
