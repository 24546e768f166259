/** Soundness of the trust walk, for every graph, cyclic or not: every entry's path is a real trust
    path, within every hop limit along it. */
module TrustWalkSound {
  import opened Payloads
  import opened Tables
  import opened TrustWalk

  function Last<T>(s: seq<T>): T
    requires s != []
  {
    s[|s| - 1]
  }

  function Init<T>(s: seq<T>): seq<T>
    requires s != []
  {
    s[..|s| - 1]
  }

  /** `f` is a seed, or one hop past its recorded parent along one of the parent's edges. */
  ghost predicate Justified(g: Graph, visits: map<ID, Frontier>, f: Frontier) {
    f.path != [] && Last(f.path) == f.signer &&
    if |f.path| == 1 then f in g.seeds
    else
      var parent := Last(Init(f.path));
      && parent in visits
      && visits[parent].path == Init(f.path)
      && visits[parent].depthLeft > 0
      && exists e :: e in Outgoing(g.conns, parent) && e.otherID == f.signer && f == Hop(visits[parent], e)
  }

  ghost predicate Sound(g: Graph, viewer: ID, queue: seq<Frontier>, visits: map<ID, Frontier>) {
    && (viewer != "" ==> viewer in visits && visits[viewer] == Frontier(viewer, [], 0, false))
    && (forall f :: f in queue ==> Justified(g, visits, f))
    && (forall id :: id in visits && visits[id].path != [] ==>
         visits[id].signer == id && id !in g.distrusted && Justified(g, visits, visits[id]))
    && (forall id :: id in visits && visits[id].path == [] ==> id == viewer)
  }

  lemma JustifiedStays(g: Graph, visits: map<ID, Frontier>, visits': map<ID, Frontier>, f: Frontier)
    requires Justified(g, visits, f)
    requires forall id :: id in visits ==> id in visits' && visits'[id] == visits[id]
    ensures Justified(g, visits', f)
  {
  }

  lemma ExpandJustified(g: Graph, visits: map<ID, Frontier>, f: Frontier)
    requires f.path != [] && Last(f.path) == f.signer && f.signer in visits && visits[f.signer] == f
    ensures forall h :: h in Expand(g, f) ==> Justified(g, visits, h)
  {
    forall h | h in Expand(g, f)
      ensures Justified(g, visits, h)
    {
      var e :| e in Outgoing(g.conns, f.signer) && e.otherID !in g.distrusted && h == Hop(f, e);
      assert Init(h.path) == f.path;
    }
  }

  lemma RecordKeepsSound(g: Graph, viewer: ID, queue: seq<Frontier>, visits: map<ID, Frontier>)
    requires queue != [] && Sound(g, viewer, queue, visits) && Records(g, queue[0], visits)
    ensures Sound(g, viewer, queue[1..] + Expand(g, queue[0]), visits[queue[0].signer := queue[0]])
  {
    var f := queue[0];
    assert f in queue;
    var visits' := visits[f.signer := f];
    forall h | Justified(g, visits, h)
      ensures Justified(g, visits', h)
    {
      JustifiedStays(g, visits, visits', h);
    }
    ExpandJustified(g, visits', f);
  }

  lemma {:induction false} WalkSound(g: Graph, viewer: ID, queue: seq<Frontier>, visits: map<ID, Frontier>)
    requires InNodes(g, queue) && Sound(g, viewer, queue, visits)
    ensures Sound(g, viewer, [], Walk(g, queue, visits))
    decreases Nodes(g) - visits.Keys, |queue|
  {
    if queue != [] {
      var f := queue[0];
      if !Records(g, f, visits) {
        WalkSound(g, viewer, queue[1..], visits);
      } else {
        ExpandInNodes(g, f);
        RecordKeepsSound(g, viewer, queue, visits);
        assert f.signer in Nodes(g) - visits.Keys;
        WalkSound(g, viewer, queue[1..] + Expand(g, f), visits[f.signer := f]);
      }
    }
  }

  /** Each prefix of a recorded path is the recorded path of the signer it ends in. */
  lemma {:induction false} PrefixRecorded(g: Graph, viewer: ID, visits: map<ID, Frontier>, id: ID, i: nat)
    requires Sound(g, viewer, [], visits) && id in visits && i < |visits[id].path|
    ensures visits[id].path[i] in visits
    ensures visits[visits[id].path[i]].path == visits[id].path[..i + 1]
    ensures var hops := |visits[id].path| - 1 - i;
      hops <= 0 || hops <= visits[visits[id].path[i]].depthLeft - visits[id].depthLeft
    ensures visits[id].vetoOnly == visits[visits[id].path[i]].vetoOnly
    decreases |visits[id].path|
  {
    var path := visits[id].path;
    if i == |path| - 1 {
      assert path[..i + 1] == path;
    } else {
      var parent := Last(Init(path));
      PrefixRecorded(g, viewer, visits, parent, i);
      assert Init(path)[..i + 1] == path[..i + 1];
    }
  }

  /** The trust path of an entry: duplicate-free, off the viewer and off every distrusted id,
      starting at a seed whose flag it carries; along it every hop is an active trust
      connection, and the seed's depth and each connection's `trust_extends` leave room for the
      hops after it. */
  ghost predicate TrustPath(g: Graph, viewer: ID, path: seq<ID>, vetoOnly: bool) {
    && path != []
    && (forall i, j :: 0 <= i < j < |path| ==> path[i] != path[j])
    && (forall i :: 0 <= i < |path| ==> path[i] !in g.distrusted && (viewer != "" ==> path[i] != viewer))
    && (exists s :: s in g.seeds && s.signer == path[0] && s.vetoOnly == vetoOnly && HopsWithin(path, 0, s.depthLeft))
    && (forall i :: 0 < i < |path| ==> HopAllowed(g, path, i))
  }

  /** The hops that follow node `i` of the path, if there are any, are at most `limit`. */
  predicate HopsWithin(path: seq<ID>, i: nat, limit: int) {
    |path| - 1 - i <= 0 || |path| - 1 - i <= limit
  }

  ghost predicate HopAllowed(g: Graph, path: seq<ID>, i: nat)
    requires 0 < i < |path|
  {
    exists e :: e in Outgoing(g.conns, path[i - 1]) && e.otherID == path[i] && HopsWithin(path, i, e.trustExtends)
  }

  /** Hop counts: a node that was passed still had budget for the hops after it. */
  lemma {:induction false} BudgetCoversHops(g: Graph, viewer: ID, visits: map<ID, Frontier>, id: ID, i: nat)
    requires Sound(g, viewer, [], visits) && id in visits && i < |visits[id].path|
    ensures visits[id].path[i] in visits
    ensures HopsWithin(visits[id].path, i, visits[visits[id].path[i]].depthLeft)
  {
    PrefixRecorded(g, viewer, visits, id, i);
    var path := visits[id].path;
    if i < |path| - 1 {
      var parent := Last(Init(path));
      PrefixRecorded(g, viewer, visits, parent, i);
      assert Init(path)[i] == path[i];
    }
  }

  lemma HopIsAllowed(g: Graph, viewer: ID, visits: map<ID, Frontier>, id: ID, i: nat)
    requires Sound(g, viewer, [], visits) && id in visits && 0 < i < |visits[id].path|
    ensures HopAllowed(g, visits[id].path, i)
  {
    var path := visits[id].path;
    PrefixRecorded(g, viewer, visits, id, i);
    BudgetCoversHops(g, viewer, visits, id, i);
    var f := visits[path[i]];
    assert f.path == path[..i + 1];
    assert Last(Init(f.path)) == path[i - 1];
    var e :| e in Outgoing(g.conns, path[i - 1]) && e.otherID == f.signer && f == Hop(visits[path[i - 1]], e);
    assert HopsWithin(path, i, e.trustExtends);
  }

  lemma PathStartsAtSeed(g: Graph, viewer: ID, visits: map<ID, Frontier>, id: ID)
    requires Sound(g, viewer, [], visits) && id in visits && visits[id].path != []
    ensures var f := visits[id];
      exists s ::
        s in g.seeds && s.signer == f.path[0] && s.vetoOnly == f.vetoOnly && HopsWithin(f.path, 0, s.depthLeft)
  {
    PrefixRecorded(g, viewer, visits, id, 0);
    BudgetCoversHops(g, viewer, visits, id, 0);
    assert visits[visits[id].path[0]] in g.seeds;
  }

  lemma RecordedPathIsTrustPath(g: Graph, viewer: ID, visits: map<ID, Frontier>, id: ID)
    requires Sound(g, viewer, [], visits) && id in visits && visits[id].path != []
    ensures TrustPath(g, viewer, visits[id].path, visits[id].vetoOnly) && Last(visits[id].path) == id
  {
    var path := visits[id].path;
    forall i | 0 <= i < |path|
      ensures path[i] in visits && |visits[path[i]].path| == i + 1
    {
      PrefixRecorded(g, viewer, visits, id, i);
    }
    forall i | 0 < i < |path|
      ensures HopAllowed(g, path, i)
    {
      HopIsAllowed(g, viewer, visits, id, i);
    }
    PathStartsAtSeed(g, viewer, visits, id);
  }

  lemma VisitsSound(conns: seq<Row>, peers: seq<Peer>, active: ID, viewer: ID)
    ensures Sound(GraphFor(conns, peers, active, viewer), viewer, [], Visits(conns, peers, active, viewer))
  {
    var g := GraphFor(conns, peers, active, viewer);
    WalkSound(g, viewer, g.seeds, Start(viewer));
  }

  /** Soundness of the trust set: the entry of the viewer is empty, and every other entry is a
      trust path to its signer each prefix of which is that signer's own entry. */
  lemma TrustSetSound(conns: seq<Row>, peers: seq<Peer>, active: ID, viewer: ID, id: ID)
    requires id in TrustSet(conns, peers, active, viewer)
    ensures viewer != "" ==> viewer in TrustSet(conns, peers, active, viewer)
    ensures id == viewer && viewer != "" ==> TrustSet(conns, peers, active, viewer)[id] == Entry([], false)
    ensures id != viewer || viewer == "" ==>
      var entry := TrustSet(conns, peers, active, viewer)[id];
      && entry.path != [] && Last(entry.path) == id
      && TrustPath(GraphFor(conns, peers, active, viewer), viewer, entry.path, entry.vetoOnly)
    ensures forall i :: 0 <= i < |TrustSet(conns, peers, active, viewer)[id].path| ==>
      var path := TrustSet(conns, peers, active, viewer)[id].path;
      path[i] in TrustSet(conns, peers, active, viewer)
      && TrustSet(conns, peers, active, viewer)[path[i]].path == path[..i + 1]
  {
    var g, visits := GraphFor(conns, peers, active, viewer), Visits(conns, peers, active, viewer);
    VisitsSound(conns, peers, active, viewer);
    if visits[id].path != [] {
      RecordedPathIsTrustPath(g, viewer, visits, id);
    } else if viewer == "" {
      NoEmptyPath(g, g.seeds, Start(viewer), id);
    }
    forall i | 0 <= i < |visits[id].path|
      ensures visits[id].path[i] in visits && visits[visits[id].path[i]].path == visits[id].path[..i + 1]
    {
      PrefixRecorded(g, viewer, visits, id, i);
    }
  }

  /** Only the viewer's own entry, present from the start, has an empty path. */
  lemma {:induction false} NoEmptyPath(g: Graph, queue: seq<Frontier>, visits: map<ID, Frontier>, id: ID)
    requires InNodes(g, queue)
    requires forall f :: f in queue ==> f.path != []
    requires forall k :: k in visits ==> visits[k].path != []
    ensures id in Walk(g, queue, visits) ==> Walk(g, queue, visits)[id].path != []
    decreases Nodes(g) - visits.Keys, |queue|
  {
    if queue != [] {
      var f := queue[0];
      if !Records(g, f, visits) {
        NoEmptyPath(g, queue[1..], visits, id);
      } else {
        ExpandInNodes(g, f);
        assert f.signer in Nodes(g) - visits.Keys;
        NoEmptyPath(g, queue[1..] + Expand(g, f), visits[f.signer := f], id);
      }
    }
  }
}
