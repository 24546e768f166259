/** How far the trust set reaches. The source promises every signer within the depth limits. That is
    not so in general: the first visit of a signer wins, so an early visit with a small budget hides
    a later one with more hops left. Stated here are exactly which signers are found, a condition on
    the graph alone under which the promise holds, and a family of graphs in which it fails. */
module TrustWalkLimits {
  import opened Text
  import opened Payloads
  import opened Tables
  import opened Stores
  import opened TrustWalk
  import opened TrustWalkSound
  import opened TrustWalkComplete
  import opened TrustWalkReach
  import opened TrustWalkFrame

  // ---- exactly who is found ----

  /** Recorded with no hop left. */
  predicate Exhausted(visits: map<ID, Frontier>, id: ID) {
    id in visits && visits[id].depthLeft <= 0
  }

  /** A path within all limits on which nobody but the last signer was recorded with no hop left. */
  ghost predicate OpenPath(g: Graph, viewer: ID, visits: map<ID, Frontier>, path: seq<ID>) {
    && (exists vetoOnly :: TrustPath(g, viewer, path, vetoOnly))
    && (forall i :: 0 <= i < |path| - 1 ==> !Exhausted(visits, path[i]))
  }

  lemma {:induction false} OpenPathRecorded(conns: seq<Row>, peers: seq<Peer>, active: ID, viewer: ID, path: seq<ID>)
    requires Route(GraphFor(conns, peers, active, viewer), viewer, path)
    requires forall i :: 0 <= i < |path| - 1 ==> !Exhausted(Visits(conns, peers, active, viewer), path[i])
    ensures Last(path) in Visits(conns, peers, active, viewer)
    ensures 0 < |Visits(conns, peers, active, viewer)[Last(path)].path| <= |path|
    decreases |path|
  {
    var g := GraphFor(conns, peers, active, viewer);
    TrustSetComplete(conns, peers, active, viewer);
    VisitsSound(conns, peers, active, viewer);
    if |path| > 1 {
      OpenPathRecorded(conns, peers, active, viewer, Init(path));
      assert Last(Init(path)) == path[|path| - 2];
    }
    if viewer == "" {
      NoEmptyPath(g, g.seeds, Start(viewer), Last(path));
    }
  }

  lemma RecordedPathIsOpen(g: Graph, viewer: ID, visits: map<ID, Frontier>, id: ID)
    requires Sound(g, viewer, [], visits) && id in visits && visits[id].path != []
    ensures OpenPath(g, viewer, visits, visits[id].path) && Last(visits[id].path) == id
  {
    var path := visits[id].path;
    RecordedPathIsTrustPath(g, viewer, visits, id);
    forall i | 0 <= i < |path| - 1
      ensures !Exhausted(visits, path[i])
    {
      BudgetCoversHops(g, viewer, visits, id, i);
    }
  }

  /** For every graph: a signer is in the trust set exactly when some path within the limits leads to
      it past nobody who was recorded with no hop left. Its own path is a shortest such path. */
  lemma FoundIffOpenPath(conns: seq<Row>, peers: seq<Peer>, active: ID, viewer: ID, id: ID)
    requires viewer == "" || id != viewer
    ensures var g, visits := GraphFor(conns, peers, active, viewer), Visits(conns, peers, active, viewer);
      && (id in TrustSet(conns, peers, active, viewer) <==> exists path ::
           OpenPath(g, viewer, visits, path) && Last(path) == id)
      && (forall path :: OpenPath(g, viewer, visits, path) && Last(path) == id ==>
            |TrustSet(conns, peers, active, viewer)[id].path| <= |path|)
  {
    var g, visits := GraphFor(conns, peers, active, viewer), Visits(conns, peers, active, viewer);
    VisitsSound(conns, peers, active, viewer);
    forall path | OpenPath(g, viewer, visits, path) && Last(path) == id
      ensures id in visits && |visits[id].path| <= |path|
    {
      var vetoOnly :| TrustPath(g, viewer, path, vetoOnly);
      TrustPathIsRoute(g, viewer, path, vetoOnly);
      OpenPathRecorded(conns, peers, active, viewer, path);
    }
    if id in visits {
      TrustSetSound(conns, peers, active, viewer, id);
      RecordedPathIsOpen(g, viewer, visits, id);
    }
  }

  lemma {:induction false} TrustPathIsRoute(g: Graph, viewer: ID, path: seq<ID>, vetoOnly: bool)
    requires TrustPath(g, viewer, path, vetoOnly)
    ensures Route(g, viewer, path)
    decreases |path|
  {
    if |path| > 1 {
      var front := Init(path);
      forall i | 0 < i < |front|
        ensures HopAllowed(g, front, i)
      {
        assert HopAllowed(g, path, i);
      }
      TrustPathIsRoute(g, viewer, front, vetoOnly);
      assert HopAllowed(g, path, |path| - 1);
    }
  }

  // ---- when the promise holds ----

  ghost predicate OneHop(g: Graph, f: Frontier, f': Frontier) {
    f.depthLeft > 0 && exists e :: e in Outgoing(g.conns, f.signer) && f' == Hop(f, e)
  }

  predicate Allowed(g: Graph, viewer: ID, id: ID) {
    id !in g.distrusted && (viewer != "" ==> id != viewer)
  }

  /** A way from a seed along active trust connections, off the viewer and off distrusted ids, each
      step with the hops that all limits before it leave. */
  ghost predicate Way(g: Graph, viewer: ID, way: seq<Frontier>) {
    && way != [] && way[0] in g.seeds
    && (forall i :: 0 <= i < |way| ==> Allowed(g, viewer, way[i].signer))
    && (forall i :: 0 < i < |way| ==> OneHop(g, way[i - 1], way[i]))
  }

  /** Whenever two ways lead to one signer and the longer one leaves a hop, the shorter one does too. */
  ghost predicate Steady(g: Graph, viewer: ID) {
    forall w, w' | Way(g, viewer, w) && Way(g, viewer, w') ::
      Last(w).signer == Last(w').signer && |w| <= |w'| && Last(w').depthLeft > 0 ==> Last(w).depthLeft > 0
  }

  lemma WayExtended(g: Graph, viewer: ID, way: seq<Frontier>, f: Frontier)
    requires Way(g, viewer, way) && OneHop(g, Last(way), f) && Allowed(g, viewer, f.signer)
    ensures Way(g, viewer, way + [f])
  {
    var longer := way + [f];
    forall i | 0 < i < |longer|
      ensures OneHop(g, longer[i - 1], longer[i])
    {
      if i < |way| {
        assert OneHop(g, way[i - 1], way[i]);
      }
    }
  }

  lemma WayShortened(g: Graph, viewer: ID, way: seq<Frontier>)
    requires Way(g, viewer, way) && |way| > 1
    ensures Way(g, viewer, Init(way)) && OneHop(g, Last(Init(way)), Last(way))
  {
    assert OneHop(g, way[|way| - 2], way[|way| - 1]);
  }

  lemma {:induction false} RecordedIsWay(g: Graph, viewer: ID, visits: map<ID, Frontier>, id: ID)
    returns (way: seq<Frontier>)
    requires Sound(g, viewer, [], visits) && id in visits && visits[id].path != []
    ensures Way(g, viewer, way) && |way| == |visits[id].path| && Last(way) == visits[id]
    decreases |visits[id].path|
  {
    var f := visits[id];
    if |f.path| == 1 {
      way := [f];
    } else {
      var parent := Last(Init(f.path));
      way := RecordedIsWay(g, viewer, visits, parent);
      assert OneHop(g, visits[parent], f);
      WayExtended(g, viewer, way, f);
      way := way + [f];
    }
  }

  lemma HopRecorded(conns: seq<Row>, peers: seq<Peer>, active: ID, viewer: ID, id: ID, f: Frontier, f': Frontier)
    requires id in Visits(conns, peers, active, viewer) && f.signer == id
    requires Visits(conns, peers, active, viewer)[id].path != []
    requires Visits(conns, peers, active, viewer)[id].depthLeft > 0
    requires OneHop(GraphFor(conns, peers, active, viewer), f, f')
    requires Allowed(GraphFor(conns, peers, active, viewer), viewer, f'.signer)
    ensures f'.signer in Visits(conns, peers, active, viewer)
    ensures var visits := Visits(conns, peers, active, viewer);
      |visits[f'.signer].path| <= |visits[id].path| + 1
  {
    TrustSetComplete(conns, peers, active, viewer);
  }

  lemma RecordedPathNotEmpty(conns: seq<Row>, peers: seq<Peer>, active: ID, viewer: ID, id: ID)
    requires id in Visits(conns, peers, active, viewer) && (viewer != "" ==> id != viewer)
    ensures Visits(conns, peers, active, viewer)[id].path != []
  {
    var g := GraphFor(conns, peers, active, viewer);
    VisitsSound(conns, peers, active, viewer);
    if viewer == "" {
      NoEmptyPath(g, g.seeds, Start(viewer), id);
    }
  }

  lemma {:induction false} WayRecorded(conns: seq<Row>, peers: seq<Peer>, active: ID, viewer: ID, way: seq<Frontier>)
    requires Steady(GraphFor(conns, peers, active, viewer), viewer)
    requires Way(GraphFor(conns, peers, active, viewer), viewer, way)
    ensures Last(way).signer in Visits(conns, peers, active, viewer)
    ensures 0 < |Visits(conns, peers, active, viewer)[Last(way).signer].path| <= |way|
    decreases |way|
  {
    var g, visits := GraphFor(conns, peers, active, viewer), Visits(conns, peers, active, viewer);
    if |way| == 1 {
      TrustSetComplete(conns, peers, active, viewer);
    } else {
      var before := Last(Init(way));
      WayShortened(g, viewer, way);
      WayRecorded(conns, peers, active, viewer, Init(way));
      VisitsSound(conns, peers, active, viewer);
      var recorded := RecordedIsWay(g, viewer, visits, before.signer);
      assert Last(recorded).depthLeft > 0;
      HopRecorded(conns, peers, active, viewer, before.signer, before, Last(way));
    }
    RecordedPathNotEmpty(conns, peers, active, viewer, Last(way).signer);
  }

  /** A path within the limits is a way, with hops left at each of its signers for the rest of it. */
  lemma {:induction false} PrefixIsWay(g: Graph, viewer: ID, path: seq<ID>, vetoOnly: bool, i: nat)
    returns (way: seq<Frontier>)
    requires TrustPath(g, viewer, path, vetoOnly) && i < |path|
    ensures Way(g, viewer, way) && |way| == i + 1
    ensures Last(way).signer == path[i] && HopsWithin(path, i, Last(way).depthLeft)
    decreases i
  {
    if i == 0 {
      var f :| f in g.seeds && f.signer == path[0] && f.vetoOnly == vetoOnly && HopsWithin(path, 0, f.depthLeft);
      way := [f];
    } else {
      way := PrefixIsWay(g, viewer, path, vetoOnly, i - 1);
      var f := PathHop(g, path, i, Last(way));
      WayExtended(g, viewer, way, f);
      way := way + [f];
    }
  }

  lemma PathHop(g: Graph, path: seq<ID>, i: nat, before: Frontier) returns (f: Frontier)
    requires 0 < i < |path| && HopAllowed(g, path, i) && before.signer == path[i - 1]
    requires HopsWithin(path, i - 1, before.depthLeft)
    ensures OneHop(g, before, f) && f.signer == path[i] && HopsWithin(path, i, f.depthLeft)
  {
    var e :| e in Outgoing(g.conns, path[i - 1]) && e.otherID == path[i] && HopsWithin(path, i, e.trustExtends);
    f := Hop(before, e);
  }

  lemma TrustPathRecorded(conns: seq<Row>, peers: seq<Peer>, active: ID, viewer: ID, path: seq<ID>, vetoOnly: bool)
    requires Steady(GraphFor(conns, peers, active, viewer), viewer)
    requires TrustPath(GraphFor(conns, peers, active, viewer), viewer, path, vetoOnly)
    ensures Last(path) in Visits(conns, peers, active, viewer)
    ensures |Visits(conns, peers, active, viewer)[Last(path)].path| <= |path|
  {
    var way := PrefixIsWay(GraphFor(conns, peers, active, viewer), viewer, path, vetoOnly, |path| - 1);
    WayRecorded(conns, peers, active, viewer, way);
  }

  /** In a steady graph the promise holds: the trust set is exactly the signers some path within the
      limits leads to, each with a shortest such path. */
  lemma SteadyWalkIsComplete(conns: seq<Row>, peers: seq<Peer>, active: ID, viewer: ID, id: ID)
    requires Steady(GraphFor(conns, peers, active, viewer), viewer) && (viewer == "" || id != viewer)
    ensures id in TrustSet(conns, peers, active, viewer) <==>
      exists path, vetoOnly ::
        TrustPath(GraphFor(conns, peers, active, viewer), viewer, path, vetoOnly) && Last(path) == id
    ensures forall path, vetoOnly ::
      TrustPath(GraphFor(conns, peers, active, viewer), viewer, path, vetoOnly) && Last(path) == id ==>
      id in TrustSet(conns, peers, active, viewer) && |TrustSet(conns, peers, active, viewer)[id].path| <= |path|
  {
    var g := GraphFor(conns, peers, active, viewer);
    forall path, vetoOnly | TrustPath(g, viewer, path, vetoOnly) && Last(path) == id
      ensures id in Visits(conns, peers, active, viewer) && |Visits(conns, peers, active, viewer)[id].path| <= |path|
    {
      TrustPathRecorded(conns, peers, active, viewer, path, vetoOnly);
    }
    if id in TrustSet(conns, peers, active, viewer) {
      TrustSetSound(conns, peers, active, viewer, id);
    }
  }

  /** One depth for every direct peer, and no connection that allows fewer hops than are left. */
  ghost predicate Uniform(g: Graph, depth: nat) {
    && (forall s :: s in g.seeds ==> s.depthLeft == depth)
    && (forall id, e :: e in Outgoing(g.conns, id) ==> e.trustExtends >= depth - 1)
  }

  lemma {:induction false} UniformBudget(g: Graph, viewer: ID, depth: nat, way: seq<Frontier>)
    requires Uniform(g, depth) && Way(g, viewer, way)
    ensures Last(way).depthLeft == depth - (|way| - 1)
    decreases |way|
  {
    if |way| > 1 {
      WayShortened(g, viewer, way);
      UniformBudget(g, viewer, depth, Init(way));
    }
  }

  /** So the promise holds in particular when all limits agree. */
  lemma UniformIsSteady(g: Graph, viewer: ID, depth: nat)
    requires Uniform(g, depth)
    ensures Steady(g, viewer)
  {
    forall way | Way(g, viewer, way)
      ensures Last(way).depthLeft == depth - (|way| - 1)
    {
      UniformBudget(g, viewer, depth, way);
    }
  }

  // ---- a short visit hides a longer one ----

  function Link(id: ID, signer: ID, other: ID, reach: int): Row {
    var p := Blank(Connection, signer).(otherID := other, trust := true, trustExtends := reach);
    Row(id, signer, other, Parsed("", p), "", "", 0, false, None, 0)
  }

  /** Two direct peers of the viewer, of which the second trusts the first, who trusts carol. */
  datatype Detour = Detour(viewer: ID, alice: ID, bob: ID, carol: ID, near: int, far: int, reach: int, last: int)

  predicate IsDetour(d: Detour) {
    && d.viewer != "" && d.viewer != d.alice && d.viewer != d.bob && d.viewer != d.carol
    && d.alice != d.bob && d.alice != d.carol && d.bob != d.carol
    && d.far >= 2 && d.reach >= 1
  }

  function DetourConns(d: Detour): seq<Row> {
    [Link("1", d.bob, d.alice, d.reach), Link("2", d.alice, d.carol, d.last)]
  }

  function DetourPeers(d: Detour): seq<Peer> {
    [Peer(d.alice, "", d.near, false, false, false, None), Peer(d.bob, "", d.far, false, false, false, None)]
  }

  function DetourGraph(d: Detour): Graph {
    GraphFor(DetourConns(d), DetourPeers(d), d.viewer, d.viewer)
  }

  lemma DetourEdges(d: Detour)
    requires IsDetour(d)
    ensures Outgoing(DetourConns(d), d.bob) == [Edge(d.alice, d.reach)]
    ensures Outgoing(DetourConns(d), d.alice) == [Edge(d.carol, d.last)]
    ensures Outgoing(DetourConns(d), d.carol) == []
  {
    var conns := DetourConns(d);
    OneRow(conns[0], d.alice, d.reach);
    OneRow(conns[1], d.carol, d.last);
    FilterTwo(conns[0], conns[1], (r: Row) => r.signer == d.bob);
    FilterTwo(conns[0], conns[1], (r: Row) => r.signer == d.alice);
    FilterTwo(conns[0], conns[1], (r: Row) => r.signer == d.carol);
  }

  lemma FilterTwo(a: Row, b: Row, keep: Row -> bool)
    ensures Filter([a, b], keep) == (if keep(a) then [a] else []) + (if keep(b) then [b] else [])
  {
    assert [a, b] == [] + [a] + [b];
    FilterSnoc([], a, keep);
    FilterSnoc([] + [a], b, keep);
  }

  lemma OneRow(row: Row, other: ID, reach: int)
    requires IsKind(row.body, Connection) && row.body.payload.trust
    requires row.body.payload.otherID == other && row.body.payload.trustExtends == reach
    ensures SortByTime([row]) == [row]
    ensures EdgesOf([row], Targets([row], ConnectionRevocation)) == [Edge(other, reach)]
  {
    assert [row][..0] == [];
  }

  lemma DetourSeeds(d: Detour)
    requires IsDetour(d)
    ensures DetourGraph(d).seeds ==
      [Frontier(d.alice, [d.alice], d.near, false), Frontier(d.bob, [d.bob], d.far, false)]
    ensures DetourGraph(d).distrusted == {}
  {
    var peers := DetourPeers(d);
    assert peers[..1] == [peers[0]] && peers[..1][..0] == [] && PeerSeeds([]) == [];
    assert PeerSeeds(peers[..1]) == [PeerSeed(peers[0])];
  }

  lemma DetourHops(d: Detour)
    requires IsDetour(d)
    ensures HopAllowed(DetourGraph(d), [d.bob, d.alice, d.carol], 1)
    ensures HopAllowed(DetourGraph(d), [d.bob, d.alice, d.carol], 2)
  {
    DetourEdges(d);
    assert Edge(d.alice, d.reach) in Outgoing(DetourConns(d), d.bob);
    assert Edge(d.carol, d.last) in Outgoing(DetourConns(d), d.alice);
  }

  /** The path from bob over alice to carol keeps within every limit. */
  lemma DetourIsTrustPath(d: Detour)
    requires IsDetour(d)
    ensures TrustPath(DetourGraph(d), d.viewer, [d.bob, d.alice, d.carol], false)
  {
    var g := DetourGraph(d);
    DetourHops(d);
    DetourSeeds(d);
    assert g.seeds[1] in g.seeds;
    TwoHops(g, d.viewer, g.seeds[1], d.alice, d.carol);
  }

  lemma TwoHops(g: Graph, viewer: ID, seed: Frontier, middle: ID, last: ID)
    requires seed in g.seeds && seed.depthLeft >= 2
    requires seed.signer !in g.distrusted && middle !in g.distrusted && last !in g.distrusted
    requires seed.signer != middle && seed.signer != last && middle != last
    requires viewer != seed.signer && viewer != middle && viewer != last
    requires HopAllowed(g, [seed.signer, middle, last], 1) && HopAllowed(g, [seed.signer, middle, last], 2)
    ensures TrustPath(g, viewer, [seed.signer, middle, last], seed.vetoOnly)
  {
    var path := [seed.signer, middle, last];
    assert HopsWithin(path, 0, seed.depthLeft);
  }

  lemma CarolFound(d: Detour)
    requires IsDetour(d) && d.near > 0
    ensures d.carol in TrustSet(DetourConns(d), DetourPeers(d), d.viewer, d.viewer)
  {
    TrustSetComplete(DetourConns(d), DetourPeers(d), d.viewer, d.viewer);
    DetourSeeds(d);
    DetourEdges(d);
    FirstVisit(d);
    assert Edge(d.carol, d.last) in Outgoing(DetourConns(d), d.alice);
  }

  /** The walk records alice as it finds her first: as a direct peer. */
  lemma FirstVisit(d: Detour)
    requires IsDetour(d)
    ensures d.alice in Visits(DetourConns(d), DetourPeers(d), d.viewer, d.viewer)
    ensures Visits(DetourConns(d), DetourPeers(d), d.viewer, d.viewer)[d.alice] ==
      Frontier(d.alice, [d.alice], d.near, false)
  {
    var g := DetourGraph(d);
    DetourSeeds(d);
    ExpandInNodes(g, g.seeds[0]);
    WalkGrows(g, g.seeds[1..] + Expand(g, g.seeds[0]), Start(d.viewer)[d.alice := g.seeds[0]], d.alice);
  }

  lemma CarolMissed(d: Detour)
    requires IsDetour(d) && d.near <= 0
    ensures d.carol !in TrustSet(DetourConns(d), DetourPeers(d), d.viewer, d.viewer)
  {
    var conns, peers := DetourConns(d), DetourPeers(d);
    var g, visits := DetourGraph(d), Visits(conns, peers, d.viewer, d.viewer);
    VisitsSound(conns, peers, d.viewer, d.viewer);
    DetourSeeds(d);
    DetourEdges(d);
    FirstVisit(d);
    if d.carol in visits {
      var parent := Last(Init(visits[d.carol].path));
      var e :| e in Outgoing(g.conns, parent) && e.otherID == d.carol;
      OnlyAlice(d, parent, e);
      assert false;
    }
  }

  /** Only alice's connection leads to carol. */
  lemma OnlyAlice(d: Detour, signer: ID, e: Edge)
    requires IsDetour(d) && e in Outgoing(DetourConns(d), signer) && e.otherID == d.carol
    ensures signer == d.alice
  {
    var listing := BySigner(DetourConns(d), signer);
    EdgeMembers(listing, Targets(listing, ConnectionRevocation), e);
    var row :| row in listing && row.body.Parsed? && row.body.payload.otherID == d.carol;
    BySignerMembers(DetourConns(d), signer, row);
  }

  /** In this family carol is within every limit, yet she is found exactly when alice's own depth
      leaves a hop: the promise fails for every detour past a direct peer of depth zero. */
  lemma ShortVisitHides(d: Detour)
    requires IsDetour(d)
    ensures TrustPath(DetourGraph(d), d.viewer, [d.bob, d.alice, d.carol], false)
    ensures d.carol in TrustSet(DetourConns(d), DetourPeers(d), d.viewer, d.viewer) <==> d.near > 0
  {
    DetourIsTrustPath(d);
    if d.near > 0 {
      CarolFound(d);
    } else {
      CarolMissed(d);
    }
  }
}
