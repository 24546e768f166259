/** The trust walk when no budget can run out: exactly the reachable signers, by shortest paths. */
module TrustWalkReach {
  import opened Payloads
  import opened Tables
  import opened TrustWalk
  import opened TrustWalkSound
  import opened TrustWalkComplete

  /** A path from a seed along active trust connections, off the viewer and off distrusted ids. */
  ghost predicate Route(g: Graph, viewer: ID, path: seq<ID>) {
    && path != []
    && Last(path) !in g.distrusted && (viewer != "" ==> Last(path) != viewer)
    && if |path| == 1 then exists s :: s in g.seeds && s.signer == path[0]
       else Route(g, viewer, Init(path)) && exists e ::
         e in Outgoing(g.conns, Last(Init(path))) && e.otherID == Last(path)
  }

  ghost predicate Generous(g: Graph) {
    && (forall s :: s in g.seeds ==> s.depthLeft >= |Nodes(g)|)
    && (forall id, e :: e in Outgoing(g.conns, id) ==> e.trustExtends >= |Nodes(g)|)
  }

  lemma {:induction false} DuplicateFreeLength(path: seq<ID>, nodes: set<ID>)
    requires forall i, j :: 0 <= i < j < |path| ==> path[i] != path[j]
    requires forall i :: 0 <= i < |path| ==> path[i] in nodes
    ensures |path| <= |nodes|
  {
    if path != [] {
      DuplicateFreeLength(Init(path), nodes - {Last(path)});
    }
  }

  lemma {:induction false} BudgetAlongPath(g: Graph, viewer: ID, visits: map<ID, Frontier>, id: ID)
    requires Sound(g, viewer, [], visits) && Generous(g) && id in visits && visits[id].path != []
    ensures visits[id].depthLeft >= |Nodes(g)| - (|visits[id].path| - 1)
    decreases |visits[id].path|
  {
    if |visits[id].path| > 1 {
      BudgetAlongPath(g, viewer, visits, Last(Init(visits[id].path)));
    }
  }

  lemma BudgetLeft(g: Graph, viewer: ID, visits: map<ID, Frontier>, id: ID)
    requires Sound(g, viewer, [], visits) && Generous(g)
    requires id in visits && visits[id].path != []
    requires forall k :: k in visits && visits[k].path != [] ==> k in Nodes(g)
    ensures visits[id].depthLeft > 0
  {
    var path := visits[id].path;
    RecordedPathIsTrustPath(g, viewer, visits, id);
    forall i | 0 <= i < |path|
      ensures path[i] in Nodes(g)
    {
      PrefixRecorded(g, viewer, visits, id, i);
    }
    DuplicateFreeLength(path, Nodes(g));
    BudgetAlongPath(g, viewer, visits, id);
  }

  lemma {:induction false} WalkInNodes(g: Graph, queue: seq<Frontier>, visits: map<ID, Frontier>)
    requires InNodes(g, queue)
    requires forall k :: k in visits && visits[k].path != [] ==> k in Nodes(g)
    ensures forall k :: k in Walk(g, queue, visits) && Walk(g, queue, visits)[k].path != [] ==> k in Nodes(g)
    decreases Nodes(g) - visits.Keys, |queue|
  {
    if queue != [] {
      var f := queue[0];
      if !Records(g, f, visits) {
        WalkInNodes(g, queue[1..], visits);
      } else {
        ExpandInNodes(g, f);
        assert f.signer in Nodes(g) - visits.Keys;
        WalkInNodes(g, queue[1..] + Expand(g, f), visits[f.signer := f]);
      }
    }
  }

  lemma {:induction false} RouteRecorded(conns: seq<Row>, peers: seq<Peer>, active: ID, viewer: ID, path: seq<ID>)
    requires Generous(GraphFor(conns, peers, active, viewer))
    requires Route(GraphFor(conns, peers, active, viewer), viewer, path)
    ensures Last(path) in Visits(conns, peers, active, viewer)
    ensures 0 < |Visits(conns, peers, active, viewer)[Last(path)].path| <= |path|
    decreases |path|
  {
    var g, visits := GraphFor(conns, peers, active, viewer), Visits(conns, peers, active, viewer);
    TrustSetComplete(conns, peers, active, viewer);
    VisitsSound(conns, peers, active, viewer);
    if |path| > 1 {
      var before := Last(Init(path));
      RouteRecorded(conns, peers, active, viewer, Init(path));
      WalkInNodes(g, g.seeds, Start(viewer));
      BudgetLeft(g, viewer, visits, before);
    }
    if viewer == "" {
      NoEmptyPath(g, g.seeds, Start(viewer), Last(path));
    }
  }

  lemma {:induction false} RecordedIsRoute(g: Graph, viewer: ID, visits: map<ID, Frontier>, id: ID)
    requires Sound(g, viewer, [], visits) && id in visits && visits[id].path != []
    ensures Route(g, viewer, visits[id].path)
    decreases |visits[id].path|
  {
    if |visits[id].path| > 1 {
      RecordedIsRoute(g, viewer, visits, Last(Init(visits[id].path)));
    }
  }

  /** With budgets at least the number of signers, the walk finds exactly the signers some route
      leads to, and its paths are shortest routes. */
  lemma GenerousWalkIsReachability(conns: seq<Row>, peers: seq<Peer>, active: ID, viewer: ID, id: ID)
    requires Generous(GraphFor(conns, peers, active, viewer)) && (viewer == "" || id != viewer)
    ensures id in TrustSet(conns, peers, active, viewer) <==>
      exists path :: Route(GraphFor(conns, peers, active, viewer), viewer, path) && Last(path) == id
    ensures id in TrustSet(conns, peers, active, viewer) ==>
      var entry := TrustSet(conns, peers, active, viewer)[id];
      && Route(GraphFor(conns, peers, active, viewer), viewer, entry.path)
      && forall path :: Route(GraphFor(conns, peers, active, viewer), viewer, path) && Last(path) == id ==>
           |entry.path| <= |path|
  {
    var g, visits := GraphFor(conns, peers, active, viewer), Visits(conns, peers, active, viewer);
    VisitsSound(conns, peers, active, viewer);
    forall path | Route(g, viewer, path) && Last(path) == id
      ensures id in visits && |visits[id].path| <= |path|
    {
      RouteRecorded(conns, peers, active, viewer, path);
    }
    if id in visits {
      TrustSetSound(conns, peers, active, viewer, id);
      RecordedIsRoute(g, viewer, visits, id);
    }
  }
}
