/** The trust walk (resolver/trustset.go): a breadth-first search with a hop budget per edge,
    sticky veto-only flags and distrust pruning. `Walk` is what the loop of `BuildTrustSet`
    computes; its properties have modules of their own. */
module TrustWalk {
  import opened Payloads
  import opened Tables
  import opened Stores

  /** The part of an active trust connection the walk reads. */
  datatype Edge = Edge(otherID: ID, trustExtends: int)

  /** A queued signer: `path` leads from the viewer, not included, to the signer, included. */
  datatype Frontier = Frontier(signer: ID, path: seq<ID>, depthLeft: int, vetoOnly: bool)

  datatype Entry = Entry(path: seq<ID>, vetoOnly: bool)

  datatype Graph = Graph(conns: seq<Row>, distrusted: set<ID>, seeds: seq<Frontier>)

  // ---- outgoing connections ----

  predicate IsTrustRow(revoked: set<ID>, row: Row) {
    row.id !in revoked && IsKind(row.body, Connection) && row.body.payload.trust
  }

  function EdgesOf(listing: seq<Row>, revoked: set<ID>): seq<Edge> {
    if listing == [] then []
    else
      var n := |listing| - 1;
      var front, row := EdgesOf(listing[..n], revoked), listing[n];
      if IsTrustRow(revoked, row) then front + [Edge(row.body.payload.otherID, row.body.payload.trustExtends)]
      else front
  }

  /** The active trust connections a signer declares, oldest first. */
  function Outgoing(conns: seq<Row>, signer: ID): seq<Edge> {
    var listing := BySigner(conns, signer);
    EdgesOf(listing, Targets(listing, ConnectionRevocation))
  }

  method SignerOutgoing(conns: seq<Row>, signer: ID) returns (out: seq<Edge>)
    ensures out == Outgoing(conns, signer)
  {
    var rows := BySigner(conns, signer);
    var revoked := CollectTargets(rows, ConnectionRevocation);
    out := [];
    for i := 0 to |rows|
      invariant out == EdgesOf(rows[..i], revoked)
    {
      assert rows[..i + 1][..i] == rows[..i];
      var row := rows[i];
      if row.id in revoked {
        continue;
      }
      if !IsKind(row.body, Connection) || !row.body.payload.trust {
        continue;
      }
      out := out + [Edge(row.body.payload.otherID, row.body.payload.trustExtends)];
    }
    assert rows[..|rows|] == rows;
  }

  lemma {:induction false} EdgeMembers(listing: seq<Row>, revoked: set<ID>, e: Edge)
    ensures e in EdgesOf(listing, revoked) <==>
      exists row :: row in listing && IsTrustRow(revoked, row)
        && e == Edge(row.body.payload.otherID, row.body.payload.trustExtends)
  {
    if listing != [] {
      var n := |listing| - 1;
      assert listing == listing[..n] + [listing[n]];
      EdgeMembers(listing[..n], revoked, e);
    }
  }

  /** An edge is an unrevoked trust connection of the signer, and every one of those is an edge. */
  lemma OutgoingMeans(conns: seq<Row>, signer: ID, e: Edge)
    requires UniqueIds(conns)
    ensures e in Outgoing(conns, signer) <==>
      exists row :: row in conns && row.signer == signer && IsKind(row.body, Connection) && row.body.payload.trust
        && !DerivedRevoked(conns, ConnectionRevocation, row.id)
        && e == Edge(row.body.payload.otherID, row.body.payload.trustExtends)
  {
    var listing := BySigner(conns, signer);
    var revoked := Targets(listing, ConnectionRevocation);
    EdgeMembers(listing, revoked, e);
    forall row
      ensures row in listing <==> row in conns && row.signer == signer
      ensures row in listing && IsKind(row.body, Connection) ==>
        (row.id in revoked <==> DerivedRevoked(conns, ConnectionRevocation, row.id))
    {
      BySignerMembers(conns, signer, row);
      if row in listing && IsKind(row.body, Connection) {
        TargetedIffRevoked(conns, ConnectionRevocation, row);
      }
    }
  }

  // ---- where the walk starts ----

  predicate IsActiveViewer(active: ID, viewer: ID) {
    viewer == active && active != ""
  }

  function Distrusted(peers: seq<Peer>): set<ID> {
    set p | p in peers && p.distrusted :: p.id
  }

  lemma DistrustedSnoc(front: seq<Peer>, last: Peer)
    ensures Distrusted(front + [last]) == Distrusted(front) + (if last.distrusted then {last.id} else {})
  {
    assert forall p :: p in front + [last] <==> p in front || p == last;
  }

  function PeerSeeds(peers: seq<Peer>): (seeds: seq<Frontier>)
    ensures forall s :: s in seeds <==> exists p :: p in peers && !p.distrusted && s == PeerSeed(p)
  {
    if peers == [] then []
    else
      var n := |peers| - 1;
      assert peers == peers[..n] + [peers[n]];
      var front := PeerSeeds(peers[..n]);
      if peers[n].distrusted then front else front + [PeerSeed(peers[n])]
  }

  function PeerSeed(p: Peer): Frontier {
    Frontier(p.id, [p.id], p.trustDepth, p.vetoOnly)
  }

  function EdgeSeeds(edges: seq<Edge>): (seeds: seq<Frontier>)
    ensures forall s :: s in seeds <==> exists e :: e in edges && s == EdgeSeed(e)
  {
    if edges == [] then []
    else
      var n := |edges| - 1;
      assert edges == edges[..n] + [edges[n]];
      EdgeSeeds(edges[..n]) + [EdgeSeed(edges[n])]
  }

  function EdgeSeed(e: Edge): Frontier {
    Frontier(e.otherID, [e.otherID], e.trustExtends, false)
  }

  /** The active local user starts from the peers table, with its distrust; everyone else starts
      from their public connections, with none. */
  function GraphFor(conns: seq<Row>, peers: seq<Peer>, active: ID, viewer: ID): Graph {
    if IsActiveViewer(active, viewer) then Graph(conns, Distrusted(peers), PeerSeeds(peers))
    else Graph(conns, {}, EdgeSeeds(Outgoing(conns, viewer)))
  }

  function Start(viewer: ID): map<ID, Frontier> {
    if viewer != "" then map[viewer := Frontier(viewer, [], 0, false)] else map[]
  }

  /** Where a walk starts, in the fields of peers and edges. */
  lemma SeedsMean(conns: seq<Row>, peers: seq<Peer>, active: ID, viewer: ID)
    ensures var g := GraphFor(conns, peers, active, viewer);
      && g.conns == conns
      && (viewer == active && active != "" ==>
           && (forall id :: id in g.distrusted <==> exists p :: p in peers && p.distrusted && p.id == id)
           && (forall s :: s in g.seeds <==>
                exists p :: p in peers && !p.distrusted && s == Frontier(p.id, [p.id], p.trustDepth, p.vetoOnly)))
      && (viewer != active || active == "" ==>
           && g.distrusted == {}
           && (forall s :: s in g.seeds <==> exists e ::
                e in Outgoing(conns, viewer) && s == Frontier(e.otherID, [e.otherID], e.trustExtends, false)))
  {
  }

  // ---- the walk ----

  function Min(a: int, b: int): int {
    if a < b then a else b
  }

  function Hop(f: Frontier, e: Edge): Frontier {
    Frontier(e.otherID, f.path + [e.otherID], Min(f.depthLeft - 1, e.trustExtends), f.vetoOnly)
  }

  function Hops(distrusted: set<ID>, f: Frontier, edges: seq<Edge>): (hops: seq<Frontier>)
    ensures forall h :: h in hops <==> exists e :: e in edges && e.otherID !in distrusted && h == Hop(f, e)
  {
    if edges == [] then []
    else
      var n := |edges| - 1;
      assert edges == edges[..n] + [edges[n]];
      var front := Hops(distrusted, f, edges[..n]);
      if edges[n].otherID in distrusted then front else front + [Hop(f, edges[n])]
  }

  /** A hop continues the path and keeps the flag, and has what is left of both budgets. */
  lemma HopsMean(distrusted: set<ID>, f: Frontier, edges: seq<Edge>, h: Frontier)
    ensures h in Hops(distrusted, f, edges) <==> exists e ::
      && e in edges && e.otherID !in distrusted
      && h.signer == e.otherID && h.path == f.path + [e.otherID] && h.vetoOnly == f.vetoOnly
      && h.depthLeft <= f.depthLeft - 1 && h.depthLeft <= e.trustExtends
      && (h.depthLeft == f.depthLeft - 1 || h.depthLeft == e.trustExtends)
  {
    forall e: Edge
      ensures h == Hop(f, e) <==>
        && h.signer == e.otherID && h.path == f.path + [e.otherID] && h.vetoOnly == f.vetoOnly
        && h.depthLeft <= f.depthLeft - 1 && h.depthLeft <= e.trustExtends
        && (h.depthLeft == f.depthLeft - 1 || h.depthLeft == e.trustExtends)
    {
    }
  }

  function Expand(g: Graph, f: Frontier): seq<Frontier> {
    if f.depthLeft <= 0 then [] else Hops(g.distrusted, f, Outgoing(g.conns, f.signer))
  }

  predicate Records(g: Graph, f: Frontier, visits: map<ID, Frontier>) {
    f.signer !in g.distrusted && f.signer !in visits
  }

  /** Every id that can be queued. */
  function Nodes(g: Graph): set<ID> {
    (set f | f in g.seeds :: f.signer) + (set r | r in g.conns && r.body.Parsed? :: r.body.payload.otherID)
  }

  ghost predicate InNodes(g: Graph, queue: seq<Frontier>) {
    forall f :: f in queue ==> f.signer in Nodes(g)
  }

  lemma ExpandInNodes(g: Graph, f: Frontier)
    ensures InNodes(g, Expand(g, f))
  {
    if f.depthLeft > 0 {
      var listing := BySigner(g.conns, f.signer);
      forall e | e in Outgoing(g.conns, f.signer)
        ensures e.otherID in Nodes(g)
      {
        EdgeMembers(listing, Targets(listing, ConnectionRevocation), e);
        var row :| row in listing && IsTrustRow(Targets(listing, ConnectionRevocation), row)
          && e == Edge(row.body.payload.otherID, row.body.payload.trustExtends);
        BySignerMembers(g.conns, f.signer, row);
      }
    }
  }

  /** The recorded frontier of every signer the walk reaches, first visit first served. */
  function Walk(g: Graph, queue: seq<Frontier>, visits: map<ID, Frontier>): map<ID, Frontier>
    requires InNodes(g, queue)
    decreases Nodes(g) - visits.Keys, |queue|
  {
    if queue == [] then visits
    else
      var f := queue[0];
      if !Records(g, f, visits) then Walk(g, queue[1..], visits)
      else
        ExpandInNodes(g, f);
        var visits' := visits[f.signer := f];
        assert f.signer in (Nodes(g) - visits.Keys) && f.signer !in (Nodes(g) - visits'.Keys);
        Walk(g, queue[1..] + Expand(g, f), visits')
  }

  /** The frontiers the walk records, in the order it records them. */
  ghost function Recording(g: Graph, queue: seq<Frontier>, visits: map<ID, Frontier>): seq<Frontier>
    requires InNodes(g, queue)
    decreases Nodes(g) - visits.Keys, |queue|
  {
    if queue == [] then []
    else
      var f := queue[0];
      if !Records(g, f, visits) then Recording(g, queue[1..], visits)
      else
        ExpandInNodes(g, f);
        var visits' := visits[f.signer := f];
        assert f.signer in (Nodes(g) - visits.Keys) && f.signer !in (Nodes(g) - visits'.Keys);
        [f] + Recording(g, queue[1..] + Expand(g, f), visits')
  }

  function Visits(conns: seq<Row>, peers: seq<Peer>, active: ID, viewer: ID): map<ID, Frontier> {
    var g := GraphFor(conns, peers, active, viewer);
    Walk(g, g.seeds, Start(viewer))
  }

  /** The frontiers `buildTrustSet` records, in its order. */
  ghost function RecordingOrder(conns: seq<Row>, peers: seq<Peer>, active: ID, viewer: ID): seq<Frontier> {
    var g := GraphFor(conns, peers, active, viewer);
    Recording(g, g.seeds, Start(viewer))
  }

  function Entries(visits: map<ID, Frontier>): map<ID, Entry> {
    map id | id in visits :: Entry(visits[id].path, visits[id].vetoOnly)
  }

  /** The viewer's trust set: every reached signer with its path and veto-only flag. */
  function TrustSet(conns: seq<Row>, peers: seq<Peer>, active: ID, viewer: ID): map<ID, Entry> {
    Entries(Visits(conns, peers, active, viewer))
  }

  /** The first half of `buildTrustSet`: the local distrust set and the direct edges. */
  method Seed(store: Store, active: ID, viewer: ID) returns (distrusted: set<ID>, queue: seq<Frontier>)
    ensures GraphFor(store.conns, store.peers, active, viewer) == Graph(store.conns, distrusted, queue)
  {
    distrusted := {};
    queue := [];
    if viewer == active && active != "" {
      var peers := store.peers;
      for i := 0 to |peers|
        invariant distrusted == Distrusted(peers[..i])
      {
        assert peers[..i + 1] == peers[..i] + [peers[i]];
        if peers[i].distrusted {
          distrusted := distrusted + {peers[i].id};
        }
      }
      for i := 0 to |peers|
        invariant queue == PeerSeeds(peers[..i])
      {
        assert peers[..i + 1][..i] == peers[..i];
        if peers[i].distrusted {
          continue;
        }
        queue := queue + [Frontier(peers[i].id, [peers[i].id], peers[i].trustDepth, peers[i].vetoOnly)];
      }
      assert peers[..|peers|] == peers;
    } else {
      var conns := SignerOutgoing(store.conns, viewer);
      for i := 0 to |conns|
        invariant queue == EdgeSeeds(conns[..i])
      {
        assert conns[..i + 1][..i] == conns[..i];
        queue := queue + [Frontier(conns[i].otherID, [conns[i].otherID], conns[i].trustExtends, false)];
      }
      assert conns[..|conns|] == conns;
    }
  }

  /** Queue the hops past a recorded signer. */
  method Enqueue(queue: seq<Frontier>, f: Frontier, conns: seq<Edge>, distrusted: set<ID>)
    returns (longer: seq<Frontier>)
    ensures longer == queue + Hops(distrusted, f, conns)
  {
    longer := queue;
    for i := 0 to |conns|
      invariant longer == queue + Hops(distrusted, f, conns[..i])
    {
      assert conns[..i + 1][..i] == conns[..i];
      var c := conns[i];
      if c.otherID in distrusted {
        continue;
      }
      var nextDepth := f.depthLeft - 1;
      if c.trustExtends < nextDepth {
        nextDepth := c.trustExtends;
      }
      longer := longer + [Frontier(c.otherID, f.path + [c.otherID], nextDepth, f.vetoOnly)];
    }
    assert conns[..|conns|] == conns;
  }

  /** Where the loop of `buildTrustSet` stands: what it has recorded and in which order, and that
      what it still has to do leads to the whole walk. */
  ghost predicate Walking(g: Graph, viewer: ID, queue: seq<Frontier>, visits: map<ID, Frontier>, result: map<ID,
                          Entry>, order: seq<Frontier>) {
    && InNodes(g, queue) && result == Entries(visits)
    && Walk(g, queue, visits) == Walk(g, g.seeds, Start(viewer))
    && order + Recording(g, queue, visits) == Recording(g, g.seeds, Start(viewer))
  }

  lemma WalkingStarts(g: Graph, viewer: ID)
    ensures Walking(g, viewer, g.seeds, Start(viewer), Entries(Start(viewer)), [])
  {
    assert [] + Recording(g, g.seeds, Start(viewer)) == Recording(g, g.seeds, Start(viewer));
  }

  lemma WalkingSkips(g: Graph, viewer: ID, queue: seq<Frontier>, visits: map<ID, Frontier>, result: map<ID, Entry>,
                     order: seq<Frontier>)
    requires Walking(g, viewer, queue, visits, result, order) && queue != [] && !Records(g, queue[0], visits)
    ensures Walking(g, viewer, queue[1..], visits, result, order)
  {
  }

  lemma WalkingRecords(g: Graph, viewer: ID, queue: seq<Frontier>, visits: map<ID, Frontier>, result: map<ID, Entry>,
                       order: seq<Frontier>)
    requires Walking(g, viewer, queue, visits, result, order) && queue != [] && Records(g, queue[0], visits)
    ensures var f := queue[0];
      && f.signer in Nodes(g) - visits.Keys
      && Walking(g, viewer, queue[1..] + Expand(g, f), visits[f.signer := f],
           result[f.signer := Entry(f.path, f.vetoOnly)], order + [f])
  {
    var f := queue[0];
    ExpandInNodes(g, f);
    var rest := Recording(g, queue[1..] + Expand(g, f), visits[f.signer := f]);
    assert order + ([f] + rest) == (order + [f]) + rest;
  }

  lemma WalkingEnds(g: Graph, viewer: ID, visits: map<ID, Frontier>, result: map<ID, Entry>, order: seq<Frontier>)
    requires Walking(g, viewer, [], visits, result, order)
    ensures result == Entries(Walk(g, g.seeds, Start(viewer))) && order == Recording(g, g.seeds, Start(viewer))
  {
    assert order + [] == order;
  }

  /** `buildTrustSet`. */
  method BuildTrustSet(store: Store, active: ID, viewer: ID)
    returns (result: map<ID, Entry>, ghost order: seq<Frontier>)
    ensures result == TrustSet(store.conns, store.peers, active, viewer)
    ensures order == RecordingOrder(store.conns, store.peers, active, viewer)
  {
    var distrusted, queue := Seed(store, active, viewer);
    result := if viewer != "" then map[viewer := Entry([], false)] else map[];
    ghost var g, visits := Graph(store.conns, distrusted, queue), Start(viewer);
    order := [];
    WalkingStarts(g, viewer);
    while queue != []
      invariant Walking(g, viewer, queue, visits, result, order)
      decreases Nodes(g) - visits.Keys, |queue|
    {
      var f := queue[0];
      if f.signer in distrusted || f.signer in result {
        WalkingSkips(g, viewer, queue, visits, result, order);
        queue := queue[1..];
        continue;
      }
      WalkingRecords(g, viewer, queue, visits, result, order);
      queue := queue[1..];
      result := result[f.signer := Entry(f.path, f.vetoOnly)];
      visits, order := visits[f.signer := f], order + [f];
      if f.depthLeft <= 0 {
        assert queue + Expand(g, f) == queue;
        continue;
      }
      var conns := SignerOutgoing(store.conns, f.signer);
      queue := Enqueue(queue, f, conns, distrusted);
    }
    WalkingEnds(g, viewer, visits, result, order);
  }
}
