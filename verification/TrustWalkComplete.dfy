/** Completeness of the trust walk: whatever a recorded signer may still reach is recorded too,
    breadth first. */
module TrustWalkComplete {
  import opened Payloads
  import opened Tables
  import opened TrustWalk
  import opened TrustWalkSound

  /** `id` is recorded, or waits in the queue, with a path of at most `n` hops. */
  ghost predicate Reached(queue: seq<Frontier>, visits: map<ID, Frontier>, id: ID, n: nat) {
    || (id in visits && |visits[id].path| <= n)
    || (exists f :: f in queue && f.signer == id && |f.path| <= n)
  }

  /** Seeds and the targets of every recorded signer with budget left are reached, one hop further. */
  ghost predicate Closed(g: Graph, queue: seq<Frontier>, visits: map<ID, Frontier>) {
    && (forall s :: s in g.seeds && s.signer !in g.distrusted ==> Reached(queue, visits, s.signer, 1))
    && (forall id, e | id in visits && visits[id].path != [] && visits[id].depthLeft > 0
         && e in Outgoing(g.conns, id) ::
         e.otherID in g.distrusted || Reached(queue, visits, e.otherID, |visits[id].path| + 1))
  }

  /** The queue is breadth first: paths never get shorter, and span at most two lengths. */
  ghost predicate BreadthFirst(queue: seq<Frontier>, visits: map<ID, Frontier>) {
    && (forall i, j :: 0 <= i < j < |queue| ==> |queue[i].path| <= |queue[j].path|)
    && (forall i :: 0 <= i < |queue| ==> queue[i].path != [] && |queue[i].path| <= |queue[0].path| + 1)
    && (queue != [] ==> forall id :: id in visits ==> |visits[id].path| <= |queue[0].path|)
  }

  lemma DropKeepsClosed(g: Graph, queue: seq<Frontier>, visits: map<ID, Frontier>)
    requires queue != [] && Closed(g, queue, visits) && BreadthFirst(queue, visits) && !Records(g, queue[0], visits)
    ensures Closed(g, queue[1..], visits)
  {
    forall id, n: nat | id !in g.distrusted && Reached(queue, visits, id, n)
      ensures Reached(queue[1..], visits, id, n)
    {
      if !(id in visits && |visits[id].path| <= n) {
        var f :| f in queue && f.signer == id && |f.path| <= n;
        if f != queue[0] {
          assert f in queue[1..];
        }
      }
    }
  }

  lemma RecordKeepsReached(g: Graph, queue: seq<Frontier>, visits: map<ID, Frontier>, more: seq<Frontier>, id: ID,
                           n: nat)
    requires queue != [] && Records(g, queue[0], visits) && Reached(queue, visits, id, n)
    ensures Reached(queue[1..] + more, visits[queue[0].signer := queue[0]], id, n)
  {
    if !(id in visits && |visits[id].path| <= n) {
      var f :| f in queue && f.signer == id && |f.path| <= n;
      if f != queue[0] {
        assert f in queue[1..];
        assert f in queue[1..] + more;
      }
    }
  }

  lemma RecordKeepsClosed(g: Graph, queue: seq<Frontier>, visits: map<ID, Frontier>)
    requires queue != [] && Closed(g, queue, visits) && Records(g, queue[0], visits)
    ensures Closed(g, queue[1..] + Expand(g, queue[0]), visits[queue[0].signer := queue[0]])
  {
    var f, more := queue[0], Expand(g, queue[0]);
    var queue', visits' := queue[1..] + more, visits[f.signer := f];
    forall id, n: nat | Reached(queue, visits, id, n)
      ensures Reached(queue', visits', id, n)
    {
      RecordKeepsReached(g, queue, visits, more, id, n);
    }
    if f.depthLeft > 0 {
      forall e | e in Outgoing(g.conns, f.signer) && e.otherID !in g.distrusted
        ensures Reached(queue', visits', e.otherID, |f.path| + 1)
      {
        assert Hop(f, e) in more;
        assert Hop(f, e) in queue';
      }
    }
  }

  lemma ExpandOneFurther(g: Graph, f: Frontier)
    ensures forall i :: 0 <= i < |Expand(g, f)| ==> |Expand(g, f)[i].path| == |f.path| + 1
  {
    forall i | 0 <= i < |Expand(g, f)|
      ensures |Expand(g, f)[i].path| == |f.path| + 1
    {
      assert Expand(g, f)[i] in Expand(g, f);
    }
  }

  lemma RecordKeepsBreadthFirst(g: Graph, queue: seq<Frontier>, visits: map<ID, Frontier>)
    requires queue != [] && BreadthFirst(queue, visits)
    ensures BreadthFirst(queue[1..] + Expand(g, queue[0]), visits[queue[0].signer := queue[0]])
  {
    var f, rest, more := queue[0], queue[1..], Expand(g, queue[0]);
    ExpandOneFurther(g, f);
    var queue' := rest + more;
    assert forall i :: 0 <= i < |rest| ==> queue'[i] == queue[i + 1];
    assert forall i :: |rest| <= i < |queue'| ==> queue'[i] == more[i - |rest|];
  }

  lemma {:induction false} WalkComplete(g: Graph, queue: seq<Frontier>, visits: map<ID, Frontier>)
    requires InNodes(g, queue) && Closed(g, queue, visits) && BreadthFirst(queue, visits)
    ensures Closed(g, [], Walk(g, queue, visits))
    decreases Nodes(g) - visits.Keys, |queue|
  {
    if queue != [] {
      var f := queue[0];
      if !Records(g, f, visits) {
        DropKeepsClosed(g, queue, visits);
        WalkComplete(g, queue[1..], visits);
      } else {
        ExpandInNodes(g, f);
        RecordKeepsClosed(g, queue, visits);
        RecordKeepsBreadthFirst(g, queue, visits);
        assert f.signer in Nodes(g) - visits.Keys;
        WalkComplete(g, queue[1..] + Expand(g, f), visits[f.signer := f]);
      }
    }
  }

  lemma VisitsComplete(conns: seq<Row>, peers: seq<Peer>, active: ID, viewer: ID)
    ensures Closed(GraphFor(conns, peers, active, viewer), [], Visits(conns, peers, active, viewer))
  {
    var g := GraphFor(conns, peers, active, viewer);
    StartComplete(conns, peers, active, viewer);
    WalkComplete(g, g.seeds, Start(viewer));
  }

  lemma StartComplete(conns: seq<Row>, peers: seq<Peer>, active: ID, viewer: ID)
    ensures var g := GraphFor(conns, peers, active, viewer);
      Closed(g, g.seeds, Start(viewer)) && BreadthFirst(g.seeds, Start(viewer))
  {
    var g := GraphFor(conns, peers, active, viewer);
    assert forall i :: 0 <= i < |g.seeds| ==> g.seeds[i] in g.seeds;
  }

  /** Completeness of the trust set: every direct peer that is not distrusted is in it, and so is
      every non-distrusted target of a recorded signer that had hops left, at most one hop
      further out than the signer. */
  lemma TrustSetComplete(conns: seq<Row>, peers: seq<Peer>, active: ID, viewer: ID)
    ensures
      var g, visits := GraphFor(conns, peers, active, viewer), Visits(conns, peers, active, viewer);
      && (forall s :: s in g.seeds && s.signer !in g.distrusted ==>
            s.signer in visits && |visits[s.signer].path| <= 1)
      && (forall id, e | id in visits && visits[id].path != [] && visits[id].depthLeft > 0
           && e in Outgoing(g.conns, id) ::
            || e.otherID in g.distrusted
            || (e.otherID in visits && |visits[e.otherID].path| <= |visits[id].path| + 1))
  {
    VisitsComplete(conns, peers, active, viewer);
    var g, visits := GraphFor(conns, peers, active, viewer), Visits(conns, peers, active, viewer);
    forall id, n: nat | Reached([], visits, id, n)
      ensures id in visits && |visits[id].path| <= n
    {
    }
  }

  // ---- the order of recording ----

  lemma {:induction false} RecordingIsWalk(g: Graph, queue: seq<Frontier>, visits: map<ID, Frontier>, id: ID)
    requires InNodes(g, queue)
    ensures id in visits ==> id in Walk(g, queue, visits) && Walk(g, queue, visits)[id] == visits[id]
    ensures id in Walk(g, queue, visits) && id !in visits ==> Walk(g, queue, visits)[id] in Recording(g, queue, visits)
    ensures forall f :: f in Recording(g, queue, visits) && f.signer == id ==>
      id !in visits && id in Walk(g, queue, visits) && Walk(g, queue, visits)[id] == f
    decreases Nodes(g) - visits.Keys, |queue|
  {
    if queue != [] {
      var f := queue[0];
      if !Records(g, f, visits) {
        RecordingIsWalk(g, queue[1..], visits, id);
      } else {
        ExpandInNodes(g, f);
        assert f.signer in Nodes(g) - visits.Keys;
        RecordingIsWalk(g, queue[1..] + Expand(g, f), visits[f.signer := f], id);
      }
    }
  }

  /** Nobody twice, and paths never get shorter, from `floor` hops on. */
  ghost predicate Ascending(order: seq<Frontier>, floor: nat) {
    && (forall i :: 0 <= i < |order| ==> floor <= |order[i].path|)
    && (forall i, j :: 0 <= i < j < |order| ==>
         |order[i].path| <= |order[j].path| && order[i].signer != order[j].signer)
  }

  lemma DropKeepsBreadthFirst(queue: seq<Frontier>, visits: map<ID, Frontier>)
    requires queue != [] && BreadthFirst(queue, visits)
    ensures BreadthFirst(queue[1..], visits)
    ensures |queue| > 1 ==> |queue[0].path| <= |queue[1].path|
  {
  }

  lemma AscendingCons(f: Frontier, rest: seq<Frontier>)
    requires Ascending(rest, |f.path|) && forall r :: r in rest ==> r.signer != f.signer
    ensures Ascending([f] + rest, |f.path|)
  {
    assert forall i :: 0 <= i < |rest| ==> rest[i] in rest;
  }

  lemma {:induction false} RecordingAscends(g: Graph, queue: seq<Frontier>, visits: map<ID, Frontier>, floor: nat)
    requires InNodes(g, queue) && BreadthFirst(queue, visits) && (queue != [] ==> floor <= |queue[0].path|)
    ensures Ascending(Recording(g, queue, visits), floor)
    decreases Nodes(g) - visits.Keys, |queue|
  {
    if queue != [] {
      var f := queue[0];
      if !Records(g, f, visits) {
        DropKeepsBreadthFirst(queue, visits);
        RecordingAscends(g, queue[1..], visits, floor);
      } else {
        var queue', visits' := queue[1..] + Expand(g, f), visits[f.signer := f];
        ExpandInNodes(g, f);
        RecordKeepsBreadthFirst(g, queue, visits);
        assert f.signer in Nodes(g) - visits.Keys;
        RecordingAscends(g, queue', visits', |f.path|);
        RecordingIsWalk(g, queue', visits', f.signer);
        AscendingCons(f, Recording(g, queue', visits'));
      }
    }
  }

  lemma RecordingEntry(conns: seq<Row>, peers: seq<Peer>, active: ID, viewer: ID, id: ID)
    ensures var order, visits := RecordingOrder(conns, peers, active, viewer), Visits(conns, peers, active, viewer);
      && (id in visits && (viewer == "" || id != viewer) ==> visits[id] in order && visits[id].signer == id)
      && (forall f :: f in order && f.signer == id ==> id in visits && visits[id] == f)
  {
    var g := GraphFor(conns, peers, active, viewer);
    VisitsSound(conns, peers, active, viewer);
    RecordingIsWalk(g, g.seeds, Start(viewer), id);
    if viewer == "" {
      NoEmptyPath(g, g.seeds, Start(viewer), id);
    }
  }

  /** The walk records every entry but the viewer's exactly once, in order of path length. */
  lemma RecordedShortestFirst(conns: seq<Row>, peers: seq<Peer>, active: ID, viewer: ID)
    ensures Ascending(RecordingOrder(conns, peers, active, viewer), 1)
    ensures forall id :: id in TrustSet(conns, peers, active, viewer) && (viewer == "" || id != viewer) ==>
      exists f :: f in RecordingOrder(conns, peers, active, viewer) && f.signer == id
    ensures forall f | f in RecordingOrder(conns, peers, active, viewer) ::
      f.signer in TrustSet(conns, peers, active, viewer)
      && TrustSet(conns, peers, active, viewer)[f.signer] == Entry(f.path, f.vetoOnly)
  {
    var g := GraphFor(conns, peers, active, viewer);
    assert forall i :: 0 <= i < |g.seeds| ==> g.seeds[i] in g.seeds;
    RecordingAscends(g, g.seeds, Start(viewer), 1);
    forall id
      ensures id in TrustSet(conns, peers, active, viewer) && (viewer == "" || id != viewer) ==>
        exists f :: f in RecordingOrder(conns, peers, active, viewer) && f.signer == id
    {
      RecordingEntry(conns, peers, active, viewer, id);
    }
    forall f | f in RecordingOrder(conns, peers, active, viewer)
      ensures f.signer in Visits(conns, peers, active, viewer) && Visits(conns, peers, active, viewer)[f.signer] == f
    {
      RecordingEntry(conns, peers, active, viewer, f.signer);
    }
  }
}
