/** For which peers tables the trust walk keeps its promise, whatever connections are stored: every
    signer within the depth limits is found if and only if nobody is trusted beyond depth one. */
module TrustWalkPromise {
  import opened Payloads
  import opened Tables
  import opened Stores
  import opened TrustWalk
  import opened TrustWalkSound
  import opened TrustWalkComplete
  import opened TrustWalkFrame
  import opened TrustWalkLimits

  /** Whatever connections are stored, every path within the limits ends at a member of the trust set. */
  ghost predicate PromiseKept(peers: seq<Peer>, viewer: ID) {
    forall conns, path, vetoOnly ::
      TrustPath(GraphFor(conns, peers, viewer, viewer), viewer, path, vetoOnly) ==>
        Last(path) in TrustSet(conns, peers, viewer, viewer)
  }

  predicate IsDeep(viewer: ID, p: Peer) {
    !p.distrusted && p.id != viewer && p.trustDepth > 1
  }

  // ---- shallow peers ----

  lemma SameIdSamePeer(peers: seq<Peer>, p: Peer, q: Peer)
    requires SortedPeers(peers) && p in peers && q in peers && p.id == q.id
    ensures p == q
  {
    var i :| 0 <= i < |peers| && peers[i] == p;
    var j :| 0 <= j < |peers| && peers[j] == q;
    DistinctIds(peers, i, j);
  }

  /** A direct peer is recorded as it is seeded. */
  lemma PeerRecorded(conns: seq<Row>, peers: seq<Peer>, viewer: ID, p: Peer)
    requires SortedPeers(peers) && viewer != "" && p in peers && !p.distrusted && p.id != viewer
    ensures p.id !in Distrusted(peers)
    ensures p.id in Visits(conns, peers, viewer, viewer)
    ensures Visits(conns, peers, viewer, viewer)[p.id] == PeerSeed(p)
  {
    var g, visits := GraphFor(conns, peers, viewer, viewer), Visits(conns, peers, viewer, viewer);
    forall q | q in peers && q.id == p.id
      ensures q == p
    {
      SameIdSamePeer(peers, p, q);
    }
    assert PeerSeed(p) in g.seeds;
    TrustSetComplete(conns, peers, viewer, viewer);
    VisitsSound(conns, peers, viewer, viewer);
    assert visits[p.id] in g.seeds;
  }

  lemma ShallowPathFound(conns: seq<Row>, peers: seq<Peer>, viewer: ID, path: seq<ID>, vetoOnly: bool)
    requires SortedPeers(peers) && viewer != "" && forall p :: p in peers ==> !IsDeep(viewer, p)
    requires TrustPath(GraphFor(conns, peers, viewer, viewer), viewer, path, vetoOnly)
    ensures Last(path) in TrustSet(conns, peers, viewer, viewer)
  {
    var p := PathStartsAtPeer(conns, peers, viewer, path, vetoOnly);
    PeerRecorded(conns, peers, viewer, p);
    assert p.trustDepth <= 1 && |path| <= 2;
    if |path| == 2 {
      SecondHopFound(conns, peers, viewer, p, path);
    }
  }

  lemma PathStartsAtPeer(conns: seq<Row>, peers: seq<Peer>, viewer: ID, path: seq<ID>, vetoOnly: bool) returns (p: Peer)
    requires viewer != "" && TrustPath(GraphFor(conns, peers, viewer, viewer), viewer, path, vetoOnly)
    ensures p in peers && !p.distrusted && p.id == path[0] && p.id != viewer && HopsWithin(path, 0, p.trustDepth)
    ensures |path| == 2 ==> HopAllowed(GraphFor(conns, peers, viewer, viewer), path, 1)
    ensures |path| == 2 ==> path[1] !in Distrusted(peers)
  {
    var g := GraphFor(conns, peers, viewer, viewer);
    var s :| s in g.seeds && s.signer == path[0] && s.vetoOnly == vetoOnly && HopsWithin(path, 0, s.depthLeft);
    p :| p in peers && !p.distrusted && s == PeerSeed(p);
  }

  lemma SecondHopFound(conns: seq<Row>, peers: seq<Peer>, viewer: ID, p: Peer, path: seq<ID>)
    requires |path| == 2 && viewer != "" && path[0] == p.id && p.trustDepth >= 1 && path[1] !in Distrusted(peers)
    requires HopAllowed(GraphFor(conns, peers, viewer, viewer), path, 1)
    requires p.id in Visits(conns, peers, viewer, viewer) && Visits(conns, peers, viewer, viewer)[p.id] == PeerSeed(p)
    ensures path[1] in Visits(conns, peers, viewer, viewer)
  {
    TrustSetComplete(conns, peers, viewer, viewer);
  }

  // ---- a peer two hops deep ----

  lemma {:induction false} LongerThanAll(ids: set<ID>) returns (n: nat)
    ensures forall id :: id in ids ==> |id| < n
  {
    if ids == {} {
      n := 1;
    } else {
      var id :| id in ids;
      n := LongerThanAll(ids - {id});
      n := if |id| < n then n else |id| + 1;
    }
  }

  lemma FreshId(ids: set<ID>) returns (other: ID)
    ensures other !in ids
  {
    var n := LongerThanAll(ids);
    other := seq(n, i => 'x');
    assert |other| == n;
  }

  /** The peer trusts middle twice, first without and then with a hop left; middle trusts last. */
  function TwiceConns(p: ID, middle: ID, last: ID): seq<Row> {
    [Link("1", p, middle, 0), Link("2", p, middle, 1), Link("3", middle, last, 0)]
  }

  lemma FilterThree(a: Row, b: Row, c: Row, keep: Row -> bool)
    ensures Filter([a, b, c], keep)
         == (if keep(a) then [a] else []) + (if keep(b) then [b] else []) + (if keep(c) then [c] else [])
  {
    assert [a, b, c] == [a, b] + [c];
    FilterTwo(a, b, keep);
    FilterSnoc([a, b], c, keep);
  }

  lemma TwoRows(a: Row, b: Row)
    requires IsKind(a.body, Connection) && a.body.payload.trust && IsKind(b.body, Connection) && b.body.payload.trust
    requires a.at == b.at
    ensures SortByTime([a, b]) == [a, b]
    ensures EdgesOf([a, b], Targets([a, b], ConnectionRevocation))
         == [Edge(a.body.payload.otherID, a.body.payload.trustExtends)]
          + [Edge(b.body.payload.otherID, b.body.payload.trustExtends)]
  {
    assert [a, b][..1] == [a] && [a][..0] == [];
    OneRow(a, a.body.payload.otherID, a.body.payload.trustExtends);
    assert Targets([a, b], ConnectionRevocation) == {} == Targets([a], ConnectionRevocation);
  }

  lemma TwiceListings(p: ID, middle: ID, last: ID)
    requires p != middle
    ensures var conns := TwiceConns(p, middle, last);
      BySigner(conns, p) == SortByTime([conns[0], conns[1]]) && BySigner(conns, middle) == SortByTime([conns[2]])
  {
    var conns := TwiceConns(p, middle, last);
    FilterThree(conns[0], conns[1], conns[2], (r: Row) => r.signer == p);
    FilterThree(conns[0], conns[1], conns[2], (r: Row) => r.signer == middle);
    assert [conns[0]] + [conns[1]] + [] == [conns[0], conns[1]] && [] + [] + [conns[2]] == [conns[2]];
  }

  lemma TwiceEdges(p: ID, middle: ID, last: ID)
    requires p != middle
    ensures Outgoing(TwiceConns(p, middle, last), p) == [Edge(middle, 0), Edge(middle, 1)]
    ensures Outgoing(TwiceConns(p, middle, last), middle) == [Edge(last, 0)]
  {
    var conns := TwiceConns(p, middle, last);
    TwiceListings(p, middle, last);
    TwoRows(conns[0], conns[1]);
    OneRow(conns[2], last, 0);
  }

  /** There are no other edges. */
  lemma TwiceOnly(p: ID, middle: ID, last: ID, signer: ID, e: Edge)
    requires e in Outgoing(TwiceConns(p, middle, last), signer)
    ensures (signer == p && e.otherID == middle) || (signer == middle && e.otherID == last)
  {
    var listing := BySigner(TwiceConns(p, middle, last), signer);
    var revoked := Targets(listing, ConnectionRevocation);
    EdgeMembers(listing, revoked, e);
    var row :| row in listing && IsTrustRow(revoked, row) && row.body.payload.otherID == e.otherID;
    BySignerMembers(TwiceConns(p, middle, last), signer, row);
  }

  // ---- who comes first in the queue is recorded ----

  lemma {:induction false} FirstQueued(g: Graph, queue: seq<Frontier>, visits: map<ID, Frontier>, k: nat)
    requires InNodes(g, queue) && k < |queue| && queue[k].signer !in visits && queue[k].signer !in g.distrusted
    requires forall i :: 0 <= i < k ==> queue[i].signer != queue[k].signer
    ensures queue[k].signer in Walk(g, queue, visits) && Walk(g, queue, visits)[queue[k].signer] == queue[k]
    decreases Nodes(g) - visits.Keys, |queue|
  {
    var f := queue[0];
    if !Records(g, f, visits) {
      FirstQueued(g, queue[1..], visits, k - 1);
    } else {
      ExpandInNodes(g, f);
      assert f.signer in Nodes(g) - visits.Keys;
      var queue', visits' := queue[1..] + Expand(g, f), visits[f.signer := f];
      if k == 0 {
        WalkGrows(g, queue', visits', f.signer);
      } else {
        assert queue'[k - 1] == queue[k] && forall i :: 0 <= i < k - 1 ==> queue'[i] == queue[i + 1];
        FirstQueued(g, queue', visits', k - 1);
      }
    }
  }

  lemma {:induction false} HopsFirst(distrusted: set<ID>, f: Frontier, edges: seq<Edge>)
    requires edges != [] && edges[0].otherID !in distrusted
    ensures |Hops(distrusted, f, edges)| > 0 && Hops(distrusted, f, edges)[0] == Hop(f, edges[0])
  {
    if |edges| > 1 {
      HopsFirst(distrusted, f, edges[..|edges| - 1]);
    } else {
      assert edges[..0] == [] && Hops(distrusted, f, []) == [];
    }
  }

  /** Only `p` has edges to `x`, and nobody has one to `p`. */
  ghost predicate OnlySource(g: Graph, p: ID, x: ID) {
    forall s, e :: e in Outgoing(g.conns, s) ==> e.otherID != p && (e.otherID == x ==> s == p)
  }

  lemma FirstHopRecorded(g: Graph, f: Frontier, rest: seq<Frontier>, visits: map<ID, Frontier>, x: ID)
    requires InNodes(g, rest + Expand(g, f)) && f.depthLeft > 0 && x !in visits && x !in g.distrusted
    requires forall h :: h in rest ==> h.signer != x
    requires Outgoing(g.conns, f.signer) != [] && Outgoing(g.conns, f.signer)[0].otherID == x
    ensures x in Walk(g, rest + Expand(g, f), visits)
    ensures Walk(g, rest + Expand(g, f), visits)[x] == Hop(f, Outgoing(g.conns, f.signer)[0])
  {
    var queue := rest + Expand(g, f);
    HopsFirst(g.distrusted, f, Outgoing(g.conns, f.signer));
    assert queue[|rest|] == Expand(g, f)[0] && forall i :: 0 <= i < |rest| ==> queue[i] == rest[i];
    assert forall i :: 0 <= i < |rest| ==> rest[i] in rest;
    FirstQueued(g, queue, visits, |rest|);
  }

  /** The target of `p`'s first connection is recorded as that connection finds it. */
  lemma {:induction false} FirstEdgeRecorded(g: Graph, queue: seq<Frontier>, visits: map<ID, Frontier>, k: nat, x: ID)
    requires InNodes(g, queue) && k < |queue| && queue[k].depthLeft > 0
    requires queue[k].signer !in visits && queue[k].signer !in g.distrusted && x !in visits && x !in g.distrusted
    requires forall i :: 0 <= i < k ==> queue[i].signer != queue[k].signer
    requires OnlySource(g, queue[k].signer, x) && forall f :: f in queue ==> f.signer != x
    requires Outgoing(g.conns, queue[k].signer) != [] && Outgoing(g.conns, queue[k].signer)[0].otherID == x
    ensures x in Walk(g, queue, visits)
    ensures Walk(g, queue, visits)[x] == Hop(queue[k], Outgoing(g.conns, queue[k].signer)[0])
    decreases Nodes(g) - visits.Keys, |queue|
  {
    var f := queue[0];
    if !Records(g, f, visits) {
      FirstEdgeRecorded(g, queue[1..], visits, k - 1, x);
    } else {
      ExpandInNodes(g, f);
      assert f.signer in Nodes(g) - visits.Keys;
      var more := Expand(g, f);
      var queue', visits' := queue[1..] + more, visits[f.signer := f];
      if k == 0 {
        FirstHopRecorded(g, f, queue[1..], visits', x);
      } else {
        assert queue'[k - 1] == queue[k] && forall i :: 0 <= i < k - 1 ==> queue'[i] == queue[i + 1];
        FirstEdgeRecorded(g, queue', visits', k - 1, x);
      }
    }
  }

  lemma {:induction false} FirstIndex(queue: seq<Frontier>, id: ID) returns (k: nat)
    requires exists f :: f in queue && f.signer == id
    ensures k < |queue| && queue[k].signer == id && forall i :: 0 <= i < k ==> queue[i].signer != id
  {
    if queue[0].signer == id {
      k := 0;
    } else {
      assert queue == [queue[0]] + queue[1..];
      k := FirstIndex(queue[1..], id);
      k := k + 1;
    }
  }

  // ---- the promise breaks ----

  /** The ids of a peer two hops deep and of two signers that are nobody else. */
  ghost predicate IsTwice(peers: seq<Peer>, viewer: ID, p: Peer, middle: ID, last: ID) {
    && SortedPeers(peers) && viewer != "" && p in peers && IsDeep(viewer, p)
    && middle != viewer && last != viewer && middle != last
    && forall q :: q in peers ==> q.id != middle && q.id != last
  }

  lemma OnlySeed(peers: seq<Peer>, p: Peer, s: Frontier)
    requires SortedPeers(peers) && p in peers && s in PeerSeeds(peers) && s.signer == p.id
    ensures s == PeerSeed(p)
  {
    var q :| q in peers && s == PeerSeed(q);
    assert s.signer == PeerSeed(q).signer == q.id;
    SameIdSamePeer(peers, p, q);
  }

  lemma NotDistrusted(peers: seq<Peer>, id: ID)
    requires forall q :: q in peers ==> q.id != id
    ensures id !in Distrusted(peers) && forall s :: s in PeerSeeds(peers) ==> s.signer != id
  {
  }

  lemma TwiceSource(p: ID, middle: ID, last: ID, g: Graph)
    requires p != middle && p != last && middle != last && g.conns == TwiceConns(p, middle, last)
    ensures OnlySource(g, p, middle)
  {
    forall s, e | e in Outgoing(g.conns, s)
      ensures e.otherID != p && (e.otherID == middle ==> s == p)
    {
      TwiceOnly(p, middle, last, s, e);
    }
  }

  lemma MiddleRecorded(peers: seq<Peer>, viewer: ID, p: Peer, middle: ID, last: ID)
    requires IsTwice(peers, viewer, p, middle, last)
    ensures var visits := Visits(TwiceConns(p.id, middle, last), peers, viewer, viewer);
      middle in visits && visits[middle].depthLeft <= 0
  {
    var conns := TwiceConns(p.id, middle, last);
    var g := GraphFor(conns, peers, viewer, viewer);
    PeerRecorded(conns, peers, viewer, p);
    assert PeerSeed(p) in g.seeds;
    var k := FirstIndex(g.seeds, p.id);
    OnlySeed(peers, p, g.seeds[k]);
    TwiceEdges(p.id, middle, last);
    TwiceSource(p.id, middle, last, g);
    NotDistrusted(peers, middle);
    FirstEdgeRecorded(g, g.seeds, Start(viewer), k, middle);
  }

  lemma LastMissed(peers: seq<Peer>, viewer: ID, p: Peer, middle: ID, last: ID)
    requires IsTwice(peers, viewer, p, middle, last)
    ensures last !in TrustSet(TwiceConns(p.id, middle, last), peers, viewer, viewer)
  {
    var conns := TwiceConns(p.id, middle, last);
    var g, visits := GraphFor(conns, peers, viewer, viewer), Visits(conns, peers, viewer, viewer);
    VisitsSound(conns, peers, viewer, viewer);
    MiddleRecorded(peers, viewer, p, middle, last);
    if last in visits {
      var parent := Last(Init(visits[last].path));
      var e :| e in Outgoing(conns, parent) && e.otherID == last;
      TwiceOnly(p.id, middle, last, parent, e);
      assert false;
    }
  }

  lemma TwiceIsTrustPath(peers: seq<Peer>, viewer: ID, p: Peer, middle: ID, last: ID)
    requires IsTwice(peers, viewer, p, middle, last)
    ensures TrustPath(GraphFor(TwiceConns(p.id, middle, last), peers, viewer, viewer), viewer, [p.id, middle,
      last], p.vetoOnly)
  {
    var conns := TwiceConns(p.id, middle, last);
    var g := GraphFor(conns, peers, viewer, viewer);
    PeerRecorded(conns, peers, viewer, p);
    assert PeerSeed(p) in g.seeds;
    TwiceHops(p.id, middle, last, g);
    NotDistrusted(peers, middle);
    NotDistrusted(peers, last);
    TwoHops(g, viewer, PeerSeed(p), middle, last);
  }

  lemma TwiceHops(p: ID, middle: ID, last: ID, g: Graph)
    requires p != middle && g.conns == TwiceConns(p, middle, last)
    ensures HopAllowed(g, [p, middle, last], 1) && HopAllowed(g, [p, middle, last], 2)
  {
    TwiceEdges(p, middle, last);
    assert Edge(middle, 1) in Outgoing(g.conns, p);
    assert Edge(last, 0) in Outgoing(g.conns, middle);
  }

  lemma DeepPeerBreaksPromise(peers: seq<Peer>, viewer: ID, p: Peer)
    requires SortedPeers(peers) && viewer != "" && p in peers && IsDeep(viewer, p)
    ensures !PromiseKept(peers, viewer)
  {
    var ids := (set q | q in peers :: q.id) + {viewer};
    var middle := FreshId(ids);
    var last := FreshId(ids + {middle});
    assert forall q :: q in peers ==> q.id in ids;
    TwiceIsTrustPath(peers, viewer, p, middle, last);
    LastMissed(peers, viewer, p, middle, last);
    assert Last([p.id, middle, last]) == last;
  }

  /** Every signer within the limits is found, whatever connections are stored, if and only if the
      active user trusts nobody but possibly themselves beyond depth one. */
  lemma PromiseKeptIffShallow(peers: seq<Peer>, viewer: ID)
    requires SortedPeers(peers) && viewer != ""
    ensures PromiseKept(peers, viewer) <==> forall p :: p in peers ==> !IsDeep(viewer, p)
  {
    if p :| p in peers && IsDeep(viewer, p) {
      DeepPeerBreaksPromise(peers, viewer, p);
    } else {
      forall conns, path, vetoOnly | TrustPath(GraphFor(conns, peers, viewer, viewer), viewer, path, vetoOnly)
        ensures Last(path) in TrustSet(conns, peers, viewer, viewer)
      {
        ShallowPathFound(conns, peers, viewer, path, vetoOnly);
      }
    }
  }
}
