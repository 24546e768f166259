/** The frame of the trust walk: it reads only the connections signed by the signers it records. */
module TrustWalkFrame {
  import opened Payloads
  import opened Tables
  import opened TrustWalk

  lemma {:induction false} WalkGrows(g: Graph, queue: seq<Frontier>, visits: map<ID, Frontier>, id: ID)
    requires InNodes(g, queue) && id in visits
    ensures id in Walk(g, queue, visits) && Walk(g, queue, visits)[id] == visits[id]
    decreases Nodes(g) - visits.Keys, |queue|
  {
    if queue != [] {
      var f := queue[0];
      if !Records(g, f, visits) {
        WalkGrows(g, queue[1..], visits, id);
      } else {
        ExpandInNodes(g, f);
        assert f.signer in Nodes(g) - visits.Keys;
        WalkGrows(g, queue[1..] + Expand(g, f), visits[f.signer := f], id);
      }
    }
  }

  /** Two graphs walked in lockstep: if they agree on the connections of the signers the first
      walk records, the second walk records the same. */
  lemma {:induction false} WalkFrame(g: Graph, g': Graph, queue: seq<Frontier>, visits: map<ID, Frontier>)
    requires InNodes(g, queue) && InNodes(g', queue) && g.distrusted == g'.distrusted
    requires forall id :: id in Walk(g, queue, visits) ==> Outgoing(g.conns, id) == Outgoing(g'.conns, id)
    ensures Walk(g', queue, visits) == Walk(g, queue, visits)
    decreases Nodes(g) - visits.Keys, |queue|
  {
    if queue != [] {
      var f := queue[0];
      if !Records(g, f, visits) {
        WalkFrame(g, g', queue[1..], visits);
      } else {
        ExpandInNodes(g, f);
        ExpandInNodes(g', f);
        assert f.signer in Nodes(g) - visits.Keys;
        var queue', visits' := queue[1..] + Expand(g, f), visits[f.signer := f];
        WalkGrows(g, queue', visits', f.signer);
        assert Expand(g', f) == Expand(g, f);
        WalkFrame(g, g', queue', visits');
      }
    }
  }

  /** The trust set depends only on the peers table and on the connections of the viewer and of
      its own members. */
  lemma TrustSetFrame(conns: seq<Row>, conns': seq<Row>, peers: seq<Peer>, peers': seq<Peer>, active: ID, viewer: ID)
    requires PeerSeeds(peers) == PeerSeeds(peers') && Distrusted(peers) == Distrusted(peers')
    requires BySigner(conns, viewer) == BySigner(conns', viewer)
    requires forall id :: id in TrustSet(conns, peers, active, viewer) ==> BySigner(conns, id) == BySigner(conns', id)
    ensures TrustSet(conns', peers', active, viewer) == TrustSet(conns, peers, active, viewer)
  {
    var g, g' := GraphFor(conns, peers, active, viewer), GraphFor(conns', peers', active, viewer);
    assert g.seeds == g'.seeds;
    WalkFrame(g, g', g.seeds, Start(viewer));
  }
}
