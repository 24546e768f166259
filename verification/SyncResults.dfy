/** What a sync leaves, over every run of `SyncProtocol`: exactly when no public signature is lost. */
module SyncResults {
  import opened Text
  import opened Payloads
  import opened Tables
  import opened Server
  import opened Sync
  import opened SyncProtocol

  /** The client holds every open signature of this signer. */
  ghost predicate Complete(e: Setting, held: seq<Signature>, cache: seq<Row>, signer: ID) {
    forall r :: r in held && r.signer == signer && Open(e, r) ==> Holds(cache, r)
  }

  /** The client holds every open signature of this peer that a fetch will not send again. */
  ghost predicate Resumable(e: Setting, held: seq<Signature>, cache: seq<Row>, peer: Peer) {
    forall r :: r in held && r.signer == peer.id && Open(e, r) && !IsRecent(peer, r) ==> Holds(cache, r)
  }

  // ---- one sync of one peer ----

  /** The fetch being saved was answered at an earlier step of the same sync, for the same peer, and
      saving has got as far as `left` says. */
  ghost predicate AnswersAt(e: Setting, w: World, w': World) {
    && HasNext(w) && HasNext(w') && NextPeer(w) == NextPeer(w') && w.session.value.now == w'.session.value.now
    && w'.session.value.fetch.Some?
    && w'.session.value.fetch.value.held == RowsAt(w, NextPeer(w).serverURL)
    && SaveAll(w'.cache, w'.session.value.fetch.value.left)
       == SaveAll(w.cache, Fetched(e, RowsAt(w, NextPeer(w).serverURL), NextPeer(w), w.session.value.now))
  }

  lemma SavingGoesOn(e: Setting, w: World, m: World, step: Step, w': World)
    requires AnswersAt(e, w, m) && GoesTo(e, m, step, w') && w'.session.Some? && w'.session.value.fetch.Some?
    ensures AnswersAt(e, w, w')
  {
  }

  lemma {:induction false} FetchAnswered(e: Setting, worlds: seq<World>, steps: seq<Step>, i: nat) returns (j: nat)
    requires Behaviour(e, worlds, steps) && i < |worlds|
    requires worlds[i].session.Some? && worlds[i].session.value.fetch.Some?
    ensures j < i && steps[j] == FetchNext && AnswersAt(e, worlds[j], worlds[i])
  {
    assert GoesTo(e, worlds[i - 1], steps[i - 1], worlds[i]);
    if steps[i - 1] == FetchNext {
      j := i - 1;
    } else {
      j := FetchAnswered(e, worlds, steps, i - 1);
      SavingGoesOn(e, worlds[j], worlds[i - 1], steps[i - 1], worlds[i]);
    }
  }

  /** What is held after saving a fetch was held before, or is recent enough to be fetched. */
  lemma HeldAfterFetch(e: Setting, held: seq<Signature>, had: seq<Row>, peer: Peer, now: int, time: int, r: Signature)
    requires Sane(e) && ServerInv(e.crypto, held, time) && AllGenuine(e.crypto, had)
    requires AllGenuine(e.crypto, SaveAll(had, Fetched(e, held, peer, now)))
    requires r in held && r.signer == peer.id && Open(e, r)
    ensures Holds(SaveAll(had, Fetched(e, held, peer, now)), r) <==> Holds(had, r) || IsRecent(peer, r)
  {
    var fetched := Fetched(e, held, peer, now);
    HoldsById(e, had, held, time, r);
    HoldsById(e, SaveAll(had, fetched), held, time, r);
    SaveAllIds(had, fetched, r.id);
    if IsRecent(peer, r) {
      RecentIsFetched(e, held, peer, now, r);
    }
    if HasId(fetched, r.id) {
      FetchedIsRecent(e, held, peer, now, time, r);
    }
  }

  /** Saving a fetch leaves nothing of the peer behind if and only if nothing was missing that the
      fetch does not bring. */
  lemma CompleteAfterFetch(e: Setting, held: seq<Signature>, had: seq<Row>, peer: Peer, now: int, time: int)
    requires Sane(e) && ServerInv(e.crypto, held, time) && AllGenuine(e.crypto, had)
    requires AllGenuine(e.crypto, SaveAll(had, Fetched(e, held, peer, now)))
    ensures Complete(e, held, SaveAll(had, Fetched(e, held, peer, now)), peer.id) <==> Resumable(e, held, had, peer)
  {
    forall r | r in held && r.signer == peer.id && Open(e, r)
      ensures Holds(SaveAll(had, Fetched(e, held, peer, now)), r) <==> Holds(had, r) || IsRecent(peer, r)
    {
      HeldAfterFetch(e, held, had, peer, now, time, r);
    }
  }

  /** In every behaviour, when a peer is stamped as synced the client holds every open signature the
      peer's server held when it answered the fetch if and only if, at the fetch, it held those the
      fetch did not ask for. */
  lemma NothingLostIff(e: Setting, worlds: seq<World>, steps: seq<Step>, i: nat) returns (j: nat)
    requires Sane(e) && Behaviour(e, worlds, steps) && i < |steps| && steps[i] == Stamp
    ensures j < i && steps[j] == FetchNext && HasNext(worlds[i]) && AnswersAt(e, worlds[j], worlds[i])
    ensures var peer := NextPeer(worlds[i]);
      var held := RowsAt(worlds[j], peer.serverURL);
      Complete(e, held, worlds[i + 1].cache, peer.id) <==> Resumable(e, held, worlds[j].cache, peer)
  {
    assert GoesTo(e, worlds[i], steps[i], worlds[i + 1]);
    j := FetchAnswered(e, worlds, steps, i);
    BehaviourKeepsInv(e, worlds, steps, i);
    BehaviourKeepsInv(e, worlds, steps, j);
    var w, peer := worlds[j], NextPeer(worlds[i]);
    CompleteAfterFetch(e, RowsAt(w, peer.serverURL), w.cache, peer, w.session.value.now, Second(w.nanos));
  }

  // ---- over runs that do not undo a sync ----

  /** A step that leaves what was synced: it cleans away no rows of a peer that was synced, which can
      only be a distrusted one, and sets no other server for one. */
  ghost predicate Gentle(w: World, step: Step) {
    match step
    case Clean(live) => forall p :: p in w.peers && p.lastSyncedAt.Some? ==> p.id in live
    case SetPeer(peer) =>
      forall p :: p in w.peers && p.id == peer.id && p.lastSyncedAt.Some? ==> p.serverURL == peer.serverURL
    case _ => true
  }

  ghost predicate AllResumable(e: Setting, w: World, peers: seq<Peer>) {
    forall p :: p in peers ==> Resumable(e, RowsAt(w, p.serverURL), w.cache, p)
  }

  /** What is left of a fetch completes it. */
  ghost predicate WillComplete(e: Setting, w: World, session: Session)
    requires session.fetch.Some? && session.next < |session.listed|
  {
    var fetch := session.fetch.value;
    forall r :: r in fetch.held && r.signer == session.listed[session.next].id && Open(e, r) ==>
      HasId(SaveAll(w.cache, fetch.left), r.id)
  }

  ghost predicate Current(e: Setting, w: World) {
    && AllResumable(e, w, w.peers)
    && (w.session.Some? ==> AllResumable(e, w, w.session.value.listed))
    && (Saving(w) ==> WillComplete(e, w, w.session.value))
  }

  /** Rows that came later are recent, and the others are held already. */
  lemma GrowthResumable(e: Setting, held: seq<Signature>, rows: seq<Signature>, now: int, cache: seq<Row>, peer: Peer)
    requires Sane(e) && GrewSince(held, rows, now) && Resumable(e, held, cache, peer)
    requires peer.lastSyncedAt.Some? ==> peer.lastSyncedAt.value <= now
    ensures Resumable(e, rows, cache, peer)
  {
    forall r | r in rows && r.signer == peer.id && Open(e, r) && !IsRecent(peer, r)
      ensures Holds(cache, r)
    {
      var o :| o in held && SameUpload(r, o);
      assert Open(e, o) && Holds(cache, o);
    }
  }

  lemma SubmitKeepsCurrent(e: Setting, w: World, url: string, q: Request)
    requires Sane(e) && Inv(e, w) && Current(e, w)
    ensures Current(e, Next(e, w, Submit(url, q)))
  {
    var w' := Next(e, w, Submit(url, q));
    SubmitKeepsInv(e, w, url, q);
    forall p: Peer | Resumable(e, RowsAt(w, p.serverURL), w.cache, p) && SyncedBefore([p], Second(w.nanos))
      ensures Resumable(e, RowsAt(w', p.serverURL), w.cache, p)
    {
      assert p in [p];
      GrowthResumable(e, RowsAt(w, p.serverURL), RowsAt(w', p.serverURL), Second(w.nanos), w.cache, p);
    }
  }

  lemma MoreRowsResumable(e: Setting, w: World, w': World, peers: seq<Peer>)
    requires AllResumable(e, w, peers) && w'.servers == w.servers
    requires forall row :: row in w.cache ==> row in w'.cache
    ensures AllResumable(e, w', peers)
  {
    forall r | Holds(w.cache, r)
      ensures Holds(w'.cache, r)
    {
      var row :| row in w.cache && Copies(row, r);
    }
  }

  lemma FetchKeepsCurrent(e: Setting, w: World)
    requires Sane(e) && Inv(e, w) && Current(e, w) && Enabled(e, w, FetchNext)
    ensures Current(e, Next(e, w, FetchNext))
  {
    var w', peer, now := Next(e, w, FetchNext), NextPeer(w), w.session.value.now;
    var held := RowsAt(w, peer.serverURL);
    MoreRowsResumable(e, w, w', w.peers);
    MoreRowsResumable(e, w, w', w.session.value.listed);
    assert peer in w.session.value.listed;
    forall r | r in held && r.signer == peer.id && Open(e, r)
      ensures HasId(SaveAll(w.cache, Fetched(e, held, peer, now)), r.id)
    {
      SaveAllIds(w.cache, Fetched(e, held, peer, now), r.id);
      HoldsById(e, w.cache, held, Second(w.nanos), r);
      if IsRecent(peer, r) {
        RecentIsFetched(e, held, peer, now, r);
      }
    }
  }

  lemma SaveKeepsCurrent(e: Setting, w: World)
    requires Current(e, w) && Enabled(e, w, SaveOne)
    ensures Current(e, Next(e, w, SaveOne))
  {
    var w' := Next(e, w, SaveOne);
    MoreRowsResumable(e, w, w', w.peers);
    MoreRowsResumable(e, w, w', w.session.value.listed);
  }

  /** What the server held at a fetch that is saved, and holds now from before the sync, is held. */
  lemma OldRowHeld(e: Setting, held: seq<Signature>, rows: seq<Signature>, cache: seq<Row>, now: int, time: int,
                   r: Signature)
    requires Sane(e) && GrewSince(held, rows, now) && ServerInv(e.crypto, rows, time) && AllGenuine(e.crypto, cache)
    requires forall o :: o in held && o.signer == r.signer && Open(e, o) ==> HasId(cache, o.id)
    requires r in rows && Open(e, r) && r.uploadedAt < now
    ensures Holds(cache, r)
  {
    var o :| o in held && SameUpload(r, o);
    assert Open(e, o);
    HoldsById(e, cache, rows, time, r);
  }

  /** When nothing of a fetch is left to save, everything before the sync began is held. */
  lemma StampResumable(e: Setting, w: World, p: Peer)
    requires Sane(e) && Inv(e, w) && Current(e, w) && Enabled(e, w, Stamp)
    requires p.id == NextPeer(w).id && p.serverURL == NextPeer(w).serverURL
    requires p.lastSyncedAt == Some(w.session.value.now)
    ensures Resumable(e, RowsAt(w, p.serverURL), w.cache, p)
  {
    var held, rows, now := w.session.value.fetch.value.held, RowsAt(w, p.serverURL), w.session.value.now;
    forall r | r in rows && r.signer == p.id && Open(e, r) && !IsRecent(p, r)
      ensures Holds(w.cache, r)
    {
      OldRowHeld(e, held, rows, w.cache, now, Second(w.nanos), r);
    }
  }

  function Stamped(p: Peer, id: ID, now: int): Peer {
    if p.id == id then p.(lastSyncedAt := Some(now)) else p
  }

  /** Only the peer dealt with has that id, so its server is the one that was asked. */
  lemma SameServer(listed: seq<Peer>, peers: seq<Peer>, next: nat, p: Peer)
    requires SortedPeers(peers) && SameTargets(listed, peers) && next < |listed| && p in peers
    requires p.id == listed[next].id
    ensures p.serverURL == listed[next].serverURL
  {
    var k :| 0 <= k < |peers| && peers[k] == p;
    DistinctIds(peers, k, next);
  }

  lemma StampedResumable(e: Setting, w: World, p: Peer)
    requires Sane(e) && Inv(e, w) && Current(e, w) && Enabled(e, w, Stamp)
    requires p in w.peers && p.id == NextPeer(w).id
    ensures Resumable(e, RowsAt(w, p.serverURL), w.cache, Stamped(p, NextPeer(w).id, w.session.value.now))
  {
    SameServer(w.session.value.listed, w.peers, w.session.value.next, p);
    StampResumable(e, w, Stamped(p, NextPeer(w).id, w.session.value.now));
  }

  lemma SyncedIsStamped(peers: seq<Peer>, id: ID, now: int, q: Peer)
    requires q in SetSynced(peers, id, now)
    ensures exists p :: p in peers && q == Stamped(p, id, now)
  {
    var k :| 0 <= k < |peers| && SetSynced(peers, id, now)[k] == q;
    assert peers[k] in peers;
  }

  lemma AllStampedResumable(e: Setting, w: World)
    requires Sane(e) && Inv(e, w) && Current(e, w) && Enabled(e, w, Stamp)
    ensures AllResumable(e, w, SetSynced(w.peers, NextPeer(w).id, w.session.value.now))
  {
    var id, now := NextPeer(w).id, w.session.value.now;
    forall q | q in SetSynced(w.peers, id, now)
      ensures Resumable(e, RowsAt(w, q.serverURL), w.cache, q)
    {
      SyncedIsStamped(w.peers, id, now, q);
      var p :| p in w.peers && q == Stamped(p, id, now);
      if p.id == id {
        StampedResumable(e, w, p);
      }
    }
  }

  lemma StampKeepsCurrent(e: Setting, w: World)
    requires Sane(e) && Inv(e, w) && Current(e, w) && Enabled(e, w, Stamp)
    ensures Current(e, Next(e, w, Stamp))
  {
    var w' := Next(e, w, Stamp);
    AllStampedResumable(e, w);
    MoreRowsResumable(e, w, w', w'.peers);
    MoreRowsResumable(e, w, w', w.session.value.listed);
  }

  lemma SetPeerKeepsCurrent(e: Setting, w: World, peer: Peer)
    requires Inv(e, w) && Current(e, w) && Enabled(e, w, SetPeer(peer)) && Gentle(w, SetPeer(peer))
    ensures Current(e, Next(e, w, SetPeer(peer)))
  {
    var w' := Next(e, w, SetPeer(peer));
    PutPeerStored(w.peers, peer);
    forall p | p in w'.peers
      ensures Resumable(e, RowsAt(w', p.serverURL), w'.cache, p)
    {
      if p.id == peer.id && p.lastSyncedAt.Some? {
        PutPeerSyncTime(w.peers, peer, p);
        var o :| o in w.peers && o.id == peer.id;
        assert Resumable(e, RowsAt(w, o.serverURL), w.cache, o);
      }
    }
  }

  lemma CleanKeepsCurrent(e: Setting, w: World, live: set<ID>)
    requires Current(e, w) && Enabled(e, w, Clean(live)) && Gentle(w, Clean(live))
    ensures Current(e, Next(e, w, Clean(live)))
  {
    var w' := Next(e, w, Clean(live));
    forall p | p in w'.peers
      ensures Resumable(e, RowsAt(w', p.serverURL), w'.cache, p)
    {
      forall r | r in RowsAt(w, p.serverURL) && r.signer == p.id && Open(e, r) && !IsRecent(p, r)
        ensures Holds(w'.cache, r)
      {
        var row :| row in w.cache && Copies(row, r);
        assert row in w'.cache;
      }
    }
  }

  lemma StepKeepsCurrent(e: Setting, w: World, step: Step)
    requires Sane(e) && Inv(e, w) && Current(e, w) && Enabled(e, w, step) && Gentle(w, step)
    ensures Current(e, Next(e, w, step))
  {
    match step
    case Submit(url, q) => SubmitKeepsCurrent(e, w, url, q);
    case FetchNext => FetchKeepsCurrent(e, w);
    case SaveOne => SaveKeepsCurrent(e, w);
    case Stamp => StampKeepsCurrent(e, w);
    case Clean(live) => CleanKeepsCurrent(e, w, live);
    case SetPeer(peer) => SetPeerKeepsCurrent(e, w, peer);
    case Receive(_) => MoreRowsResumable(e, w, Next(e, w, step), w.peers);
    case _ =>
  }

  lemma {:induction false} GentleRunIsCurrent(e: Setting, worlds: seq<World>, steps: seq<Step>, i: nat)
    requires Sane(e) && Behaviour(e, worlds, steps) && i < |worlds|
    requires forall k :: 0 <= k < i ==> Gentle(worlds[k], steps[k])
    ensures Current(e, worlds[i])
  {
    if i > 0 {
      GentleRunIsCurrent(e, worlds, steps, i - 1);
      BehaviourKeepsInv(e, worlds, steps, i - 1);
      assert GoesTo(e, worlds[i - 1], steps[i - 1], worlds[i]);
      StepKeepsCurrent(e, worlds[i - 1], steps[i - 1]);
    }
  }

  /** Incremental sync loses no signature: in every behaviour so far without a step that undoes a sync,
      when a peer is stamped as synced the client holds every open signature of that peer its server
      held when it answered the fetch. */
  lemma NoSignatureLost(e: Setting, worlds: seq<World>, steps: seq<Step>, i: nat) returns (j: nat)
    requires Sane(e) && Behaviour(e, worlds, steps) && i < |steps| && steps[i] == Stamp
    requires forall k :: 0 <= k < i ==> Gentle(worlds[k], steps[k])
    ensures j < i && steps[j] == FetchNext && HasNext(worlds[i]) && AnswersAt(e, worlds[j], worlds[i])
    ensures Complete(e, RowsAt(worlds[j], NextPeer(worlds[i]).serverURL), worlds[i + 1].cache, NextPeer(worlds[i]).id)
  {
    j := NothingLostIff(e, worlds, steps, i);
    GentleRunIsCurrent(e, worlds, steps, j);
    assert NextPeer(worlds[j]) in worlds[j].session.value.listed;
  }
}
