/** The client against its servers, as a protocol. Uploads and clock ticks may come between any two
    steps of a sync, fetches may fail and a sync may stop anywhere. The other commands of the client
    run while no sync does: it trusts, distrusts, forgets and cleans, and stores signatures it got
    elsewhere. The invariants here hold over every run; `SyncResults` says what a sync leaves. */
module SyncProtocol {
  import opened Text
  import opened Payloads
  import opened Tables
  import opened Server
  import opened Sync

  /** Hashing and signature checking, the registered users, and what the client accepts as a peer's. */
  datatype Setting = Setting(crypto: Crypto, users: set<ID>, accepts: Accepts)

  /** A fetch that was answered: what the server and the client held then, and what is still to be
      saved of it. */
  datatype Fetch = Fetch(held: seq<Signature>, had: seq<Row>, left: seq<Row>)

  /** A sync in progress: when it started, the peers it listed, how many it has dealt with, and the
      fetch it is saving. */
  datatype Session = Session(now: int, listed: seq<Peer>, next: nat, fetch: Option<Fetch>)

  datatype World = World(
    nanos: nat,
    servers: map<string, seq<Signature>>,
    cache: seq<Row>,
    peers: seq<Peer>,
    session: Option<Session>)

  /** `Submit` is an upload to a server, `Skip` a distrusted peer, a missing key or a failed fetch,
      `Stop` the end of a sync, after the last peer or anywhere before it. `Receive` stores a
      signature that was not synced, `Clean` drops the rows of all but the live signers, `SetPeer`
      trusts or distrusts. */
  datatype Step =
    | Tick(nanos: nat)
    | Submit(url: string, request: Request)
    | Start
    | Skip
    | FetchNext
    | SaveOne
    | Stamp
    | Stop
    | Receive(row: Row)
    | Clean(live: set<ID>)
    | SetPeer(peer: Peer)
    | Forget(other: ID)

  function RowsAt(w: World, url: string): seq<Signature> {
    if url in w.servers then w.servers[url] else []
  }

  ghost predicate Initial(w: World) {
    w == World(w.nanos, map[], [], [], None)
  }

  predicate HasNext(w: World) {
    w.session.Some? && w.session.value.next < |w.session.value.listed|
  }

  /** The listed peer that is dealt with next. */
  function NextPeer(w: World): Peer
    requires HasNext(w)
  {
    w.session.value.listed[w.session.value.next]
  }

  predicate Saving(w: World) {
    HasNext(w) && w.session.value.fetch.Some?
  }

  /** A row whose id is its content id, and whose signature is its signer's. */
  predicate Genuine(c: Crypto, row: Row) {
    row.id == c.hash(row.body, row.sig) && c.verifies(row.signer, row.body, row.sig)
  }

  predicate Enabled(e: Setting, w: World, step: Step) {
    match step
    case Tick(nanos) => nanos >= w.nanos
    case Submit(_, _) => true
    case Start => w.session.None?
    case Skip => HasNext(w) && !Saving(w)
    case FetchNext => HasNext(w) && !Saving(w) && !NextPeer(w).distrusted
    case SaveOne => Saving(w) && w.session.value.fetch.value.left != []
    case Stamp => Saving(w) && w.session.value.fetch.value.left == []
    case Stop => w.session.Some?
    case Receive(row) => w.session.None? && Genuine(e.crypto, row)
    case Clean(live) => w.session.None? && forall p :: p in w.peers && !p.distrusted ==> p.id in live
    case SetPeer(_) => w.session.None?
    case Forget(_) => w.session.None?
  }

  /** The rows a sync of `peer` would save of what the server holds. */
  function Fetched(e: Setting, held: seq<Signature>, peer: Peer, now: int): seq<Row> {
    Accepted(e.accepts, peer.id, GetUserSignatures(held, peer.id, peer.lastSyncedAt, false), now)
  }

  function FetchFor(e: Setting, w: World): Fetch
    requires HasNext(w)
  {
    var peer := NextPeer(w);
    var held := RowsAt(w, peer.serverURL);
    Fetch(held, w.cache, Fetched(e, held, peer, w.session.value.now))
  }

  function WithFetch(w: World, fetch: Option<Fetch>): World
    requires w.session.Some?
  {
    w.(session := Some(w.session.value.(fetch := fetch)))
  }

  function Next(e: Setting, w: World, step: Step): World
    requires Enabled(e, w, step)
  {
    match step
    case Tick(nanos) => w.(nanos := nanos)
    case Submit(url, request) =>
      w.(servers := w.servers[url := Handle(e.crypto, e.users, RowsAt(w, url), request, Second(w.nanos)).1])
    case Start => w.(session := Some(Session(Second(w.nanos), w.peers, 0, None)))
    case Skip => w.(session := Some(w.session.value.(next := w.session.value.next + 1)))
    case FetchNext => WithFetch(w, Some(FetchFor(e, w)))
    case SaveOne =>
      var fetch := w.session.value.fetch.value;
      WithFetch(w.(cache := Save(w.cache, fetch.left[0])), Some(fetch.(left := fetch.left[1..])))
    case Stamp =>
      var session := w.session.value;
      w.(peers := SetSynced(w.peers, NextPeer(w).id, session.now),
         session := Some(session.(next := session.next + 1, fetch := None)))
    case Stop => w.(session := None)
    case Receive(row) => w.(cache := Save(w.cache, row))
    case Clean(live) => w.(cache := Filter(w.cache, (r: Row) => r.signer in live))
    case SetPeer(peer) => w.(peers := PutPeer(w.peers, peer))
    case Forget(other) => w.(peers := RemovePeerFrom(w.peers, other))
  }

  /** The worlds a sequence of steps passes through. */
  ghost predicate Behaviour(e: Setting, worlds: seq<World>, steps: seq<Step>) {
    && |worlds| == |steps| + 1
    && Initial(worlds[0])
    && forall i :: 0 <= i < |steps| ==> GoesTo(e, worlds[i], steps[i], worlds[i + 1])
  }

  ghost predicate GoesTo(e: Setting, w: World, step: Step, w': World) {
    Enabled(e, w, step) && w' == Next(e, w, step)
  }

  // ---- premises ----

  /** The same upload, up to its flags. */
  predicate SameUpload(a: Signature, b: Signature) {
    SameRow(a, b) && a.algorithm == b.algorithm
  }

  /** The server's flags may change under the client's check, but not what it accepts. */
  ghost predicate IgnoresFlags(accepts: Accepts) {
    forall id, a, b :: SameUpload(a, b) ==> accepts(id, a) == accepts(id, b)
  }

  /** A payload and a signature verify for one signer at most. */
  ghost predicate OneSigner(c: Crypto) {
    forall u, v, body, sig :: c.verifies(u, body, sig) && c.verifies(v, body, sig) ==> u == v
  }

  ghost predicate Sane(e: Setting) {
    Injective(e.crypto.hash) && OneSigner(e.crypto) && IgnoresFlags(e.accepts)
  }

  // ---- rows of servers and rows of the client ----

  /** A signature that anyone may fetch and the client accepts. */
  predicate Open(e: Setting, r: Signature) {
    r.public && e.accepts(r.signer, r)
  }

  ghost predicate Holds(cache: seq<Row>, r: Signature) {
    exists row :: row in cache && Copies(row, r)
  }

  ghost predicate AllGenuine(c: Crypto, rows: seq<Row>) {
    forall row :: row in rows ==> Genuine(c, row)
  }

  /** What every server table keeps. */
  ghost predicate ServerInv(c: Crypto, rows: seq<Signature>, now: int) {
    && Consistent(c, rows)
    && forall r :: r in rows ==> c.verifies(r.signer, r.body, r.sig) && r.uploadedAt <= now
  }

  /** Among genuine rows the id says everything. */
  lemma HoldsById(e: Setting, cache: seq<Row>, rows: seq<Signature>, now: int, r: Signature)
    requires Sane(e) && AllGenuine(e.crypto, cache) && ServerInv(e.crypto, rows, now) && r in rows
    ensures Holds(cache, r) <==> HasId(cache, r.id)
  {
    if row :| row in cache && row.id == r.id {
      assert row.body == r.body && row.sig == r.sig;
      assert Copies(row, r);
    }
  }

  lemma FetchedAreGenuine(e: Setting, held: seq<Signature>, peer: Peer, now: int, time: int)
    requires ServerInv(e.crypto, held, time)
    ensures AllGenuine(e.crypto, Fetched(e, held, peer, now))
  {
  }

  lemma OneRow(c: Crypto, rows: seq<Signature>, now: int, a: Signature, b: Signature)
    requires ServerInv(c, rows, now) && a in rows && b in rows && a.id == b.id
    ensures a == b
  {
  }

  predicate IsRecent(peer: Peer, r: Signature) {
    peer.lastSyncedAt.None? || r.uploadedAt >= peer.lastSyncedAt.value
  }

  lemma RecentIsFetched(e: Setting, held: seq<Signature>, peer: Peer, now: int, r: Signature)
    requires r in held && r.signer == peer.id && Open(e, r) && IsRecent(peer, r)
    ensures HasId(Fetched(e, held, peer, now), r.id)
  {
    assert Sent(r, peer.id, peer.lastSyncedAt, false);
    assert ToRow(r, now) in Fetched(e, held, peer, now);
  }

  lemma FetchedIsRecent(e: Setting, held: seq<Signature>, peer: Peer, now: int, time: int, r: Signature)
    requires ServerInv(e.crypto, held, time) && r in held && HasId(Fetched(e, held, peer, now), r.id)
    ensures IsRecent(peer, r)
  {
    var sent := GetUserSignatures(held, peer.id, peer.lastSyncedAt, false);
    var row :| row in Accepted(e.accepts, peer.id, sent, now) && row.id == r.id;
    var o :| o in sent && row == ToRow(o, now);
    assert row.id == ToRow(o, now).id == o.id;
    OneRow(e.crypto, held, time, o, r);
  }

  // ---- uploads ----

  /** Every one of the `rows` before the bound, if there is one, has its upload in `held`. */
  ghost predicate Covered(rows: seq<Signature>, held: seq<Signature>, bound: Option<int>) {
    forall r :: r in rows && (bound.Some? ==> r.uploadedAt < bound.value) ==> exists o :: o in held && SameUpload(r, o)
  }

  /** What a server held before, against what it holds now: nothing is dropped, and what came since
      came at or after `time`. */
  ghost predicate GrewSince(held: seq<Signature>, rows: seq<Signature>, time: int) {
    Covered(held, rows, None) && Covered(rows, held, Some(time))
  }

  lemma CoveredFurther(a: seq<Signature>, b: seq<Signature>, c: seq<Signature>, bound: Option<int>, bound': Option<int>)
    requires Covered(a, b, bound') && Covered(b, c, bound)
    requires bound'.Some? ==> bound.Some? && bound.value <= bound'.value
    ensures Covered(a, c, bound)
  {
    forall r | r in a && (bound.Some? ==> r.uploadedAt < bound.value)
      ensures exists o :: o in c && SameUpload(r, o)
    {
      var m :| m in b && SameUpload(r, m);
      var o :| o in c && SameUpload(m, o);
      assert SameUpload(r, o);
    }
  }

  lemma GrewFurther(held: seq<Signature>, rows: seq<Signature>, rows': seq<Signature>, time: int, now: int)
    requires GrewSince(held, rows, time) && GrewSince(rows, rows', now) && time <= now
    ensures GrewSince(held, rows', time)
  {
    CoveredFurther(held, rows, rows', None, None);
    CoveredFurther(rows', rows, held, Some(time), Some(now));
  }

  lemma NothingCame(rows: seq<Signature>, time: int)
    ensures GrewSince(rows, rows, time)
  {
    assert forall r :: r in rows ==> SameUpload(r, r);
  }

  /** A row after an upload is an old one, up to its flags, or verified and new as of now. */
  lemma UploadedRow(e: Setting, rows: seq<Signature>, q: Request, now: int, r: Signature)
    requires r in Handle(e.crypto, e.users, rows, q, now).1
    ensures
      || (r.uploadedAt == now && e.crypto.verifies(r.signer, r.body, r.sig))
      || exists o :: o in rows && SameUpload(r, o)
  {
    if r in rows {
      assert SameUpload(r, r);
    } else {
      var created := Create(rows, RowOf(q, now));
      if IsKind(q.body, Revocation) {
        RevokeRows(created, q.body.payload.targetID, now, r);
      }
    }
  }

  lemma KeptRow(e: Setting, rows: seq<Signature>, q: Request, now: int, o: Signature)
    requires o in rows
    ensures exists r :: r in Handle(e.crypto, e.users, rows, q, now).1 && SameUpload(o, r)
  {
    assert SameUpload(o, o);
    if Refusal(e.crypto, e.users, rows, q).None? {
      var created := Create(rows, RowOf(q, now));
      assert o in created;
      if IsKind(q.body, Revocation) {
        RevokeRows(created, q.body.payload.targetID, now, Flag(o, q.body.payload.targetID, now));
        assert SameUpload(o, Flag(o, q.body.payload.targetID, now));
      }
    }
  }

  /** An upload keeps the table sound, drops nothing, and what it adds is as of now. */
  lemma UploadGrows(e: Setting, rows: seq<Signature>, q: Request, now: int)
    requires Sane(e) && ServerInv(e.crypto, rows, now)
    ensures ServerInv(e.crypto, Handle(e.crypto, e.users, rows, q, now).1, now)
    ensures GrewSince(rows, Handle(e.crypto, e.users, rows, q, now).1, now)
  {
    var rows' := Handle(e.crypto, e.users, rows, q, now).1;
    HandleKeeps(e.crypto, e.users, rows, q, now);
    forall r | r in rows'
      ensures e.crypto.verifies(r.signer, r.body, r.sig) && r.uploadedAt <= now
      ensures r.uploadedAt == now || exists o :: o in rows && SameUpload(r, o)
    {
      UploadedRow(e, rows, q, now, r);
    }
    forall o | o in rows
      ensures exists r :: r in rows' && SameUpload(o, r)
    {
      KeptRow(e, rows, q, now, o);
    }
  }

  // ---- what every run keeps ----

  ghost predicate SyncedBefore(peers: seq<Peer>, now: int) {
    forall p :: p in peers && p.lastSyncedAt.Some? ==> p.lastSyncedAt.value <= now
  }

  /** A sync deals with the peers as they are stored, but for their times. */
  ghost predicate SameTargets(listed: seq<Peer>, peers: seq<Peer>) {
    && |listed| == |peers|
    && forall k :: 0 <= k < |peers| ==> listed[k].id == peers[k].id && listed[k].serverURL == peers[k].serverURL
  }

  ghost predicate FetchInv(e: Setting, w: World, session: Session)
    requires session.fetch.Some?
  {
    var fetch := session.fetch.value;
    && session.next < |session.listed|
    && ServerInv(e.crypto, fetch.held, Second(w.nanos))
    && AllGenuine(e.crypto, fetch.left)
    && GrewSince(fetch.held, RowsAt(w, session.listed[session.next].serverURL), session.now)
  }

  ghost predicate SessionInv(e: Setting, w: World, session: Session) {
    && session.now <= Second(w.nanos)
    && SyncedBefore(session.listed, Second(w.nanos)) && SameTargets(session.listed, w.peers)
    && (session.fetch.Some? ==> FetchInv(e, w, session))
  }

  ghost predicate Inv(e: Setting, w: World) {
    && (forall url :: ServerInv(e.crypto, RowsAt(w, url), Second(w.nanos)))
    && UniqueIds(w.cache) && AllGenuine(e.crypto, w.cache)
    && SortedPeers(w.peers) && SyncedBefore(w.peers, Second(w.nanos))
    && (w.session.Some? ==> SessionInv(e, w, w.session.value))
  }

  lemma TickKeepsInv(e: Setting, w: World, nanos: nat)
    requires Inv(e, w) && Enabled(e, w, Tick(nanos))
    ensures Inv(e, Next(e, w, Tick(nanos)))
  {
    var w' := Next(e, w, Tick(nanos));
    assert Second(w.nanos) <= Second(nanos);
    forall url
      ensures ServerInv(e.crypto, RowsAt(w', url), Second(nanos))
    {
      assert ServerInv(e.crypto, RowsAt(w, url), Second(w.nanos));
    }
  }

  lemma SubmitKeepsInv(e: Setting, w: World, url: string, q: Request)
    requires Sane(e) && Inv(e, w)
    ensures Inv(e, Next(e, w, Submit(url, q)))
    ensures forall u :: GrewSince(RowsAt(w, u), RowsAt(Next(e, w, Submit(url, q)), u), Second(w.nanos))
  {
    var w', now := Next(e, w, Submit(url, q)), Second(w.nanos);
    forall u
      ensures ServerInv(e.crypto, RowsAt(w', u), now) && GrewSince(RowsAt(w, u), RowsAt(w', u), now)
    {
      if u == url {
        UploadGrows(e, RowsAt(w, url), q, now);
      } else {
        NothingCame(RowsAt(w, u), now);
      }
    }
    if w.session.Some? && w.session.value.fetch.Some? {
      var session := w.session.value;
      var u := session.listed[session.next].serverURL;
      GrewFurther(session.fetch.value.held, RowsAt(w, u), RowsAt(w', u), session.now, now);
    }
  }

  lemma FetchKeepsInv(e: Setting, w: World)
    requires Inv(e, w) && Enabled(e, w, FetchNext)
    ensures Inv(e, Next(e, w, FetchNext))
  {
    var w', peer := Next(e, w, FetchNext), NextPeer(w);
    assert forall url :: RowsAt(w', url) == RowsAt(w, url);
    FetchedAreGenuine(e, RowsAt(w, peer.serverURL), peer, w.session.value.now, Second(w.nanos));
    NothingCame(RowsAt(w, peer.serverURL), w.session.value.now);
  }

  lemma SaveKeepsGenuine(c: Crypto, cache: seq<Row>, row: Row)
    requires UniqueIds(cache) && AllGenuine(c, cache) && Genuine(c, row)
    ensures UniqueIds(Save(cache, row)) && AllGenuine(c, Save(cache, row))
  {
    SaveKeepsUnique(cache, row);
  }

  lemma SaveKeepsInv(e: Setting, w: World)
    requires Inv(e, w) && Enabled(e, w, SaveOne)
    ensures Inv(e, Next(e, w, SaveOne))
  {
    var w', left := Next(e, w, SaveOne), w.session.value.fetch.value.left;
    assert forall url :: RowsAt(w', url) == RowsAt(w, url);
    assert left[0] in left && forall row :: row in left[1..] ==> row in left;
    SaveKeepsGenuine(e.crypto, w.cache, left[0]);
  }

  lemma SyncedStaysBefore(peers: seq<Peer>, id: ID, at: int, now: int)
    requires SyncedBefore(peers, now) && at <= now
    ensures SyncedBefore(SetSynced(peers, id, at), now)
  {
    forall p | p in SetSynced(peers, id, at) && p.lastSyncedAt.Some?
      ensures p.lastSyncedAt.value <= now
    {
      var k :| 0 <= k < |peers| && SetSynced(peers, id, at)[k] == p;
      assert peers[k] in peers;
    }
  }

  lemma StampKeepsInv(e: Setting, w: World)
    requires Inv(e, w) && Enabled(e, w, Stamp)
    ensures Inv(e, Next(e, w, Stamp))
  {
    var w', session := Next(e, w, Stamp), w.session.value;
    assert forall url :: RowsAt(w', url) == RowsAt(w, url);
    SyncedKeepsSorted(w.peers, NextPeer(w).id, session.now);
    SyncedStaysBefore(w.peers, NextPeer(w).id, session.now, Second(w.nanos));
  }

  lemma SetPeerKeepsInv(e: Setting, w: World, peer: Peer)
    requires Inv(e, w) && Enabled(e, w, SetPeer(peer))
    ensures Inv(e, Next(e, w, SetPeer(peer)))
  {
    var w' := Next(e, w, SetPeer(peer));
    assert forall url :: RowsAt(w', url) == RowsAt(w, url);
    PutPeerKeepsSorted(w.peers, peer);
    PutPeerStored(w.peers, peer);
    forall p | p in w'.peers && p.lastSyncedAt.Some?
      ensures p.lastSyncedAt.value <= Second(w.nanos)
    {
      if p.id == peer.id {
        PutPeerSyncTime(w.peers, peer, p);
        var o :| o in w.peers && o.id == peer.id;
      }
    }
  }

  lemma CommandKeepsInv(e: Setting, w: World, step: Step)
    requires Inv(e, w) && Enabled(e, w, step) && (step.Receive? || step.Clean? || step.Forget?)
    ensures Inv(e, Next(e, w, step))
  {
    var w' := Next(e, w, step);
    assert forall url :: RowsAt(w', url) == RowsAt(w, url);
    match step
    case Receive(row) => SaveKeepsGenuine(e.crypto, w.cache, row);
    case Clean(live) => FilterKeepsOrder(w.cache, (r: Row) => r.signer in live);
    case Forget(other) => RemoveKeepsSorted(w.peers, other);
  }

  lemma StepKeepsInv(e: Setting, w: World, step: Step)
    requires Sane(e) && Inv(e, w) && Enabled(e, w, step)
    ensures Inv(e, Next(e, w, step))
  {
    var w' := Next(e, w, step);
    match step
    case Tick(nanos) => TickKeepsInv(e, w, nanos);
    case Submit(url, q) => SubmitKeepsInv(e, w, url, q);
    case FetchNext => FetchKeepsInv(e, w);
    case SaveOne => SaveKeepsInv(e, w);
    case Stamp => StampKeepsInv(e, w);
    case SetPeer(peer) => SetPeerKeepsInv(e, w, peer);
    case Receive(_) => CommandKeepsInv(e, w, step);
    case Clean(_) => CommandKeepsInv(e, w, step);
    case Forget(_) => CommandKeepsInv(e, w, step);
    case _ => SessionOnly(e, w, step);
  }

  lemma SessionOnly(e: Setting, w: World, step: Step)
    requires Inv(e, w) && Enabled(e, w, step) && (step.Start? || step.Skip? || step.Stop?)
    ensures Inv(e, Next(e, w, step))
  {
    assert forall url :: RowsAt(Next(e, w, step), url) == RowsAt(w, url);
  }

  lemma {:induction false} BehaviourKeepsInv(e: Setting, worlds: seq<World>, steps: seq<Step>, i: nat)
    requires Sane(e) && Behaviour(e, worlds, steps) && i < |worlds|
    ensures Inv(e, worlds[i])
  {
    if i > 0 {
      BehaviourKeepsInv(e, worlds, steps, i - 1);
      assert GoesTo(e, worlds[i - 1], steps[i - 1], worlds[i]);
      StepKeepsInv(e, worlds[i - 1], steps[i - 1]);
    }
  }
}
