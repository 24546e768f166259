/** Runs of `SyncProtocol` that end otherwise than one might hope, for every hash under which the two
    payloads below verify and have different ids.

    Unseen: a signer uploads a decision publicly and its revocation privately, as the private mirror of
    a store does with every signature it has. The server flags the public row, never sends the
    revocation to anyone else, and a freshly synced client derives that nothing is revoked.
    Cleaned: a peer is synced, distrusted, cleaned away, trusted and synced again.
    Moved: a peer is synced at one server, trusted again at another, and synced there. */
module SyncExamples {
  import opened Text
  import opened Order
  import opened Payloads
  import opened Tables
  import opened Stores
  import opened Server
  import opened Sync
  import opened SyncProtocol

  // ---- two uploads ----

  const SIGNER: ID := "u"

  /** The user whose client it is, who is always live. */
  const VIEWER: ID := "v"

  function DecisionBody(): Body {
    Parsed("d", Blank(Decision, SIGNER).(ecosystem := "e", packageID := "p", version := "1", level := Allowed))
  }

  function DecisionID(c: Crypto): ID {
    c.hash(DecisionBody(), "")
  }

  function RevocationBody(c: Crypto): Body {
    Parsed("r", Blank(Revocation, SIGNER).(targetID := DecisionID(c)))
  }

  function RevocationID(c: Crypto): ID {
    c.hash(RevocationBody(c), "")
  }

  predicate Usable(c: Crypto) {
    && c.decodes("") && c.verifies(SIGNER, DecisionBody(), "") && c.verifies(SIGNER, RevocationBody(c), "")
    && DecisionID(c) != "" && RevocationID(c) != "" && DecisionID(c) != RevocationID(c)
  }

  /** There are such hashes and checks. */
  lemma SomeUsable() returns (c: Crypto)
    ensures Usable(c)
  {
    c := Crypto((body: Body, sig) => body.text, sig => true, (user, body, sig) => user == SIGNER);
    assert DecisionID(c) == "d" && RevocationID(c) == "r";
    assert "d"[0] != "r"[0];
  }

  function AcceptAll(c: Crypto): Setting {
    Setting(c, {SIGNER}, (id, s) => true)
  }

  function PublicUpload(c: Crypto): Request {
    Request(SIGNER, DecisionID(c), DecisionBody(), "", "", None, None)
  }

  function PrivateUpload(c: Crypto): Request {
    Request(SIGNER, RevocationID(c), RevocationBody(c), "", "", Some(false), Some(SIGNER))
  }

  function DecisionRow(c: Crypto, revokedAt: Option<int>): Signature {
    Signature(DecisionID(c), SIGNER, DecisionBody(), "", "", 0, revokedAt.Some?, revokedAt, true)
  }

  function RevocationRow(c: Crypto): Signature {
    Signature(RevocationID(c), SIGNER, RevocationBody(c), "", "", 0, false, None, false)
  }

  lemma Uploads(c: Crypto)
    requires Usable(c)
    ensures Handle(c, {SIGNER}, [], PublicUpload(c), 0).1 == [DecisionRow(c, None)]
    ensures Handle(c, {SIGNER}, [DecisionRow(c, None)], PrivateUpload(c), 0).1
         == [DecisionRow(c, Some(0)), RevocationRow(c)]
  {
    assert [] + [DecisionRow(c, None)] == [DecisionRow(c, None)];
    var first := [DecisionRow(c, None)];
    assert DecisionRow(c, None) in first;
    assert Find(first, DecisionID(c)) == Some(DecisionRow(c, None));
    assert Create(first, RevocationRow(c)) == [DecisionRow(c, None), RevocationRow(c)];
  }

  // ---- fetches ----

  function ThePeer(url: string, distrusted: bool, synced: Option<int>): Peer {
    Peer(SIGNER, url, 0, false, distrusted, false, synced)
  }

  function TheRow(c: Crypto, revokedAt: Option<int>, now: int): Row {
    ToRow(DecisionRow(c, revokedAt), now)
  }

  /** A first fetch brings the public decision, flagged or not, and nothing else. */
  lemma FirstFetch(c: Crypto, url: string, revokedAt: Option<int>, more: seq<Signature>, now: int)
    requires more == [] || more == [RevocationRow(c)]
    ensures Fetched(AcceptAll(c), [DecisionRow(c, revokedAt)] + more, ThePeer(url, false, None), now)
         == [TheRow(c, revokedAt, now)]
  {
    var one := [DecisionRow(c, revokedAt)];
    assert one[..0] == [] && GetUserSignatures([], SIGNER, None, false) == [];
    assert GetUserSignatures(one, SIGNER, None, false) == one;
    assert (one + more)[..1] == one && (more == [] ==> one + more == one);
    assert GetUserSignatures(one + more, SIGNER, None, false) == one;
    assert Accepted(AcceptAll(c).accepts, SIGNER, [], now) == [];
  }

  /** A later fetch does not bring it again. */
  lemma LaterFetch(c: Crypto, url: string, now: int)
    ensures Fetched(AcceptAll(c), [DecisionRow(c, None)], ThePeer(url, false, Some(1)), now) == []
    ensures Fetched(AcceptAll(c), [], ThePeer(url, false, None), now) == []
  {
    var one := [DecisionRow(c, None)];
    assert one[..0] == [] && GetUserSignatures([], SIGNER, Some(1), false) == [];
    assert GetUserSignatures(one, SIGNER, Some(1), false) == [];
  }

  lemma PeerPut(p: Peer, url: string, distrusted: bool)
    requires p.id == SIGNER
    ensures PutPeer([], ThePeer(url, distrusted, None)) == [ThePeer(url, distrusted, None)]
    ensures PutPeer([p], ThePeer(url, distrusted, None)) == [ThePeer(url, distrusted, p.lastSyncedAt)]
  {
    StringsConsistent(SIGNER, SIGNER, SIGNER);
    assert [p][1..] == [];
  }

  function InSync(now: int, p: Peer, next: nat, fetch: Option<Fetch>): Option<Session> {
    Some(Session(now, [p], next, fetch))
  }

  /** The steps of a sync of one peer that brings one row. */
  lemma SyncOfOne(e: Setting, w: World, p: Peer, now: int, row: Row)
    requires w.session.None? && w.peers == [p] && !p.distrusted && w.cache == [] && now == Second(w.nanos)
    requires Fetched(e, RowsAt(w, p.serverURL), p, now) == [row]
    ensures var held := RowsAt(w, p.serverURL);
      var started := w.(session := InSync(now, p, 0, None));
      var fetched := w.(session := InSync(now, p, 0, Some(Fetch(held, [], [row]))));
      var saved := w.(cache := [row], session := InSync(now, p, 0, Some(Fetch(held, [], []))));
      var stamped := saved.(peers := [p.(lastSyncedAt := Some(now))], session := InSync(now, p, 1, None));
      && GoesTo(e, w, Start, started) && GoesTo(e, started, FetchNext, fetched)
      && GoesTo(e, fetched, SaveOne, saved) && GoesTo(e, saved, Stamp, stamped)
  {
    assert [row][1..] == [] && [] + [row] == [row];
    assert SetSynced([p], p.id, now) == [p.(lastSyncedAt := Some(now))];
  }

  /** The steps of a sync of one peer that brings nothing. */
  lemma SyncOfNone(e: Setting, w: World, p: Peer, now: int)
    requires w.session.None? && w.peers == [p] && !p.distrusted && now == Second(w.nanos)
    requires Fetched(e, RowsAt(w, p.serverURL), p, now) == []
    ensures var held := RowsAt(w, p.serverURL);
      var started := w.(session := InSync(now, p, 0, None));
      var fetched := w.(session := InSync(now, p, 0, Some(Fetch(held, w.cache, []))));
      var stamped := w.(peers := [p.(lastSyncedAt := Some(now))], session := InSync(now, p, 1, None));
      && GoesTo(e, w, Start, started) && GoesTo(e, started, FetchNext, fetched)
      && GoesTo(e, fetched, Stamp, stamped)
  {
    assert SetSynced([p], p.id, now) == [p.(lastSyncedAt := Some(now))];
  }

  // ---- runs, one step after the other ----

  ghost predicate RunsTo(e: Setting, worlds: seq<World>, steps: seq<Step>, w: World) {
    Behaviour(e, worlds, steps) && worlds[|steps|] == w
  }

  lemma Begin(e: Setting) returns (worlds: seq<World>, steps: seq<Step>)
    ensures RunsTo(e, worlds, steps, World(0, map[], [], [], None))
  {
    worlds, steps := [World(0, map[], [], [], None)], [];
  }

  lemma Go(e: Setting, worlds: seq<World>, steps: seq<Step>, w: World, step: Step, w': World)
    returns (worlds': seq<World>, steps': seq<Step>)
    requires RunsTo(e, worlds, steps, w) && GoesTo(e, w, step, w')
    ensures RunsTo(e, worlds', steps', w') && steps' == steps + [step]
  {
    worlds', steps' := worlds + [w'], steps + [step];
    forall i | 0 <= i < |steps'|
      ensures GoesTo(e, worlds'[i], steps'[i], worlds'[i + 1])
    {
      if i < |steps| {
        assert GoesTo(e, worlds[i], steps[i], worlds[i + 1]);
      }
    }
  }

  /** A sync of one peer that brings one row. */
  lemma GoSyncOne(e: Setting, worlds: seq<World>, steps: seq<Step>, w: World, p: Peer, now: int, row: Row)
    returns (worlds': seq<World>, steps': seq<Step>)
    requires RunsTo(e, worlds, steps, w)
    requires w.session.None? && w.peers == [p] && !p.distrusted && w.cache == [] && now == Second(w.nanos)
    requires Fetched(e, RowsAt(w, p.serverURL), p, now) == [row]
    ensures RunsTo(e, worlds', steps',
      World(w.nanos, w.servers, [row], [p.(lastSyncedAt := Some(now))], InSync(now, p, 1, None)))
    ensures steps' == steps + [Start] + [FetchNext] + [SaveOne] + [Stamp]
  {
    SyncOfOne(e, w, p, now, row);
    var held := RowsAt(w, p.serverURL);
    var started := w.(session := InSync(now, p, 0, None));
    var fetched := w.(session := InSync(now, p, 0, Some(Fetch(held, [], [row]))));
    var saved := w.(cache := [row], session := InSync(now, p, 0, Some(Fetch(held, [], []))));
    worlds', steps' := Go(e, worlds, steps, w, Start, started);
    worlds', steps' := Go(e, worlds', steps', started, FetchNext, fetched);
    worlds', steps' := Go(e, worlds', steps', fetched, SaveOne, saved);
    worlds', steps' := Go(e, worlds', steps', saved, Stamp,
      saved.(peers := [p.(lastSyncedAt := Some(now))], session := InSync(now, p, 1, None)));
  }

  /** A sync of one peer that brings nothing. */
  lemma GoSyncNone(e: Setting, worlds: seq<World>, steps: seq<Step>, w: World, p: Peer, now: int)
    returns (worlds': seq<World>, steps': seq<Step>)
    requires RunsTo(e, worlds, steps, w)
    requires w.session.None? && w.peers == [p] && !p.distrusted && now == Second(w.nanos)
    requires Fetched(e, RowsAt(w, p.serverURL), p, now) == []
    ensures RunsTo(e, worlds', steps', w.(peers := [p.(lastSyncedAt := Some(now))], session := InSync(now, p, 1, None)))
    ensures steps' == steps + [Start] + [FetchNext] + [Stamp]
  {
    SyncOfNone(e, w, p, now);
    var held := RowsAt(w, p.serverURL);
    var started := w.(session := InSync(now, p, 0, None));
    var fetched := w.(session := InSync(now, p, 0, Some(Fetch(held, w.cache, []))));
    worlds', steps' := Go(e, worlds, steps, w, Start, started);
    worlds', steps' := Go(e, worlds', steps', started, FetchNext, fetched);
    worlds', steps' := Go(e, worlds', steps', fetched, Stamp,
      w.(peers := [p.(lastSyncedAt := Some(now))], session := InSync(now, p, 1, None)));
  }

  lemma UploadStep(c: Crypto, w: World, url: string)
    requires Usable(c) && w == World(0, map[], [], [], None)
    ensures GoesTo(AcceptAll(c), w, Submit(url, PublicUpload(c)), w.(servers := map[url := [DecisionRow(c, None)]]))
  {
    Uploads(c);
    assert Second(0) == 0;
  }

  lemma RevokeStep(c: Crypto, w: World, url: string)
    requires Usable(c) && w == World(0, map[url := [DecisionRow(c, None)]], [], [], None)
    ensures GoesTo(AcceptAll(c), w, Submit(url, PrivateUpload(c)),
      w.(servers := map[url := [DecisionRow(c, Some(0)), RevocationRow(c)]]))
  {
    Uploads(c);
    assert Second(0) == 0;
  }

  /** The public decision is on a server, and the peer is trusted at `peerURL`; a second passes. */
  lemma UploadAndTrust(c: Crypto, url: string, peerURL: string) returns (worlds: seq<World>, steps: seq<Step>)
    requires Usable(c)
    ensures RunsTo(AcceptAll(c), worlds, steps,
      World(NANOS_PER_SECOND, map[url := [DecisionRow(c, None)]], [], [ThePeer(peerURL, false, None)], None))
  {
    var e, servers := AcceptAll(c), map[url := [DecisionRow(c, None)]];
    var w0, w1 := World(0, map[], [], [], None), World(0, servers, [], [], None);
    var w2 := World(0, servers, [], [ThePeer(peerURL, false, None)], None);
    worlds, steps := Begin(e);
    UploadStep(c, w0, url);
    worlds, steps := Go(e, worlds, steps, w0, Submit(url, PublicUpload(c)), w1);
    PeerPut(ThePeer(peerURL, false, None), peerURL, false);
    worlds, steps := Go(e, worlds, steps, w1, SetPeer(ThePeer(peerURL, false, None)), w2);
    worlds, steps := Go(e, worlds, steps, w2, Tick(NANOS_PER_SECOND), w2.(nanos := NANOS_PER_SECOND));
  }

  // ---- the three runs ----

  const HERE: string := "here"
  const THERE: string := "there"

  /** An open signature of the peer just stamped that its server holds and the client does not. */
  ghost predicate Missing(e: Setting, w: World, peer: Peer, r: Signature) {
    r in RowsAt(w, peer.serverURL) && r.signer == peer.id && Open(e, r) && !Holds(w.cache, r)
  }

  function BothRows(c: Crypto): seq<Signature> {
    [DecisionRow(c, Some(0)), RevocationRow(c)]
  }

  /** The server flags the decision, and the peer is trusted. */
  lemma UploadBothAndTrust(c: Crypto) returns (worlds: seq<World>, steps: seq<Step>)
    requires Usable(c)
    ensures RunsTo(AcceptAll(c), worlds, steps,
      World(0, map[HERE := BothRows(c)], [], [ThePeer(HERE, false, None)], None))
  {
    var e, p := AcceptAll(c), ThePeer(HERE, false, None);
    var w0, w1 := World(0, map[], [], [], None), World(0, map[HERE := [DecisionRow(c, None)]], [], [], None);
    var w2 := World(0, map[HERE := BothRows(c)], [], [], None);
    worlds, steps := Begin(e);
    UploadStep(c, w0, HERE);
    worlds, steps := Go(e, worlds, steps, w0, Submit(HERE, PublicUpload(c)), w1);
    RevokeStep(c, w1, HERE);
    worlds, steps := Go(e, worlds, steps, w1, Submit(HERE, PrivateUpload(c)), w2);
    PeerPut(p, HERE, false);
    worlds, steps := Go(e, worlds, steps, w2, SetPeer(p), w2.(peers := [p]));
  }

  lemma OneRowDerivesNothing(row: Row, id: ID)
    ensures !DerivedRevoked([row], Revocation, id)
  {
    assert forall x :: x in [row] ==> x == row;
  }

  /** Unseen: the peer is stamped as synced, its public decision is flagged on the server and held by
      the client, and the client derives no revocation. */
  lemma PrivateRevocationUnseen(c: Crypto) returns (worlds: seq<World>, steps: seq<Step>)
    requires Usable(c)
    ensures Behaviour(AcceptAll(c), worlds, steps) && steps != [] && steps[|steps| - 1] == Stamp
    ensures var w, r := worlds[|steps|], DecisionRow(c, Some(0));
      && r in RowsAt(w, HERE) && r.revoked && Open(AcceptAll(c), r) && Holds(w.cache, r)
      && !DerivedRevoked(w.cache, Revocation, r.id)
  {
    var e, p, r, row := AcceptAll(c), ThePeer(HERE, false, None), DecisionRow(c, Some(0)), TheRow(c, Some(0), 0);
    worlds, steps := UploadBothAndTrust(c);
    FirstFetch(c, HERE, Some(0), [RevocationRow(c)], 0);
    assert BothRows(c) == [r] + [RevocationRow(c)] && Second(0) == 0;
    worlds, steps := GoSyncOne(e, worlds, steps, World(0, map[HERE := BothRows(c)], [], [p], None), p, 0, row);
    assert BothRows(c)[0] == r && [row][0] == row && Copies(row, r);
    OneRowDerivesNothing(row, r.id);
  }

  lemma DistrustSteps(e: Setting, w: World, p: Peer)
    requires w.session.None? && w.peers == [p] && p == ThePeer(p.serverURL, false, p.lastSyncedAt)
    requires forall row :: row in w.cache ==> row.signer == SIGNER
    ensures var distrusted := w.(peers := [ThePeer(p.serverURL, true, p.lastSyncedAt)]);
      && GoesTo(e, w, SetPeer(ThePeer(p.serverURL, true, None)), distrusted)
      && GoesTo(e, distrusted, Clean({VIEWER}), distrusted.(cache := []))
      && GoesTo(e, distrusted.(cache := []), SetPeer(ThePeer(p.serverURL, false, None)), w.(cache := []))
  {
    PeerPut(p, p.serverURL, true);
    PeerPut(ThePeer(p.serverURL, true, p.lastSyncedAt), p.serverURL, false);
    var live: set<ID> := {VIEWER};
    FilterNone(w.cache, (r: Row) => r.signer in live);
  }

  /** The peer is synced a first time. */
  lemma SyncedOnce(c: Crypto) returns (worlds: seq<World>, steps: seq<Step>)
    requires Usable(c)
    ensures RunsTo(AcceptAll(c), worlds, steps,
      World(NANOS_PER_SECOND, map[HERE := [DecisionRow(c, None)]], [TheRow(c, None, 1)],
            [ThePeer(HERE, false, Some(1))], None))
  {
    var e, p, row := AcceptAll(c), ThePeer(HERE, false, None), TheRow(c, None, 1);
    var servers, synced := map[HERE := [DecisionRow(c, None)]], ThePeer(HERE, false, Some(1));
    var w0 := World(NANOS_PER_SECOND, servers, [], [p], None);
    var w1 := World(NANOS_PER_SECOND, servers, [row], [synced], InSync(1, p, 1, None));
    worlds, steps := UploadAndTrust(c, HERE, HERE);
    FirstFetch(c, HERE, None, [], 1);
    assert [DecisionRow(c, None)] + [] == [DecisionRow(c, None)] && Second(NANOS_PER_SECOND) == 1;
    worlds, steps := GoSyncOne(e, worlds, steps, w0, p, 1, row);
    worlds, steps := Go(e, worlds, steps, w1, Stop, w1.(session := None));
  }

  /** Cleaned: after the second sync the client misses the decision. */
  lemma CleanedIsLost(c: Crypto) returns (worlds: seq<World>, steps: seq<Step>)
    requires Usable(c)
    ensures Behaviour(AcceptAll(c), worlds, steps) && steps != [] && steps[|steps| - 1] == Stamp
    ensures Missing(AcceptAll(c), worlds[|steps|], ThePeer(HERE, false, None), DecisionRow(c, None))
  {
    var e, p, row := AcceptAll(c), ThePeer(HERE, false, None), TheRow(c, None, 1);
    var servers, synced := map[HERE := [DecisionRow(c, None)]], ThePeer(HERE, false, Some(1));
    var w := World(NANOS_PER_SECOND, servers, [row], [synced], None);
    worlds, steps := SyncedOnce(c);
    DistrustSteps(e, w, synced);
    var distrusted := w.(peers := [ThePeer(HERE, true, Some(1))]);
    worlds, steps := Go(e, worlds, steps, w, SetPeer(ThePeer(HERE, true, None)), distrusted);
    worlds, steps := Go(e, worlds, steps, distrusted, Clean({VIEWER}), distrusted.(cache := []));
    worlds, steps := Go(e, worlds, steps, distrusted.(cache := []), SetPeer(p), w.(cache := []));
    LaterFetch(c, HERE, 1);
    assert Second(NANOS_PER_SECOND) == 1;
    worlds, steps := GoSyncNone(e, worlds, steps, w.(cache := []), synced, 1);
    assert servers[HERE][0] == DecisionRow(c, None);
  }

  lemma MoveStep(e: Setting, w: World)
    requires w.session.None? && w.peers == [ThePeer(HERE, false, Some(1))]
    ensures GoesTo(e, w, SetPeer(ThePeer(THERE, false, None)), w.(peers := [ThePeer(THERE, false, Some(1))]))
  {
    PeerPut(ThePeer(HERE, false, Some(1)), THERE, false);
  }

  /** Moved: after the sync at the other server the client misses the decision that server held all
      along. */
  lemma MovedIsLost(c: Crypto) returns (worlds: seq<World>, steps: seq<Step>)
    requires Usable(c)
    ensures Behaviour(AcceptAll(c), worlds, steps) && steps != [] && steps[|steps| - 1] == Stamp
    ensures Missing(AcceptAll(c), worlds[|steps|], ThePeer(THERE, false, None), DecisionRow(c, None))
  {
    var e, p := AcceptAll(c), ThePeer(HERE, false, None);
    var servers, moved := map[THERE := [DecisionRow(c, None)]], ThePeer(THERE, false, Some(1));
    var w0 := World(NANOS_PER_SECOND, servers, [], [p], None);
    var w1 := w0.(peers := [ThePeer(HERE, false, Some(1))], session := InSync(1, p, 1, None));
    var w2 := w1.(session := None);
    worlds, steps := UploadAndTrust(c, THERE, HERE);
    LaterFetch(c, HERE, 1);
    assert HERE[0] != THERE[0] && HERE != THERE && Second(NANOS_PER_SECOND) == 1;
    worlds, steps := GoSyncNone(e, worlds, steps, w0, p, 1);
    worlds, steps := Go(e, worlds, steps, w1, Stop, w2);
    MoveStep(e, w2);
    worlds, steps := Go(e, worlds, steps, w2, SetPeer(ThePeer(THERE, false, None)), w2.(peers := [moved]));
    LaterFetch(c, THERE, 1);
    worlds, steps := GoSyncNone(e, worlds, steps, w2.(peers := [moved]), moved, 1);
    assert servers[THERE][0] == DecisionRow(c, None);
  }
}
