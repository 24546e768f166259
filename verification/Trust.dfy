/** The trust commands (cmd/tillit/commands/trust.go): trusting, distrusting and forgetting a peer
    each revoke the active connection, and all but forgetting sign a new one. Over every run there
    is at most one active connection per peer. */
module Trust {
  import opened Text
  import opened Payloads
  import opened Tables
  import opened Stores
  import opened Server
  import opened TrustWalk
  import opened TrustWalkSound
  import opened TrustWalkComplete

  /** How payloads become stored text and ids. Signatures are given per command: no algorithm is
      assumed to be deterministic. */
  datatype Signing = Signing(hash: (Body, string) -> ID, marshal: Payload -> string, algorithm: string)

  /** `signPayload` and the row it is stored in; `None` when the payload is not valid. */
  function SignedRow(k: Signing, p: Payload, other: ID, sig: string, now: int): Option<Row> {
    if Validate(p).Some? then None
    else
      var body := Parsed(k.marshal(p), p);
      Some(Row(k.hash(body, sig), p.signer, other, body, k.algorithm, sig, now, false, None, now))
  }

  function RevocationOf(user: ID, target: ID): Payload {
    Blank(ConnectionRevocation, user).(targetID := target)
  }

  function ConnectionTo(user: ID, peer: Peer): Payload {
    Blank(Connection, user).(
      otherID := peer.id,
      public := peer.public,
      trust := !peer.distrusted && !peer.vetoOnly,
      trustExtends := peer.trustDepth)
  }

  /** What one command leaves: the connections, the peers, and whether it succeeded. */
  datatype Result = Result(conns: seq<Row>, peers: seq<Peer>, ok: bool)

  /** `revokeActiveConnection`: the connections afterwards, or `None` when signing failed. */
  function RevokeActive(k: Signing, conns: seq<Row>, user: ID, other: ID, sig: string, now: int): Option<seq<Row>> {
    var existing := ActiveConnection(conns, user, other);
    if existing.None? then Some(conns)
    else
      var row := SignedRow(k, RevocationOf(user, existing.value.id), other, sig, now);
      if row.None? then None
      else Some(Save(Save(conns, row.value), existing.value.(revoked := true, revokedAt := Some(now))))
  }

  datatype Command =
    | Change(peer: Peer, revocationSig: string, connectionSig: string, now: int)
    | Forget(other: ID, revocationSig: string, now: int)
    | Receive(row: Row)

  /** `recordTrustChange`, which trusting and distrusting come down to, `Forget`, and in between the
      rows of other signers that a sync saves. */
  function Execute(k: Signing, conns: seq<Row>, peers: seq<Peer>, user: ID, command: Command): Result {
    match command
    case Change(peer, revocationSig, connectionSig, now) =>
      var revoked := RevokeActive(k, conns, user, peer.id, revocationSig, now);
      if revoked.None? then Result(conns, peers, false)
      else
        var row := SignedRow(k, ConnectionTo(user, peer), peer.id, connectionSig, now);
        if row.None? then Result(revoked.value, peers, false)
        else Result(Save(revoked.value, row.value), PutPeer(peers, peer), true)
    case Forget(other, revocationSig, now) =>
      var revoked := RevokeActive(k, conns, user, other, revocationSig, now);
      if revoked.None? then Result(conns, peers, false)
      else Result(revoked.value, RemovePeerFrom(peers, other), true)
    case Receive(row) => Result(Save(conns, row), peers, true)
  }

  // ---- the commands on the store ----

  method RevokeActiveConnection(s: Store, k: Signing, user: ID, other: ID, sig: string, now: int) returns (ok: bool)
    requires s.Valid()
    modifies s`conns
    ensures s.Valid()
    ensures var r := RevokeActive(k, old(s.conns), user, other, sig, now);
      ok == r.Some? && s.conns == if r.Some? then r.value else old(s.conns)
  {
    var existing := Store.GetActiveConnection(s.conns, user, other);
    if existing.None? {
      return true;
    }
    var row := SignedRow(k, RevocationOf(user, existing.value.id), other, sig, now);
    if row.None? {
      return false;
    }
    s.SaveCachedConnection(row.value);
    s.SaveCachedConnection(existing.value.(revoked := true, revokedAt := Some(now)));
    ok := true;
  }

  method RecordTrustChange(s: Store, k: Signing, user: ID, peer: Peer, revocationSig: string, connectionSig: string,
                           now: int)
    returns (ok: bool)
    requires s.Valid()
    modifies s`conns, s`peers
    ensures s.Valid()
    ensures Result(s.conns, s.peers, ok)
         == Execute(k, old(s.conns), old(s.peers), user, Change(peer, revocationSig, connectionSig, now))
  {
    ok := RevokeActiveConnection(s, k, user, peer.id, revocationSig, now);
    if !ok {
      return;
    }
    var row := SignedRow(k, ConnectionTo(user, peer), peer.id, connectionSig, now);
    if row.None? {
      return false;
    }
    s.SaveCachedConnection(row.value);
    s.SavePeer(peer);
  }

  method ForgetPeer(s: Store, k: Signing, user: ID, other: ID, revocationSig: string, now: int) returns (ok: bool)
    requires s.Valid()
    modifies s`conns, s`peers
    ensures s.Valid()
    ensures Result(s.conns, s.peers, ok) ==
      Execute(k, old(s.conns), old(s.peers), user, Command.Forget(other, revocationSig, now))
  {
    ok := RevokeActiveConnection(s, k, user, other, revocationSig, now);
    if !ok {
      return;
    }
    s.RemovePeer(other);
  }

  // ---- what every run keeps ----

  ghost predicate AtMostOneActive(conns: seq<Row>, user: ID) {
    forall other, a, b :: Active(conns, user, other, a) && Active(conns, user, other, b) ==> a == b
  }

  /** A row of the user: content-addressed, and signed as the user. */
  predicate IsOwn(k: Signing, user: ID, c: Row) {
    && c.signer == user && c.id == k.hash(c.body, c.sig) && c.body.Parsed? && c.body.payload.signer == user
    && (IsKind(c.body, Connection) ==> c.otherID == c.body.payload.otherID)
  }

  /** A row of another signer. It may be anything, but its id is not that of something the user signs. */
  ghost predicate IsForeign(k: Signing, user: ID, c: Row) {
    c.signer != user && forall body: Body, sig :: body.Parsed? && body.payload.signer == user ==>
      k.hash(body, sig) != c.id
  }

  /** Every row is the user's own or foreign, and the user's revocations name stored connections. */
  ghost predicate WellSigned(k: Signing, conns: seq<Row>, user: ID) {
    && UniqueIds(conns)
    && (forall c :: c in conns ==> IsOwn(k, user, c) || IsForeign(k, user, c))
    && (forall v :: v in conns && v.signer == user && IsKind(v.body, ConnectionRevocation) ==>
         HasId(conns, v.body.payload.targetID))
  }

  ghost predicate Inv(k: Signing, conns: seq<Row>, user: ID) {
    WellSigned(k, conns, user) && AtMostOneActive(conns, user)
  }

  predicate RevokesOwn(user: ID, v: Row, c: Row) {
    v.signer == user && IsFor(v.body, ConnectionRevocation, c.id) && c.id != ""
  }

  /** Activity, with the listing unfolded. */
  lemma ActiveMeans(conns: seq<Row>, user: ID, other: ID, c: Row)
    ensures Active(conns, user, other, c) <==>
      c in conns && c.signer == user && c.otherID == other && IsKind(c.body, Connection)
      && !exists v :: v in conns && RevokesOwn(user, v, c)
  {
    forall r
      ensures r in BySigner(conns, user) <==> r in conns && r.signer == user
    {
      BySignerMembers(conns, user, r);
    }
    assert c.id in NamedTargets(BySigner(conns, user)) <==> exists v :: v in conns && RevokesOwn(user, v, c);
  }

  /** Adding a row changes the activity of other rows only if it revokes them. */
  lemma ActiveAfterAppend(conns: seq<Row>, user: ID, row: Row, other: ID, c: Row)
    ensures Active(conns + [row], user, other, c) && c in conns ==> Active(conns, user, other, c)
    ensures Active(conns + [row], user, other, c) ==> !RevokesOwn(user, row, c) && c.signer == user
    ensures Active(conns, user, other, c) && !RevokesOwn(user, row, c) ==> Active(conns + [row], user, other, c)
  {
    assert forall r :: r in conns + [row] <==> r in conns || r == row;
    ActiveMeans(conns, user, other, c);
    ActiveMeans(conns + [row], user, other, c);
  }

  lemma AppendKeepsSigned(k: Signing, conns: seq<Row>, user: ID, row: Row)
    requires WellSigned(k, conns, user) && !HasId(conns, row.id) && (IsOwn(k, user, row) || IsForeign(k, user, row))
    requires row.signer == user && IsKind(row.body, ConnectionRevocation) ==> HasId(conns, row.body.payload.targetID)
    ensures WellSigned(k, conns + [row], user)
  {
    SaveKeepsUnique(conns, row);
    assert forall r :: r in conns + [row] <==> r in conns || r == row;
    forall id | HasId(conns, id)
      ensures HasId(conns + [row], id)
    {
      var r :| r in conns && r.id == id;
      assert r in conns + [row];
    }
  }

  /** A stored row with the id of one of the user's rows has its payload too. */
  lemma SameIdSameBody(k: Signing, conns: seq<Row>, user: ID, row: Row, r: Row)
    requires WellSigned(k, conns, user) && Injective(k.hash) && IsOwn(k, user, row) && r in conns && r.id == row.id
    ensures r.body == row.body && r.signer == user
  {
  }

  /** The revocation of an active connection cannot be stored yet. */
  lemma RevocationIsNew(k: Signing, conns: seq<Row>, user: ID, other: ID, c: Row, row: Row)
    requires Inv(k, conns, user) && Injective(k.hash) && Active(conns, user, other, c)
    requires IsOwn(k, user, row) && RevokesOwn(user, row, c)
    ensures !HasId(conns, row.id)
  {
    ActiveMeans(conns, user, other, c);
    forall r | r in conns
      ensures r.id != row.id
    {
      if r.id == row.id {
        SameIdSameBody(k, conns, user, row, r);
        assert RevokesOwn(user, r, c);
      }
    }
  }

  /** After a successful revocation step nothing is active for the peer, and everything else is as
      it was. */
  lemma RevokeActiveKeeps(k: Signing, conns: seq<Row>, user: ID, other: ID, sig: string, now: int)
    requires Inv(k, conns, user) && Injective(k.hash) && RevokeActive(k, conns, user, other, sig, now).Some?
    ensures var conns' := RevokeActive(k, conns, user, other, sig, now).value;
      && Inv(k, conns', user)
      && (forall c :: !Active(conns', user, other, c))
      && (forall other', c :: other' != other ==> (Active(conns', user, other', c) <==> Active(conns, user, other', c)))
      && (forall r :: r in conns' ==> r in conns || IsKind(r.body, ConnectionRevocation))
      && (forall r :: r in conns ==> r in conns')
  {
    ActiveConnectionIs(conns, user, other);
    var existing := ActiveConnection(conns, user, other);
    if existing.Some? {
      var c := existing.value;
      var row := SignedRow(k, RevocationOf(user, c.id), other, sig, now).value;
      ActiveMeans(conns, user, other, c);
      RevocationIsNew(k, conns, user, other, c, row);
      AppendKeepsSigned(k, conns, user, row);
      assert c in conns + [row];
      assert RevokeActive(k, conns, user, other, sig, now).value == conns + [row];
      forall other', d
        ensures Active(conns + [row], user, other', d) ==> Active(conns, user, other', d) && d != c
        ensures Active(conns, user, other', d) && d != c ==> Active(conns + [row], user, other', d)
      {
        ActiveAfterAppend(conns, user, row, other', d);
        ActiveMeans(conns + [row], user, other', d);
        ActiveMeans(conns, user, other', d);
        if d in conns && d.id == c.id {
          UniqueRow(conns, c, d);
        }
      }
    }
  }

  /** Saving the new connection makes it the active one, unless its id is taken. */
  lemma SaveConnectionKeeps(k: Signing, conns: seq<Row>, user: ID, other: ID, row: Row)
    requires Inv(k, conns, user) && (forall c :: !Active(conns, user, other, c))
    requires IsOwn(k, user, row) && row.otherID == other && IsKind(row.body, Connection)
    ensures Inv(k, Save(conns, row), user)
    ensures !HasId(conns, row.id) ==> Active(Save(conns, row), user, other, row)
    ensures HasId(conns, row.id) ==> forall c :: !Active(Save(conns, row), user, other, c)
  {
    if !HasId(conns, row.id) {
      AppendKeepsSigned(k, conns, user, row);
      forall other', c
        ensures Active(conns + [row], user, other', c) <==>
          Active(conns, user, other', c) || (c == row && other' == other)
      {
        ActiveAfterAppend(conns, user, row, other', c);
        ActiveMeans(conns + [row], user, other', c);
      }
    }
  }

  /** What a successful command promises about the connection to its peer. */
  ghost predicate Delivers(k: Signing, conns: seq<Row>, conns': seq<Row>, user: ID, command: Command) {
    match command
    case Receive(_) => forall other, c :: Active(conns', user, other, c) <==> Active(conns, user, other, c)
    case Forget(other, _, _) => forall c :: !Active(conns', user, other, c)
    case Change(peer, _, sig, now) =>
      var row := SignedRow(k, ConnectionTo(user, peer), peer.id, sig, now);
      row.Some? &&
      if HasId(conns, row.value.id) then forall c :: !Active(conns', user, peer.id, c)
      else Active(conns', user, peer.id, row.value)
  }

  lemma ChangeKeeps(k: Signing, conns: seq<Row>, peers: seq<Peer>, user: ID, command: Command)
    requires Inv(k, conns, user) && Injective(k.hash) && command.Change?
    ensures var r := Execute(k, conns, peers, user, command);
      Inv(k, r.conns, user) && (r.ok ==> Delivers(k, conns, r.conns, user, command))
  {
    var peer := command.peer;
    var revoked := RevokeActive(k, conns, user, peer.id, command.revocationSig, command.now);
    if revoked.Some? {
      RevokeActiveKeeps(k, conns, user, peer.id, command.revocationSig, command.now);
      var row := SignedRow(k, ConnectionTo(user, peer), peer.id, command.connectionSig, command.now);
      if row.Some? {
        SaveConnectionKeeps(k, revoked.value, user, peer.id, row.value);
        SameIdSameKind(k, conns, revoked.value, user, row.value);
      }
    }
  }

  lemma ReceiveKeeps(k: Signing, conns: seq<Row>, user: ID, row: Row)
    requires Inv(k, conns, user) && IsForeign(k, user, row)
    ensures Inv(k, Save(conns, row), user)
    ensures forall other, c :: Active(Save(conns, row), user, other, c) <==> Active(conns, user, other, c)
  {
    if !HasId(conns, row.id) {
      AppendKeepsSigned(k, conns, user, row);
      forall other, c
        ensures Active(conns + [row], user, other, c) <==> Active(conns, user, other, c)
      {
        ActiveAfterAppend(conns, user, row, other, c);
        ActiveMeans(conns + [row], user, other, c);
      }
    }
  }

  /** What other signers' rows must be. */
  ghost predicate Admissible(k: Signing, user: ID, command: Command) {
    command.Receive? ==> IsForeign(k, user, command.row)
  }

  /** One command keeps the invariant, whether it succeeds or fails; after a change the new
      connection is the active one unless its content id was already stored, after forgetting there
      is none, and receiving other signers' rows changes no connection of the user. */
  lemma ExecuteKeeps(k: Signing, conns: seq<Row>, peers: seq<Peer>, user: ID, command: Command)
    requires Inv(k, conns, user) && Injective(k.hash) && Admissible(k, user, command)
    ensures var r := Execute(k, conns, peers, user, command);
      Inv(k, r.conns, user) && (r.ok ==> Delivers(k, conns, r.conns, user, command))
  {
    match command
    case Receive(row) => ReceiveKeeps(k, conns, user, row);
    case Forget(other, sig, now) =>
      if RevokeActive(k, conns, user, other, sig, now).Some? {
        RevokeActiveKeeps(k, conns, user, other, sig, now);
      }
    case Change(_, _, _, _) => ChangeKeeps(k, conns, peers, user, command);
  }

  /** The revocation just saved has another id than the connection about to be saved. */
  lemma SameIdSameKind(k: Signing, conns: seq<Row>, conns': seq<Row>, user: ID, row: Row)
    requires Injective(k.hash) && WellSigned(k, conns', user)
    requires IsOwn(k, user, row) && IsKind(row.body, Connection)
    requires forall r :: r in conns' ==> r in conns || IsKind(r.body, ConnectionRevocation)
    requires forall r :: r in conns ==> r in conns'
    ensures HasId(conns', row.id) <==> HasId(conns, row.id)
  {
    forall r | r in conns' && r.id == row.id
      ensures r in conns
    {
      SameIdSameBody(k, conns', user, row, r);
    }
  }

  function Run(k: Signing, conns: seq<Row>, peers: seq<Peer>, user: ID, commands: seq<Command>): (seq<Row>, seq<Peer>)
    decreases |commands|
  {
    if commands == [] then (conns, peers)
    else
      var r := Execute(k, conns, peers, user, commands[0]);
      Run(k, r.conns, r.peers, user, commands[1..])
  }

  lemma {:induction false} RunKeeps(k: Signing, conns: seq<Row>, peers: seq<Peer>, user: ID, commands: seq<Command>)
    requires Inv(k, conns, user) && Injective(k.hash) && forall command :: command in commands ==>
      Admissible(k, user, command)
    ensures Inv(k, Run(k, conns, peers, user, commands).0, user)
    decreases |commands|
  {
    if commands != [] {
      assert forall command :: command in commands[1..] ==> command in commands;
      ExecuteKeeps(k, conns, peers, user, commands[0]);
      var r := Execute(k, conns, peers, user, commands[0]);
      RunKeeps(k, r.conns, r.peers, user, commands[1..]);
    }
  }

  /** Over every run of commands from an empty store, whatever other signers' rows are received in
      between, there is at most one active connection per peer. */
  lemma AtMostOneActiveConnection(k: Signing, user: ID, commands: seq<Command>)
    requires Injective(k.hash) && forall command :: command in commands ==> Admissible(k, user, command)
    ensures AtMostOneActive(Run(k, [], [], user, commands).0, user)
  {
    forall other, c
      ensures !Active([], user, other, c)
    {
      ActiveMeans([], user, other, c);
    }
    RunKeeps(k, [], [], user, commands);
  }

  // ---- what the commands do to the peers table ----

  /** A successful change stores the peer as given, at its server, and touches no other peer; one that
      fails touches none. */
  lemma ChangeStoresPeer(k: Signing, conns: seq<Row>, peers: seq<Peer>, user: ID, command: Command)
    requires command.Change? && SortedPeers(peers)
    ensures var r := Execute(k, conns, peers, user, command); !r.ok ==> r.peers == peers
    ensures Execute(k, conns, peers, user, command).ok ==>
      var r, p := Execute(k, conns, peers, user, command), command.peer;
      && SortedPeers(r.peers)
      && (exists q :: q in r.peers && q.id == p.id)
      && (forall q :: q in r.peers && q.id == p.id ==>
            && q.serverURL == p.serverURL && q.trustDepth == p.trustDepth && q.public == p.public
            && q.distrusted == p.distrusted && q.vetoOnly == p.vetoOnly)
      && (forall q: Peer :: q.id != p.id ==> (q in r.peers <==> q in peers))
  {
    PutPeerKeepsSorted(peers, command.peer);
    PutPeerStored(peers, command.peer);
    forall q: Peer | q.id != command.peer.id
      ensures q in PutPeer(peers, command.peer) <==> q in peers
    {
      PutPeerOthers(peers, command.peer, q);
    }
  }

  /** After forgetting, no row of that id is left, and every other peer stays; a failure removes none. */
  lemma ForgetRemovesPeer(k: Signing, conns: seq<Row>, peers: seq<Peer>, user: ID, command: Command)
    requires command.Forget?
    ensures var r := Execute(k, conns, peers, user, command);
      forall q :: q in r.peers <==> q in peers && (r.ok ==> q.id != command.other)
  {
  }

  // ---- what the commands do to the trust set ----

  /** Distrust takes effect at once and for good: whatever connections are or come to be cached, no
      path of the user's trust set passes through a peer that was distrusted. */
  lemma DistrustTakesEffect(k: Signing, conns: seq<Row>, peers: seq<Peer>, user: ID, command: Command,
                            later: seq<Row>, id: ID)
    requires SortedPeers(peers) && user != "" && command.Change? && command.peer.distrusted
    requires Execute(k, conns, peers, user, command).ok
    requires id in TrustSet(later, Execute(k, conns, peers, user, command).peers, user, user)
    ensures command.peer.id !in TrustSet(later, Execute(k, conns, peers, user, command).peers, user, user)[id].path
  {
    ChangeStoresPeer(k, conns, peers, user, command);
    TrustSetSound(later, Execute(k, conns, peers, user, command).peers, user, user, id);
  }

  /** Among the seeds of the user's walk, a stored peer of unique id is the only one of its id. */
  lemma OnlySeedOfPeer(conns: seq<Row>, peers: seq<Peer>, user: ID, p: Peer)
    requires user != "" && p in peers && !p.distrusted && forall q :: q in peers && q.id == p.id ==> q == p
    ensures var g := GraphFor(conns, peers, user, user);
      && p.id !in g.distrusted && PeerSeed(p) in g.seeds
      && forall s :: s in g.seeds && s.signer == p.id ==> s == PeerSeed(p)
  {
  }

  /** The only seed of an id that is not distrusted is its entry. */
  lemma DirectMember(conns: seq<Row>, peers: seq<Peer>, user: ID, id: ID, seed: Frontier)
    requires var g := GraphFor(conns, peers, user, user);
      && id !in g.distrusted && seed in g.seeds && seed.signer == id
      && forall s :: s in g.seeds && s.signer == id ==> s == seed
    requires user != "" && id != user
    ensures id in TrustSet(conns, peers, user, user)
    ensures TrustSet(conns, peers, user, user)[id] == Entry([id], seed.vetoOnly)
  {
    TrustSetComplete(conns, peers, user, user);
    TrustSetSound(conns, peers, user, user, id);
    var path := TrustSet(conns, peers, user, user)[id].path;
    assert path == [id];
  }

  /** A trusted peer is a direct member of the trust set, with the flag it was given. */
  lemma TrustTakesEffect(k: Signing, conns: seq<Row>, peers: seq<Peer>, user: ID, command: Command, later: seq<Row>)
    requires SortedPeers(peers) && user != "" && command.Change? && !command.peer.distrusted && command.peer.id != user
    requires Execute(k, conns, peers, user, command).ok
    ensures var entries, p := TrustSet(later, Execute(k, conns, peers, user, command).peers, user, user), command.peer;
      p.id in entries && entries[p.id] == Entry([p.id], p.vetoOnly)
  {
    var peers', p := Execute(k, conns, peers, user, command).peers, command.peer;
    ChangeStoresPeer(k, conns, peers, user, command);
    var q :| q in peers' && q.id == p.id;
    forall o | o in peers' && o.id == q.id
      ensures o == q
    {
      var i :| 0 <= i < |peers'| && peers'[i] == o;
      var j :| 0 <= j < |peers'| && peers'[j] == q;
      DistinctIds(peers', i, j);
    }
    OnlySeedOfPeer(later, peers', user, q);
    DirectMember(later, peers', user, q.id, PeerSeed(q));
  }

  /** After forgetting a peer, no trust path starts with it. */
  lemma ForgetTakesEffect(k: Signing, conns: seq<Row>, peers: seq<Peer>, user: ID, command: Command,
                          later: seq<Row>, id: ID)
    requires user != "" && command.Forget? && Execute(k, conns, peers, user, command).ok && id != user
    requires id in TrustSet(later, Execute(k, conns, peers, user, command).peers, user, user)
    ensures var path := TrustSet(later, Execute(k, conns, peers, user, command).peers, user, user)[id].path;
      path != [] && path[0] != command.other
  {
    ForgetRemovesPeer(k, conns, peers, user, command);
    TrustSetSound(later, Execute(k, conns, peers, user, command).peers, user, user, id);
  }

  // ---- what a change publishes ----

  /** No content has the empty id. */
  ghost predicate NamesContent(k: Signing) {
    forall body, sig :: k.hash(body, sig) != ""
  }

  lemma ActiveIffUnrevoked(k: Signing, conns: seq<Row>, user: ID, other: ID, c: Row)
    requires WellSigned(k, conns, user) && NamesContent(k) && c in conns && c.signer == user
    requires IsKind(c.body, Connection) && c.body.payload.otherID == other
    ensures Active(conns, user, other, c) <==> !DerivedRevoked(conns, ConnectionRevocation, c.id)
  {
    ActiveMeans(conns, user, other, c);
    DerivedByTarget(conns, ConnectionRevocation, c);
    forall v
      ensures Revokes(conns, ConnectionRevocation, v, c) <==> v in conns && RevokesOwn(user, v, c)
    {
      if v in conns && RevokesOwn(user, v, c) {
        OtherKindOtherId(conns, ConnectionRevocation, v, c);
      }
    }
  }

  /** The user's trust edges to a peer are their active connections to it that say trust. */
  lemma EdgeIffActive(k: Signing, conns: seq<Row>, user: ID, e: Edge)
    requires WellSigned(k, conns, user) && NamesContent(k)
    ensures e in Outgoing(conns, user) <==> exists c ::
      Active(conns, user, e.otherID, c) && c.body.payload.trust && c.body.payload.trustExtends == e.trustExtends
  {
    OutgoingMeans(conns, user, e);
    forall c | c in conns && c.signer == user && IsKind(c.body, Connection) && c.body.payload.otherID == e.otherID
      ensures Active(conns, user, e.otherID, c) <==> !DerivedRevoked(conns, ConnectionRevocation, c.id)
    {
      ActiveIffUnrevoked(k, conns, user, e.otherID, c);
    }
    forall c | Active(conns, user, e.otherID, c)
      ensures c in conns && c.signer == user && IsKind(c.body, Connection) && c.body.payload.otherID == e.otherID
    {
      ActiveMeans(conns, user, e.otherID, c);
    }
  }

  /** The connection a change leaves active is the one just signed, and its payload says what the peer
      was given. */
  lemma ChangePublishes(k: Signing, conns: seq<Row>, peers: seq<Peer>, user: ID, command: Command, c: Row)
    requires Inv(k, conns, user) && Injective(k.hash) && command.Change?
    requires Execute(k, conns, peers, user, command).ok
    requires Active(Execute(k, conns, peers, user, command).conns, user, command.peer.id, c)
    ensures c.at == command.now && c.sig == command.connectionSig && c.id == k.hash(c.body, c.sig)
    ensures c.body.payload.kind == Connection && c.body.payload.signer == user
    ensures c.body.payload.otherID == command.peer.id && c.body.payload.public == command.peer.public
    ensures c.body.payload.trust <==> !command.peer.distrusted && !command.peer.vetoOnly
    ensures c.body.payload.trustExtends == command.peer.trustDepth
  {
    ExecuteKeeps(k, conns, peers, user, command);
  }

  /** What a change publishes: afterwards the user's trust edges to the peer are exactly one to its
      depth when the peer is neither distrusted nor veto-only, and none otherwise. */
  lemma PublishedEdge(k: Signing, conns: seq<Row>, peers: seq<Peer>, user: ID, command: Command, e: Edge)
    requires Inv(k, conns, user) && Injective(k.hash) && NamesContent(k) && command.Change?
    requires Execute(k, conns, peers, user, command).ok && e.otherID == command.peer.id
    requires var row := SignedRow(k, ConnectionTo(user, command.peer), e.otherID, command.connectionSig, command.now);
      row.Some? && !HasId(conns, row.value.id)
    ensures var p := command.peer;
      e in Outgoing(Execute(k, conns, peers, user, command).conns, user) <==>
      !p.distrusted && !p.vetoOnly && e.trustExtends == p.trustDepth
  {
    var conns' := Execute(k, conns, peers, user, command).conns;
    ExecuteKeeps(k, conns, peers, user, command);
    EdgeIffActive(k, conns', user, e);
  }
}
