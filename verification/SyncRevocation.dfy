/** Which revocations a client derives after a sync, over every run of `SyncProtocol`: the open ones on
    the server it synced with, and those it kept from elsewhere. What it can have from elsewhere is
    known, because every cached row was received or copies an open row of some server. */
module SyncRevocation {
  import opened Payloads
  import opened Tables
  import opened Stores
  import opened Server
  import opened Sync
  import opened SyncProtocol
  import opened SyncResults

  // ---- where cached rows come from ----

  /** The row copies an open row of some server. */
  ghost predicate FromServer(e: Setting, w: World, row: Row) {
    exists url, v :: v in RowsAt(w, url) && Copies(row, v) && Open(e, v)
  }

  ghost predicate Sourced(e: Setting, w: World, past: seq<Step>, row: Row) {
    Receive(row) in past || FromServer(e, w, row)
  }

  ghost predicate AllSourced(e: Setting, w: World, past: seq<Step>) {
    && (forall row :: row in w.cache ==> Sourced(e, w, past, row))
    && (Saving(w) ==> forall row :: row in w.session.value.fetch.value.left ==> FromServer(e, w, row))
  }

  /** Servers drop nothing, and flags do not matter. */
  lemma FromServerStays(e: Setting, w: World, step: Step, row: Row)
    requires Sane(e) && Inv(e, w) && Enabled(e, w, step) && FromServer(e, w, row)
    ensures FromServer(e, Next(e, w, step), row)
  {
    var w' := Next(e, w, step);
    var url, v :| v in RowsAt(w, url) && Copies(row, v) && Open(e, v);
    if step.Submit? {
      SubmitKeepsInv(e, w, step.url, step.request);
      CopyStays(e, RowsAt(w, url), RowsAt(w', url), Second(w.nanos), row, v);
    } else {
      assert RowsAt(w', url) == RowsAt(w, url);
    }
  }

  lemma CopyStays(e: Setting, held: seq<Signature>, rows: seq<Signature>, now: int, row: Row, v: Signature)
    requires Sane(e) && GrewSince(held, rows, now) && v in held && Copies(row, v) && Open(e, v)
    ensures exists u :: u in rows && Copies(row, u) && Open(e, u)
  {
    var u :| u in rows && SameUpload(v, u);
    assert Copies(row, u) && Open(e, u);
  }

  lemma FetchedFromServer(e: Setting, w: World, row: Row)
    requires HasNext(w) && row in FetchFor(e, w).left
    ensures exists v :: v in RowsAt(w, NextPeer(w).serverURL) && Copies(row, v) && Open(e, v)
  {
    var peer := NextPeer(w);
    var sent := GetUserSignatures(RowsAt(w, peer.serverURL), peer.id, peer.lastSyncedAt, false);
    var v :| v in sent && e.accepts(peer.id, v) && row == ToRow(v, w.session.value.now);
    assert Copies(row, v) && Open(e, v);
  }

  lemma SourcedStays(e: Setting, w: World, past: seq<Step>, step: Step, row: Row)
    requires Sane(e) && Inv(e, w) && Enabled(e, w, step) && Sourced(e, w, past, row)
    ensures Sourced(e, Next(e, w, step), past + [step], row)
  {
    if FromServer(e, w, row) {
      FromServerStays(e, w, step, row);
    }
  }

  /** A row cached after a step was cached before it, or left to be saved, or is received by it. */
  lemma NewlyCached(e: Setting, w: World, step: Step, row: Row)
    requires Enabled(e, w, step) && row in Next(e, w, step).cache && row !in w.cache
    ensures step == Receive(row) || (step == SaveOne && row in w.session.value.fetch.value.left)
  {
  }

  lemma StepKeepsSources(e: Setting, w: World, past: seq<Step>, step: Step)
    requires Sane(e) && Inv(e, w) && Enabled(e, w, step) && AllSourced(e, w, past)
    ensures AllSourced(e, Next(e, w, step), past + [step])
  {
    var w' := Next(e, w, step);
    forall row | row in w'.cache
      ensures Sourced(e, w', past + [step], row)
    {
      if row in w.cache {
        SourcedStays(e, w, past, step, row);
      } else {
        NewlyCached(e, w, step, row);
        if step == SaveOne {
          FromServerStays(e, w, step, row);
        }
      }
    }
    if Saving(w') {
      forall row | row in w'.session.value.fetch.value.left
        ensures FromServer(e, w', row)
      {
        LeftFromServer(e, w, past, step, row);
      }
    }
  }

  lemma LeftFromServer(e: Setting, w: World, past: seq<Step>, step: Step, row: Row)
    requires Sane(e) && Inv(e, w) && Enabled(e, w, step) && AllSourced(e, w, past)
    requires Saving(Next(e, w, step)) && row in Next(e, w, step).session.value.fetch.value.left
    ensures FromServer(e, Next(e, w, step), row)
  {
    if step == FetchNext {
      FetchedFromServer(e, w, row);
      assert FromServer(e, w, row);
    }
    FromServerStays(e, w, step, row);
  }

  /** Over every behaviour: what the client holds it received, or some server has it openly. */
  lemma {:induction false} BehaviourKeepsSources(e: Setting, worlds: seq<World>, steps: seq<Step>, i: nat)
    requires Sane(e) && Behaviour(e, worlds, steps) && i < |worlds|
    ensures AllSourced(e, worlds[i], steps[..i])
  {
    if i > 0 {
      BehaviourKeepsSources(e, worlds, steps, i - 1);
      BehaviourKeepsInv(e, worlds, steps, i - 1);
      assert GoesTo(e, worlds[i - 1], steps[i - 1], worlds[i]);
      StepKeepsSources(e, worlds[i - 1], steps[..i - 1], steps[i - 1]);
      assert steps[..i] == steps[..i - 1] + [steps[i - 1]];
    }
  }

  // ---- what the client derives ----

  /** A stored, open revocation of the row by its own signer. */
  ghost predicate OpenlyRevoked(e: Setting, rows: seq<Signature>, r: Signature) {
    exists v :: RevokesRow(rows, v, r) && Open(e, v)
  }

  predicate IsRevocationOf(row: Row, r: Signature) {
    row.signer == r.signer && row.id != r.id && IsFor(row.body, Revocation, r.id)
  }

  /** A revocation of the row by its own signer was received. */
  ghost predicate ReceivedRevocation(past: seq<Step>, r: Signature) {
    exists row :: Receive(row) in past && IsRevocationOf(row, r)
  }

  /** A server other than this one has an open revocation of the row by its own signer. */
  ghost predicate OpenlyRevokedAtOther(e: Setting, w: World, url: string, r: Signature) {
    exists other :: other != url && OpenlyRevoked(e, RowsAt(w, other), r)
  }

  /** The row was received, or copies an open row of a server other than this one. */
  ghost predicate FromElsewhere(e: Setting, w: World, url: string, past: seq<Step>, row: Row) {
    || Receive(row) in past
    || exists other, v :: other != url && v in RowsAt(w, other) && Copies(row, v) && Open(e, v)
  }

  /** When it fetched from this server, the client held a revocation of the row from elsewhere. */
  ghost predicate KeptRevocation(e: Setting, w: World, url: string, past: seq<Step>, r: Signature) {
    exists row :: row in w.cache && IsRevocationOf(row, r) && FromElsewhere(e, w, url, past, row)
  }

  lemma KeptFrom(e: Setting, w: World, url: string, past: seq<Step>, r: Signature)
    requires KeptRevocation(e, w, url, past, r)
    ensures ReceivedRevocation(past, r) || OpenlyRevokedAtOther(e, w, url, r)
  {
    var row :| row in w.cache && IsRevocationOf(row, r) && FromElsewhere(e, w, url, past, row);
    if Receive(row) !in past {
      var other, v :| other != url && v in RowsAt(w, other) && Copies(row, v) && Open(e, v);
      assert RevokesRow(RowsAt(w, other), v, r);
    }
  }

  lemma {:induction false} SavedRows(rows: seq<Row>, more: seq<Row>, row: Row)
    ensures row in SaveAll(rows, more) ==> row in rows || row in more
    ensures row in rows ==> row in SaveAll(rows, more)
    decreases |more|
  {
    if more != [] {
      SavedRows(Save(rows, more[0]), more[1..], row);
      assert more == [more[0]] + more[1..];
    }
  }

  /** Where a revocation cached after saving a fetch comes from. */
  lemma RevocationSource(e: Setting, w: World, past: seq<Step>, r: Signature, row: Row)
    requires HasNext(w) && AllSourced(e, w, past) && IsRevocationOf(row, r)
    requires row in SaveAll(w.cache, FetchFor(e, w).left)
    ensures var url := NextPeer(w).serverURL;
      OpenlyRevoked(e, RowsAt(w, url), r) || KeptRevocation(e, w, url, past, r)
  {
    var url := NextPeer(w).serverURL;
    SavedRows(w.cache, FetchFor(e, w).left, row);
    if row in w.cache {
      if Receive(row) !in past {
        var u, v :| v in RowsAt(w, u) && Copies(row, v) && Open(e, v);
        if u == url {
          assert RevokesRow(RowsAt(w, url), v, r);
        }
      }
    } else {
      FetchedFromServer(e, w, row);
      var v :| v in RowsAt(w, url) && Copies(row, v) && Open(e, v);
      assert RevokesRow(RowsAt(w, url), v, r);
    }
  }

  /** A client that holds all of the signer's open rows derives the open revocations. */
  lemma DerivesOpen(e: Setting, rows: seq<Signature>, now: int, cache: seq<Row>, r: Signature)
    requires ServerInv(e.crypto, rows, now) && UniqueIds(cache) && r in rows && Open(e, r)
    requires Complete(e, rows, cache, r.signer) && OpenlyRevoked(e, rows, r)
    ensures exists row :: row in cache && IsRevocationOf(row, r)
  {
    var v :| RevokesRow(rows, v, r) && Open(e, v);
    var u :| u in rows && u.id == v.body.payload.targetID && u.signer == v.signer && u.id != v.id;
    var row :| row in cache && Copies(row, v);
    assert IsRevocationOf(row, r);
  }

  lemma DerivedIffHeld(cache: seq<Row>, r: Signature)
    requires UniqueIds(cache) && Holds(cache, r)
    ensures DerivedRevoked(cache, Revocation, r.id) <==> exists row :: row in cache && IsRevocationOf(row, r)
  {
    var t :| t in cache && Copies(t, r);
    DerivedByTarget(cache, Revocation, t);
    forall row
      ensures Revokes(cache, Revocation, row, t) <==> row in cache && IsRevocationOf(row, r)
    {
    }
  }

  /** After the fetch answered in `w` is saved as `cache`, what is derived for a row. */
  lemma DerivesRevocations(e: Setting, w: World, past: seq<Step>, cache: seq<Row>, r: Signature)
    requires HasNext(w) && Inv(e, w) && AllSourced(e, w, past)
    requires cache == SaveAll(w.cache, FetchFor(e, w).left) && UniqueIds(cache)
    requires var peer := NextPeer(w);
      r in RowsAt(w, peer.serverURL) && Open(e, r) && Complete(e, RowsAt(w, peer.serverURL), cache, r.signer)
    ensures var url := NextPeer(w).serverURL;
      DerivedRevoked(cache, Revocation, r.id) <==>
        OpenlyRevoked(e, RowsAt(w, url), r) || KeptRevocation(e, w, url, past, r)
  {
    var url := NextPeer(w).serverURL;
    DerivedIffHeld(cache, r);
    if OpenlyRevoked(e, RowsAt(w, url), r) {
      DerivesOpen(e, RowsAt(w, url), Second(w.nanos), cache, r);
    }
    if KeptRevocation(e, w, url, past, r) {
      var row :| row in w.cache && IsRevocationOf(row, r);
      SavedRows(w.cache, FetchFor(e, w).left, row);
    }
    if row :| row in cache && IsRevocationOf(row, r) {
      RevocationSource(e, w, past, r, row);
    }
  }

  /** In every behaviour, when a peer is stamped as synced and nothing of it was lost, the client derives
      for each open signature its server held at the fetch exactly the open revocations on that server
      and those it then held from elsewhere. The latter it received before, or another server has them
      openly; without either it derives exactly the open revocations. The server's flag also stands for
      the private ones. */
  lemma SyncedRevocation(e: Setting, worlds: seq<World>, steps: seq<Step>, i: nat) returns (j: nat)
    requires Sane(e) && Behaviour(e, worlds, steps) && i < |steps| && steps[i] == Stamp
    ensures j < i && steps[j] == FetchNext && HasNext(worlds[i]) && AnswersAt(e, worlds[j], worlds[i])
    ensures var w, peer, cache := worlds[j], NextPeer(worlds[i]), worlds[i + 1].cache;
      var url := peer.serverURL;
      Resumable(e, RowsAt(w, url), w.cache, peer) ==>
        forall r | r in RowsAt(w, url) && r.signer == peer.id && Open(e, r) ::
          && (DerivedRevoked(cache, Revocation, r.id) <==>
               OpenlyRevoked(e, RowsAt(w, url), r) || KeptRevocation(e, w, url, steps[..j], r))
          && (KeptRevocation(e, w, url, steps[..j], r) ==>
               ReceivedRevocation(steps[..j], r) || OpenlyRevokedAtOther(e, w, url, r))
          && (r.revoked <==> exists v :: RevokesRow(RowsAt(w, url), v, r))
  {
    j := NothingLostIff(e, worlds, steps, i);
    assert GoesTo(e, worlds[i], steps[i], worlds[i + 1]);
    BehaviourKeepsInv(e, worlds, steps, i + 1);
    BehaviourKeepsInv(e, worlds, steps, j);
    BehaviourKeepsSources(e, worlds, steps, j);
    var w, peer, cache := worlds[j], NextPeer(worlds[i]), worlds[i + 1].cache;
    var url := peer.serverURL;
    if Resumable(e, RowsAt(w, url), w.cache, peer) {
      forall r | r in RowsAt(w, url) && r.signer == peer.id && Open(e, r)
        ensures DerivedRevoked(cache, Revocation, r.id) <==>
          OpenlyRevoked(e, RowsAt(w, url), r) || KeptRevocation(e, w, url, steps[..j], r)
        ensures KeptRevocation(e, w, url, steps[..j], r) ==>
          ReceivedRevocation(steps[..j], r) || OpenlyRevokedAtOther(e, w, url, r)
        ensures r.revoked <==> exists v :: RevokesRow(RowsAt(w, url), v, r)
      {
        DerivesRevocations(e, w, steps[..j], cache, r);
        if KeptRevocation(e, w, url, steps[..j], r) {
          KeptFrom(e, w, url, steps[..j], r);
        }
      }
    }
  }

  /** So after a sync of a peer whose revocations the client never received and no other server has, it
      derives exactly the open revocations, and agrees with the flag if and only if each flagged
      signature has one. */
  lemma SyncedFromOneServer(e: Setting, worlds: seq<World>, steps: seq<Step>, i: nat) returns (j: nat)
    requires Sane(e) && Behaviour(e, worlds, steps) && i < |steps| && steps[i] == Stamp
    ensures j < i && steps[j] == FetchNext && HasNext(worlds[i]) && AnswersAt(e, worlds[j], worlds[i])
    ensures var w, peer, cache := worlds[j], NextPeer(worlds[i]), worlds[i + 1].cache;
      var rows := RowsAt(w, peer.serverURL);
      Resumable(e, rows, w.cache, peer) ==>
        forall r | r in rows && r.signer == peer.id && Open(e, r)
            && !ReceivedRevocation(steps[..j], r) && !OpenlyRevokedAtOther(e, w, peer.serverURL, r) ::
          && (DerivedRevoked(cache, Revocation, r.id) <==> OpenlyRevoked(e, rows, r))
          && ((DerivedRevoked(cache, Revocation, r.id) <==> r.revoked) <==>
               (r.revoked ==> OpenlyRevoked(e, rows, r)))
  {
    j := SyncedRevocation(e, worlds, steps, i);
  }
}
