/** The signature server (handlers/signaturehandler.go on db/sqliteconnector/signature.go). A
    revocation is stored as a signature of its own and also flags its target row; clients never
    trust the flag and derive revocation from the rows they hold. With all of a signer's rows the two
    agree, in every reachable state. */
module Server {
  import opened Text
  import opened Payloads
  import opened Tables
  import opened Stores

  datatype Signature = Signature(
    id: ID,
    signer: ID,
    body: Body,
    algorithm: string,
    sig: string,
    uploadedAt: int,
    revoked: bool,
    revokedAt: Option<int>,
    public: bool)

  /** Hashing and signature checking, whatever they compute. */
  datatype Crypto = Crypto(
    hash: (Body, string) -> ID,
    decodes: string -> bool,
    verifies: (ID, Body, string) -> bool)

  ghost predicate Injective(hash: (Body, string) -> ID) {
    forall b, s, b', s' :: hash(b, s) == hash(b', s') ==> b == b' && s == s'
  }

  datatype Request = Request(
    userID: ID,
    id: ID,
    body: Body,
    algorithm: string,
    sig: string,
    public: Option<bool>,
    authenticated: Option<ID>)

  datatype Response =
    | Created(sig: Signature)
    | BadRequest
    | Unauthorized
    | Forbidden
    | NotFoundResponse

  // ---- the table ----

  predicate Stored(rows: seq<Signature>, id: ID) {
    exists r :: r in rows && r.id == id
  }

  /** `INSERT ... ON CONFLICT(id) DO NOTHING`. */
  function Create(rows: seq<Signature>, row: Signature): seq<Signature> {
    if Stored(rows, row.id) then rows else rows + [row]
  }

  function Flag(row: Signature, id: ID, at: int): Signature {
    if row.id == id then row.(revoked := true, revokedAt := Some(at)) else row
  }

  /** `UPDATE signatures SET revoked = 1 ... WHERE id = ?`. */
  function Revoke(rows: seq<Signature>, id: ID, at: int): (r: seq<Signature>)
    ensures |r| == |rows| && forall i :: 0 <= i < |rows| ==> r[i] == Flag(rows[i], id, at)
  {
    seq(|rows|, i requires 0 <= i < |rows| => Flag(rows[i], id, at))
  }

  function Find(rows: seq<Signature>, id: ID): (found: Option<Signature>)
    ensures found.Some? ==> found.value in rows && found.value.id == id
    ensures found.None? <==> !Stored(rows, id)
  {
    if rows == [] then None
    else if rows[0].id == id then Some(rows[0])
    else
      assert rows == [rows[0]] + rows[1..];
      Find(rows[1..], id)
  }

  // ---- one upload ----

  /** The row an accepted request asks to store. */
  function RowOf(q: Request, now: int): Signature {
    Signature(q.id, q.userID, q.body, q.algorithm, q.sig, now, false, None,
      if q.public.Some? then q.public.value else true)
  }

  /** Why a request is refused, in the order the handler checks. */
  function Refusal(c: Crypto, users: set<ID>, rows: seq<Signature>, q: Request): Option<Response> {
    if q.userID !in users then Some(NotFoundResponse)
    else if q.id == "" || q.id != c.hash(q.body, q.sig) || !c.decodes(q.sig) then Some(BadRequest)
    else if !c.verifies(q.userID, q.body, q.sig) then Some(Unauthorized)
    else if q.body.Malformed? || Validate(q.body.payload).Some? then Some(BadRequest)
    else if IsKind(q.body, Revocation) && !Stored(rows, q.body.payload.targetID) then Some(NotFoundResponse)
    else if IsKind(q.body, Revocation) && Find(rows, q.body.payload.targetID).value.signer != q.userID then
      Some(Forbidden)
    else if q.public == Some(false) && q.authenticated != Some(q.userID) then Some(Unauthorized)
    else None
  }

  /** `CreateSignatureHandler` as one step: the response and the table afterwards. */
  function Handle(c: Crypto, users: set<ID>, rows: seq<Signature>, q: Request, now: int): (Response, seq<Signature>) {
    var refusal := Refusal(c, users, rows, q);
    if refusal.Some? then (refusal.value, rows)
    else
      var created := Create(rows, RowOf(q, now));
      var rows' := if IsKind(q.body, Revocation) then Revoke(created, q.body.payload.targetID, now) else created;
      (Created(RowOf(q, now)), rows')
  }

  datatype Authorization = Authorized | TargetNotFound | NotOwner

  class Database {
    var signatures: seq<Signature>
    var users: set<ID>

    constructor (users: set<ID>)
      ensures signatures == [] && this.users == users
    {
      signatures, this.users := [], users;
    }

    method GetSignature(id: ID) returns (found: Option<Signature>)
      ensures found == Find(signatures, id)
    {
      found := Find(signatures, id);
    }

    method CreateSignature(row: Signature)
      modifies this`signatures
      ensures signatures == Create(old(signatures), row)
    {
      if !Stored(signatures, row.id) {
        signatures := signatures + [row];
      }
    }

    method RevokeSignature(id: ID, at: int)
      modifies this`signatures
      ensures signatures == Revoke(old(signatures), id, at)
    {
      var rows := signatures;
      for i := 0 to |rows|
        invariant |rows| == |old(signatures)|
        invariant forall j :: 0 <= j < i ==> rows[j] == Flag(old(signatures)[j], id, at)
        invariant forall j :: i <= j < |rows| ==> rows[j] == old(signatures)[j]
      {
        if rows[i].id == id {
          rows := rows[i := rows[i].(revoked := true, revokedAt := Some(at))];
        }
      }
      signatures := rows;
    }

    /** `authorizeSignatureRevocation`: signers revoke only their own signatures. */
    method AuthorizeRevocation(targetID: ID, revoker: ID) returns (a: Authorization)
      ensures a.TargetNotFound? <==> !Stored(signatures, targetID)
      ensures a.Authorized? <==> Stored(signatures, targetID) && Find(signatures, targetID).value.signer == revoker
    {
      var target := GetSignature(targetID);
      if target.None? {
        return TargetNotFound;
      }
      a := if target.value.signer != revoker then NotOwner else Authorized;
    }

    /** `CreateSignatureHandler`. */
    method CreateSignatureHandler(c: Crypto, q: Request, now: int) returns (response: Response)
      modifies this`signatures
      ensures (response, signatures) == Handle(c, users, old(signatures), q, now)
    {
      if q.userID !in users {
        return NotFoundResponse;
      }
      if q.id == "" {
        return BadRequest;
      }
      if q.id != c.hash(q.body, q.sig) {
        return BadRequest;
      }
      if !c.decodes(q.sig) {
        return BadRequest;
      }
      if !c.verifies(q.userID, q.body, q.sig) {
        return Unauthorized;
      }
      if q.body.Malformed? {
        return BadRequest;
      }
      var payload := q.body.payload;
      if Validate(payload).Some? {
        return BadRequest;
      }
      if payload.kind == Revocation {
        var a := AuthorizeRevocation(payload.targetID, q.userID);
        if a.TargetNotFound? {
          return NotFoundResponse;
        }
        if a.NotOwner? {
          return Forbidden;
        }
      }
      var isPublic := true;
      if q.public.Some? {
        isPublic := q.public.value;
      }
      if !isPublic && (q.authenticated.None? || q.authenticated.value != q.userID) {
        return Unauthorized;
      }
      var row := Signature(q.id, q.userID, q.body, q.algorithm, q.sig, now, false, None, isPublic);
      CreateSignature(row);
      if payload.kind == Revocation {
        RevokeSignature(payload.targetID, now);
      }
      response := Created(row);
    }
  }

  // ---- what an upload is answered, and what it leaves ----

  /** Its id is its hash. */
  predicate Addressed(c: Crypto, q: Request) {
    q.id != "" && q.id == c.hash(q.body, q.sig) && c.decodes(q.sig)
  }

  predicate Signed(c: Crypto, q: Request) {
    Addressed(c, q) && c.verifies(q.userID, q.body, q.sig)
  }

  predicate WellFormed(q: Request) {
    q.body.Parsed? && Validate(q.body.payload).None?
  }

  /** What a revocation targets. */
  ghost predicate Targets(q: Request, r: Signature) {
    q.body.Parsed? && q.body.payload.kind == Revocation && r.id == q.body.payload.targetID
  }

  ghost predicate TargetMissing(rows: seq<Signature>, q: Request) {
    q.body.Parsed? && q.body.payload.kind == Revocation && forall r :: r in rows ==> !Targets(q, r)
  }

  ghost predicate TargetForeign(rows: seq<Signature>, q: Request) {
    exists r :: r in rows && Targets(q, r) && r.signer != q.userID
  }

  /** A private upload must be authenticated as its signer. */
  predicate Hidden(q: Request) {
    q.public == Some(false) && q.authenticated != Some(q.userID)
  }

  lemma TargetFound(rows: seq<Signature>, q: Request)
    requires q.body.Parsed? && q.body.payload.kind == Revocation
    requires forall a, b :: a in rows && b in rows && a.id == b.id ==> a == b
    ensures var found := Find(rows, q.body.payload.targetID);
      && (found.None? <==> TargetMissing(rows, q))
      && (found.Some? ==> (found.value.signer != q.userID <==> TargetForeign(rows, q)))
  {
    var found := Find(rows, q.body.payload.targetID);
    if found.Some? {
      assert Targets(q, found.value);
    } else {
      assert forall r :: r in rows ==> r.id != q.body.payload.targetID;
    }
  }

  /** Which uploads get which answer, over all requests and tables with one row per id. */
  lemma Answers(c: Crypto, users: set<ID>, rows: seq<Signature>, q: Request, now: int)
    requires forall a, b :: a in rows && b in rows && a.id == b.id ==> a == b
    ensures var answer := Handle(c, users, rows, q, now).0;
      var known, valid := q.userID in users, Signed(c, q) && WellFormed(q);
      var missing, foreign := TargetMissing(rows, q), TargetForeign(rows, q);
      && (answer.Created? <==> known && valid && !missing && !foreign && !Hidden(q))
      && (answer == NotFoundResponse <==> !known || (valid && missing))
      && (answer == Forbidden <==> known && valid && foreign)
      && (answer == Unauthorized <==>
           && known && Addressed(c, q)
           && (!c.verifies(q.userID, q.body, q.sig) || (valid && !missing && !foreign && Hidden(q))))
  {
    if q.body.Parsed? && q.body.payload.kind == Revocation {
      TargetFound(rows, q);
    }
  }

  /** A refused upload changes nothing. An accepted one is stored as it was sent, public unless it said
      otherwise, if its id is new; a revocation also flags its target, and nothing else changes. */
  lemma UploadLeaves(c: Crypto, users: set<ID>, rows: seq<Signature>, q: Request, now: int, r: Signature)
    ensures var (answer, rows') := Handle(c, users, rows, q, now);
      && (!answer.Created? ==> rows' == rows)
      && (answer.Created? ==>
           && answer.sig == Signature(q.id, q.userID, q.body, q.algorithm, q.sig, now, false, None,
                                      q.public != Some(false))
           && (r in rows' <==> exists o ::
                && (o in rows || (o == answer.sig && forall x :: x in rows ==> x.id != q.id))
                && r == if Targets(q, o) then o.(revoked := true, revokedAt := Some(now)) else o))
  {
    var (answer, rows') := Handle(c, users, rows, q, now);
    if answer.Created? {
      var row := RowOf(q, now);
      assert answer.sig == row;
      forall o
        ensures o in Create(rows, row) <==> o in rows || (o == row && forall x :: x in rows ==> x.id != q.id)
      {
      }
      if IsKind(q.body, Revocation) {
        RevokeRows(Create(rows, row), q.body.payload.targetID, now, r);
      }
    }
  }

  // ---- what every reachable table keeps ----

  /** `v` is a stored revocation of `r` by the signer of `r`. */
  ghost predicate RevokesRow(rows: seq<Signature>, v: Signature, r: Signature) {
    v in rows && v.signer == r.signer && IsFor(v.body, Revocation, r.id)
  }

  predicate SameRow(a: Signature, b: Signature) {
    a.id == b.id && a.signer == b.signer && a.body == b.body && a.sig == b.sig
      && a.uploadedAt == b.uploadedAt && a.public == b.public
  }

  ghost predicate ContentAddressed(c: Crypto, rows: seq<Signature>) {
    forall r :: r in rows ==> r.id == c.hash(r.body, r.sig)
  }

  ghost predicate OneRowPerId(rows: seq<Signature>) {
    forall a, b :: a in rows && b in rows && a.id == b.id ==> a == b
  }

  /** Every stored revocation targets another stored row of its own signer. */
  ghost predicate TargetsStored(rows: seq<Signature>) {
    forall v :: v in rows && IsKind(v.body, Revocation) ==>
      exists t :: t in rows && t.id == v.body.payload.targetID && t.signer == v.signer && t.id != v.id
  }

  /** The flag of a row says whether a stored revocation by the same signer targets it. */
  ghost predicate FlagsDerived(rows: seq<Signature>) {
    forall r :: r in rows ==> (r.revoked <==> exists v :: RevokesRow(rows, v, r))
  }

  ghost predicate Consistent(c: Crypto, rows: seq<Signature>) {
    ContentAddressed(c, rows) && OneRowPerId(rows) && TargetsStored(rows) && FlagsDerived(rows)
  }

  lemma CreateKeeps(c: Crypto, rows: seq<Signature>, row: Signature)
    requires Consistent(c, rows) && row.id == c.hash(row.body, row.sig) && !row.revoked && !IsKind(row.body, Revocation)
    ensures Consistent(c, Create(rows, row))
  {
    if !Stored(rows, row.id) {
      var rows' := rows + [row];
      assert forall r :: r in rows' <==> r in rows || r == row;
      forall v | v in rows && IsKind(v.body, Revocation)
        ensures v.body.payload.targetID != row.id
        ensures exists t :: t in rows' && t.id == v.body.payload.targetID && t.signer == v.signer && t.id != v.id
      {
        var t :| t in rows && t.id == v.body.payload.targetID && t.signer == v.signer && t.id != v.id;
        assert t in rows';
      }
      forall r | r in rows'
        ensures r.revoked <==> exists v :: RevokesRow(rows', v, r)
      {
        if r in rows && r.revoked {
          var v :| RevokesRow(rows, v, r);
          assert RevokesRow(rows', v, r);
        }
        forall v | RevokesRow(rows', v, r)
          ensures r in rows && RevokesRow(rows, v, r)
        {
        }
      }
    }
  }

  /** Flagging changes nothing but the flags of one id. */
  lemma RevokeRows(rows: seq<Signature>, id: ID, at: int, r: Signature)
    ensures r in Revoke(rows, id, at) <==> exists o :: o in rows && r == Flag(o, id, at)
  {
    var flagged := Revoke(rows, id, at);
    if r in flagged {
      var i :| 0 <= i < |flagged| && flagged[i] == r;
      assert rows[i] in rows;
    }
    if o :| o in rows && r == Flag(o, id, at) {
      var i :| 0 <= i < |rows| && rows[i] == o;
      assert flagged[i] in flagged;
    }
  }

  /** Storing a revocation of a stored row of the same signer, and flagging that row. */
  lemma RevokeKeeps(c: Crypto, rows: seq<Signature>, row: Signature, t: Signature, at: int)
    requires Consistent(c, rows) && Injective(c.hash) && row.id == c.hash(row.body, row.sig) && !row.revoked
    requires t in rows && t.signer == row.signer && IsFor(row.body, Revocation, t.id)
    ensures Consistent(c, Revoke(Create(rows, row), t.id, at))
  {
    var created := Create(rows, row);
    RevocationIsStored(c, rows, row, t);
    var v :| RevokesRow(created, v, t);
    CreatedRevocation(c, rows, row, t);
    FlaggedKeeps(c, created, t, v, at);
  }

  /** Everything but the flags' agreement holds once the revocation row is stored, and the flags
      agree on every row but the target. */
  ghost predicate AlmostConsistent(c: Crypto, rows: seq<Signature>, id: ID) {
    && ContentAddressed(c, rows) && OneRowPerId(rows) && TargetsStored(rows)
    && forall r :: r in rows && r.id != id ==> (r.revoked <==> exists v :: RevokesRow(rows, v, r))
  }

  lemma RevocationIsStored(c: Crypto, rows: seq<Signature>, row: Signature, t: Signature)
    requires Consistent(c, rows) && Injective(c.hash) && row.id == c.hash(row.body, row.sig)
    requires t in rows && t.signer == row.signer && IsFor(row.body, Revocation, t.id)
    ensures exists v :: RevokesRow(Create(rows, row), v, t)
  {
    if Stored(rows, row.id) {
      var v :| v in rows && v.id == row.id;
      assert v.body == row.body;
      var u :| u in rows && u.id == v.body.payload.targetID && u.signer == v.signer && u.id != v.id;
      assert u == t;
      assert RevokesRow(Create(rows, row), v, t);
    } else {
      assert RevokesRow(Create(rows, row), row, t);
    }
  }

  lemma CreatedRevocation(c: Crypto, rows: seq<Signature>, row: Signature, t: Signature)
    requires Consistent(c, rows) && row.id == c.hash(row.body, row.sig) && !row.revoked
    requires t in rows && t.signer == row.signer && IsFor(row.body, Revocation, t.id)
    ensures AlmostConsistent(c, Create(rows, row), t.id)
  {
    if !Stored(rows, row.id) {
      var rows' := rows + [row];
      assert forall r :: r in rows' <==> r in rows || r == row;
      forall v | v in rows' && IsKind(v.body, Revocation)
        ensures v.body.payload.targetID != row.id
        ensures exists u :: u in rows' && u.id == v.body.payload.targetID && u.signer == v.signer && u.id != v.id
      {
        if v == row {
          assert t in rows';
        } else {
          var u :| u in rows && u.id == v.body.payload.targetID && u.signer == v.signer && u.id != v.id;
          assert u in rows';
        }
      }
      forall r | r in rows' && r.id != t.id
        ensures r.revoked <==> exists v :: RevokesRow(rows', v, r)
      {
        if r in rows && r.revoked {
          var v :| RevokesRow(rows, v, r);
          assert RevokesRow(rows', v, r);
        }
        forall v | RevokesRow(rows', v, r)
          ensures r in rows && RevokesRow(rows, v, r)
        {
        }
      }
    }
  }

  /** Rows before and after flagging, by membership. */
  ghost predicate FlaggedTo(rows: seq<Signature>, rows': seq<Signature>, id: ID, at: int) {
    && (forall r :: r in rows' ==> exists o :: o in rows && r == Flag(o, id, at))
    && (forall o :: o in rows ==> Flag(o, id, at) in rows')
  }

  lemma RevokeFlags(rows: seq<Signature>, id: ID, at: int)
    ensures FlaggedTo(rows, Revoke(rows, id, at), id, at)
  {
    forall r
      ensures r in Revoke(rows, id, at) <==> exists o :: o in rows && r == Flag(o, id, at)
    {
      RevokeRows(rows, id, at, r);
    }
  }

  lemma FlaggedRevokers(rows: seq<Signature>, rows': seq<Signature>, id: ID, at: int, o: Signature)
    requires FlaggedTo(rows, rows', id, at)
    ensures (exists v :: RevokesRow(rows, v, o)) <==> (exists w :: RevokesRow(rows', w, Flag(o, id, at)))
  {
    if v :| RevokesRow(rows, v, o) {
      assert RevokesRow(rows', Flag(v, id, at), Flag(o, id, at));
    }
    if w :| RevokesRow(rows', w, Flag(o, id, at)) {
      var v :| v in rows && w == Flag(v, id, at);
      assert RevokesRow(rows, v, o);
    }
  }

  lemma FlaggedTargets(rows: seq<Signature>, rows': seq<Signature>, id: ID, at: int)
    requires FlaggedTo(rows, rows', id, at) && TargetsStored(rows)
    ensures TargetsStored(rows')
  {
    forall w | w in rows' && IsKind(w.body, Revocation)
      ensures exists u :: u in rows' && u.id == w.body.payload.targetID && u.signer == w.signer && u.id != w.id
    {
      var o :| o in rows && w == Flag(o, id, at);
      var u :| u in rows && u.id == o.body.payload.targetID && u.signer == o.signer && u.id != o.id;
      assert Flag(u, id, at) in rows';
    }
  }

  lemma FlaggedRows(c: Crypto, rows: seq<Signature>, rows': seq<Signature>, id: ID, at: int)
    requires FlaggedTo(rows, rows', id, at) && ContentAddressed(c, rows) && OneRowPerId(rows)
    ensures ContentAddressed(c, rows') && OneRowPerId(rows')
  {
    forall a, b | a in rows' && b in rows' && a.id == b.id
      ensures a == b
    {
      var o :| o in rows && a == Flag(o, id, at);
      var u :| u in rows && b == Flag(u, id, at);
    }
    forall r | r in rows'
      ensures r.id == c.hash(r.body, r.sig)
    {
      var o :| o in rows && r == Flag(o, id, at);
    }
  }

  lemma FlaggedKeeps(c: Crypto, rows: seq<Signature>, t: Signature, v: Signature, at: int)
    requires AlmostConsistent(c, rows, t.id) && RevokesRow(rows, v, t) && t in rows
    ensures Consistent(c, Revoke(rows, t.id, at))
  {
    var rows' := Revoke(rows, t.id, at);
    RevokeFlags(rows, t.id, at);
    FlaggedRows(c, rows, rows', t.id, at);
    FlaggedTargets(rows, rows', t.id, at);
    forall r | r in rows'
      ensures r.revoked <==> exists w :: RevokesRow(rows', w, r)
    {
      var o :| o in rows && r == Flag(o, t.id, at);
      FlaggedRevokers(rows, rows', t.id, at, o);
      assert o.id == t.id ==> o == t;
    }
  }

  /** One request keeps the table consistent, whatever it asks and whatever `verifies` says. */
  lemma HandleKeeps(c: Crypto, users: set<ID>, rows: seq<Signature>, q: Request, now: int)
    requires Consistent(c, rows) && Injective(c.hash)
    ensures Consistent(c, Handle(c, users, rows, q, now).1)
  {
    if Refusal(c, users, rows, q).None? {
      if IsKind(q.body, Revocation) {
        var t := Find(rows, q.body.payload.targetID).value;
        RevokeKeeps(c, rows, RowOf(q, now), t, now);
      } else {
        CreateKeeps(c, rows, RowOf(q, now));
      }
    }
  }

  datatype Upload = Upload(request: Request, at: int)

  function Run(c: Crypto, users: set<ID>, rows: seq<Signature>, uploads: seq<Upload>): seq<Signature>
    decreases |uploads|
  {
    if uploads == [] then rows
    else Run(c, users, Handle(c, users, rows, uploads[0].request, uploads[0].at).1, uploads[1..])
  }

  lemma {:induction false} RunKeeps(c: Crypto, users: set<ID>, rows: seq<Signature>, uploads: seq<Upload>)
    requires Consistent(c, rows) && Injective(c.hash)
    ensures Consistent(c, Run(c, users, rows, uploads))
    decreases |uploads|
  {
    if uploads != [] {
      HandleKeeps(c, users, rows, uploads[0].request, uploads[0].at);
      RunKeeps(c, users, Handle(c, users, rows, uploads[0].request, uploads[0].at).1, uploads[1..]);
    }
  }

  /** In every state reachable from an empty server, a row is flagged revoked if and only if a
      stored revocation by the same signer targets it. */
  lemma FlagsAlwaysDerived(c: Crypto, users: set<ID>, uploads: seq<Upload>, r: Signature)
    requires Injective(c.hash) && r in Run(c, users, [], uploads)
    ensures r.revoked <==> exists v :: RevokesRow(Run(c, users, [], uploads), v, r)
  {
    RunKeeps(c, users, [], uploads);
  }

  // ---- a client with the same rows ----

  predicate Copies(row: Row, r: Signature) {
    row.id == r.id && row.signer == r.signer && row.body == r.body && row.sig == r.sig
  }

  /** The client holds copies of exactly the server's rows of this signer. */
  ghost predicate SameRowsAsServer(cache: seq<Row>, rows: seq<Signature>, signer: ID) {
    && (forall r :: r in rows && r.signer == signer ==> exists row :: row in cache && Copies(row, r))
    && (forall row :: row in cache && row.signer == signer ==> exists r :: r in rows && Copies(row, r))
  }

  /** The client derives for a row exactly what the server's flag says. */
  lemma ClientAgreesWithServer(c: Crypto, rows: seq<Signature>, cache: seq<Row>, r: Signature)
    requires Consistent(c, rows) && UniqueIds(cache) && r in rows && SameRowsAsServer(cache, rows, r.signer)
    ensures DerivedRevoked(cache, Revocation, r.id) <==> r.revoked
  {
    var t :| t in cache && Copies(t, r);
    DerivedByTarget(cache, Revocation, t);
    if r.revoked {
      var v :| RevokesRow(rows, v, r);
      var u :| u in rows && u.id == v.body.payload.targetID && u.signer == v.signer && u.id != v.id;
      var row :| row in cache && Copies(row, v);
      assert Revokes(cache, Revocation, row, t);
    }
    if row :| Revokes(cache, Revocation, row, t) {
      var v :| v in rows && Copies(row, v);
      assert RevokesRow(rows, v, r);
    }
  }
}
