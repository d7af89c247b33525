/**
  `authUser` and `authCaptain`: extract the token, then reject it if absent,
  if denylisted, if it fails verification or if its id resolves to nothing,
  in that order; otherwise attach the record to the request and call `next`.
 */
module AuthMiddleware {
  import opened Common
  import opened Oracles
  import opened CaptainModel
  import opened Store
  import opened TokenExtraction
  import opened Http

  const Unauthorized: int := 401

  const NoTokenMessage: string := "Unauthorized: No token provided"
  const DeniedMessage: string := "Unauthorized"
  const InvalidTokenMessage: string := "Unauthorized: Invalid token"
  const UserNotFoundMessage: string := "Unauthorized: User not found"
  const CaptainNotFoundMessage: string := "Unauthorized: Captain not found"

  datatype Decision<R> = Accept(record: R) | Reject(status: int, message: string)

  /**
    The gate's decision for an extracted token. The denylist and the store
    are queries that may fail; a failure, like a token `verify` refuses,
    lands in the handler's `catch` and yields "Invalid token".
   */
  function Gate<R>(
    token: Option<Token>,
    denylisted: Token -> Fetch<bool>,
    verify: Token -> Option<Id>,
    findById: Id -> Fetch<Option<R>>,
    notFound: string): (d: Decision<R>)
    ensures d.Reject? ==> d.status == Unauthorized
    ensures d.Accept? <==>
      && token.Some?
      && denylisted(token.value) == Fetched(false)
      && verify(token.value).Some?
      && findById(verify(token.value).value).Fetched?
      && findById(verify(token.value).value).value.Some?
    ensures d.Accept? ==> findById(verify(token.value).value) == Fetched(Some(d.record))
  {
    match token
    case None => Reject(Unauthorized, NoTokenMessage)
    case Some(t) =>
      match denylisted(t)
      case Failed => Reject(Unauthorized, InvalidTokenMessage)
      case Fetched(true) => Reject(Unauthorized, DeniedMessage)
      case Fetched(false) =>
        match verify(t)
        case None => Reject(Unauthorized, InvalidTokenMessage)
        case Some(id) =>
          match findById(id)
          case Failed => Reject(Unauthorized, InvalidTokenMessage)
          case Fetched(None) => Reject(Unauthorized, notFound)
          case Fetched(Some(r)) => Accept(r)
  }

  /** Without a token the request is rejected before the denylist, the verifier or the store is asked. */
  lemma NoTokenFirst<R>(
    denylisted: Token -> Fetch<bool>, verify: Token -> Option<Id>,
    findById: Id -> Fetch<Option<R>>, notFound: string)
    ensures Gate(None, denylisted, verify, findById, notFound) == Reject(Unauthorized, NoTokenMessage)
  {
  }

  /**
    A denylisted token is rejected before signature verification, whatever
    the verifier and the store would answer: even a validly signed token
    of an existing record.
   */
  lemma DenylistBeforeVerify<R>(
    t: Token, denylisted: Token -> Fetch<bool>,
    verify1: Token -> Option<Id>, findById1: Id -> Fetch<Option<R>>,
    verify2: Token -> Option<Id>, findById2: Id -> Fetch<Option<R>>, notFound: string)
    requires denylisted(t) == Fetched(true)
    ensures Gate(Some(t), denylisted, verify1, findById1, notFound) == Reject(Unauthorized, DeniedMessage)
    ensures Gate(Some(t), denylisted, verify1, findById1, notFound)
         == Gate(Some(t), denylisted, verify2, findById2, notFound)
  {
  }

  /** A token that fails verification, or a failed lookup, gives "Invalid token". */
  lemma InvalidTokenCases<R>(
    t: Token, denylisted: Token -> Fetch<bool>, verify: Token -> Option<Id>,
    findById: Id -> Fetch<Option<R>>, notFound: string)
    requires denylisted(t) != Fetched(true)
    requires denylisted(t) == Failed || verify(t).None? || findById(verify(t).value) == Failed
    ensures Gate(Some(t), denylisted, verify, findById, notFound) == Reject(Unauthorized, InvalidTokenMessage)
  {
  }

  /** The rider gate over the in-memory collections, which never fail. */
  function UserDecision(token: Option<Token>, users: seq<User>, denylist: seq<Token>, verify: Token -> Option<Id>)
    : (d: Decision<User>)
    ensures d.Accept? <==>
      && token.Some? && token.value !in denylist && verify(token.value).Some?
      && UserById(users, verify(token.value).value).Some?
    ensures d.Accept? ==> d.record in users && d.record.id == verify(token.value).value
    ensures d.Reject? ==> d.status == Unauthorized
  {
    Gate(token, (t: Token) => Fetched(t in denylist), verify,
         (id: Id) => Fetched(UserById(users, id)), UserNotFoundMessage)
  }

  /** The captain gate: the same procedure over the captain collection. */
  function CaptainDecision(token: Option<Token>, captains: seq<Captain>, denylist: seq<Token>, verify: Token -> Option<Id>)
    : (d: Decision<Captain>)
    ensures d.Accept? <==>
      && token.Some? && token.value !in denylist && verify(token.value).Some?
      && CaptainById(captains, verify(token.value).value).Some?
    ensures d.Accept? ==> d.record.password.None? && d.record.id == verify(token.value).value
    ensures d.Accept? ==> exists c :: c in captains && d.record == Hidden(c)
    ensures d.Reject? ==> d.status == Unauthorized
  {
    Gate(token, (t: Token) => Fetched(t in denylist), verify,
         (id: Id) => Fetched(CaptainById(captains, id)), CaptainNotFoundMessage)
  }

  /**
    The two gates agree up to the lookup: each rejects for a reason other
    than "not found" exactly when the other does, with the same status and
    message; a verified id that the store lacks gives each its own message.
   */
  lemma GatesDifferOnlyInStore(
    token: Option<Token>, users: seq<User>, captains: seq<Captain>,
    denylist: seq<Token>, verify: Token -> Option<Id>)
    ensures var u := UserDecision(token, users, denylist, verify);
            var c := CaptainDecision(token, captains, denylist, verify);
            && (u.Reject? && u.message != UserNotFoundMessage <==> c.Reject? && c.message != CaptainNotFoundMessage)
            && (u.Reject? && u.message != UserNotFoundMessage ==> u.status == c.status && u.message == c.message)
            && (u.Reject? && u.message == UserNotFoundMessage <==>
                  token.Some? && token.value !in denylist && verify(token.value).Some?
                  && UserById(users, verify(token.value).value).None?)
            && (c.Reject? && c.message == CaptainNotFoundMessage <==>
                  token.Some? && token.value !in denylist && verify(token.value).Some?
                  && CaptainById(captains, verify(token.value).value).None?)
  {
  }

  /**
    Once a token is on the denylist, every request carrying it, in the
    cookie or in the header, is rejected by both gates.
   */
  lemma DeniedTokenRejected(
    t: Token, cookie: Option<string>, authorization: Option<string>,
    users: seq<User>, captains: seq<Captain>, denylist: seq<Token>, verify: Token -> Option<Id>)
    requires t in denylist
    requires ExtractToken(cookie, authorization) == Some(t)
    ensures UserDecision(ExtractToken(cookie, authorization), users, denylist, verify) == Reject(Unauthorized, DeniedMessage)
    ensures CaptainDecision(ExtractToken(cookie, authorization), captains, denylist, verify) == Reject(Unauthorized, DeniedMessage)
  {
  }

  /** The outcome of the middleware: `next()` was called, or a 401 was sent. */
  datatype GateReply = Next | Respond(status: int, message: string)

  /**
    `authUser`: on acceptance sets `req.user` to the record and calls `next`
    once; on rejection sends the 401 and leaves the request as it was.
   */
  method AuthUser(req: Request, db: Database, o: Oracles) returns (g: GateReply)
    modifies req`user, req`nextCalls
    ensures match UserDecision(ExtractToken(req.cookieToken, req.authorization), db.users, db.denylist, o.verify)
      case Accept(u) => g == Next && req.user == Some(u) && req.nextCalls == old(req.nextCalls) + 1
      case Reject(status, message) =>
        g == Respond(status, message) && req.user == old(req.user) && req.nextCalls == old(req.nextCalls)
  {
    var token := ExtractToken(req.cookieToken, req.authorization);
    match UserDecision(token, db.users, db.denylist, o.verify)
    case Accept(u) =>
      req.user := Some(u);
      req.nextCalls := req.nextCalls + 1;
      g := Next;
    case Reject(status, message) =>
      g := Respond(status, message);
  }

  /**
    `authCaptain`: on acceptance sets `req.captain` to the record (read
    without its password) and calls `next` once; on rejection sends the
    401 and leaves the request as it was.
   */
  method AuthCaptain(req: Request, db: Database, o: Oracles) returns (g: GateReply)
    modifies req`captain, req`nextCalls
    ensures match CaptainDecision(ExtractToken(req.cookieToken, req.authorization), db.captains, db.denylist, o.verify)
      case Accept(c) => g == Next && req.captain == Some(c) && c.password.None? && req.nextCalls == old(req.nextCalls) + 1
      case Reject(status, message) =>
        g == Respond(status, message) && req.captain == old(req.captain) && req.nextCalls == old(req.nextCalls)
  {
    var token := ExtractToken(req.cookieToken, req.authorization);
    match CaptainDecision(token, db.captains, db.denylist, o.verify)
    case Accept(c) =>
      req.captain := Some(c);
      req.nextCalls := req.nextCalls + 1;
      g := Next;
    case Reject(status, message) =>
      g := Respond(status, message);
  }
}
