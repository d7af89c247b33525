/**
  The rider handlers: register, login, profile and logout. The user model
  and user service are not part of this model: creation is a plain insert
  of the fields the handler passes, and tokens carry the same claims as a
  captain's.
 */
module UserController {
  import opened Common
  import opened Oracles
  import opened Store
  import opened TokenExtraction
  import opened Http

  const AlreadyExists: string := "User already exists"
  const InvalidCredentials: string := "Invalid email or password"
  const TokenNotFound: string := "Token not found"
  const LoggedOut: string := "Logged out successfully"
  /** What reading `firstName` of an undefined `fullName` throws. */
  const TypeError: string := "TypeError"

  datatype Registration = Registration(fullName: Option<NameData>, email: string, password: string)

  /**
    `registerUser`. Validation errors give 400 with the list and a taken
    email 400 "User already exists"; both leave the store unchanged and issue
    no token. Otherwise exactly one rider is created whose password is the
    hash of the given one, and the reply is 201 with a token for it. Riders'
    emails stay pairwise distinct.
   */
  method RegisterUser(db: Database, body: Registration, errors: seq<string>, o: Oracles, salt: nat, now: int)
    returns (reply: Reply<User>)
    requires db.Valid()
    modifies db`users, db`nextId
    ensures db.Valid()
    ensures old(db.DistinctUserEmails()) ==> db.DistinctUserEmails()
    ensures errors != [] ==> reply == Send(400, ValidationErrors(errors), KeepCookie) && unchanged(db)
    ensures errors == [] && UserByEmail(old(db.users), body.email).Some? ==>
      reply == Send(400, Failure(AlreadyExists), KeepCookie) && unchanged(db)
    ensures errors == [] && UserByEmail(old(db.users), body.email).None? && body.fullName.None? ==>
      reply == PassToNext(TypeError) && unchanged(db)
    ensures errors == [] && UserByEmail(old(db.users), body.email).None? && body.fullName.Some? ==>
      var u := User(old(db.nextId), body.fullName.value.firstName, body.fullName.value.lastName,
                    body.email, o.hash(body.password, salt));
      && db.users == old(db.users) + [u]
      && reply == Send(201, Session(o.sign(AuthClaims(u.id, now)), u), KeepCookie)
  {
    if errors != [] {
      return Send(400, ValidationErrors(errors), KeepCookie);
    }
    if UserByEmail(db.users, body.email).Some? {
      return Send(400, Failure(AlreadyExists), KeepCookie);
    }
    var hashed := o.hash(body.password, salt);
    if body.fullName.None? {
      return PassToNext(TypeError);
    }
    ghost var before := db.users;
    var u := db.InsertUser(body.fullName.value.firstName, body.fullName.value.lastName, body.email, hashed);
    assert forall i :: 0 <= i < |before| ==> before[i].email != body.email;
    assert forall i :: 0 <= i < |before| ==> db.users[i] == before[i];
    reply := Send(201, Session(o.sign(AuthClaims(u.id, now)), u), KeepCookie);
  }

  /** The one 401 login sends, whichever check failed. */
  const LoginRefused: Reply<User> := Send(401, Failure(InvalidCredentials), KeepCookie)

  /**
    `loginUser`. Validation errors give 400. The rider is looked up by email
    with its password selected; an unknown email and a wrong password both
    give the same 401. Success is 200 with a fresh token in the body and the
    same token set as the `token` cookie.
   */
  function LoginUser(db: Database, email: string, password: string, errors: seq<string>, o: Oracles, now: int)
    : (reply: Reply<User>)
    reads db
    ensures errors != [] ==> reply == Send(400, ValidationErrors(errors), KeepCookie)
    ensures errors == [] && UserByEmail(db.users, email).None? ==> reply == LoginRefused
    ensures errors == [] && UserByEmail(db.users, email).Some? ==>
      (!o.compare(password, UserByEmail(db.users, email).value.password) ==> reply == LoginRefused)
    ensures errors == [] && UserByEmail(db.users, email).Some?
            && o.compare(password, UserByEmail(db.users, email).value.password) ==>
      reply.Send? && reply.status == 200 && reply.body.Session? && reply.body.record == UserByEmail(db.users, email).value
    ensures reply.Send?
    ensures reply.status == 401 ==> reply == LoginRefused
    ensures reply.status == 200 ==>
      && errors == [] && reply.body.Session?
      && reply.cookie == SetCookie(reply.body.token)
      && reply.body.record in db.users
      && reply.body.record.email == email
      && o.compare(password, reply.body.record.password)
      && reply.body.token == o.sign(AuthClaims(reply.body.record.id, now))
  {
    if errors != [] then Send(400, ValidationErrors(errors), KeepCookie)
    else match UserByEmail(db.users, email)
      case None => LoginRefused
      case Some(u) =>
        if !o.compare(password, u.password) then LoginRefused
        else
          var token := o.sign(AuthClaims(u.id, now));
          Send(200, Session(token, u), SetCookie(token))
  }

  /**
    An unknown email and a wrong password are indistinguishable: both give
    exactly the same response.
   */
  lemma LoginFailuresIdentical(
    db: Database, unknown: string, p1: string, known: string, p2: string, o: Oracles, now: int)
    requires UserByEmail(db.users, unknown).None?
    requires UserByEmail(db.users, known).Some?
    requires !o.compare(p2, UserByEmail(db.users, known).value.password)
    ensures LoginUser(db, unknown, p1, [], o, now) == LoginUser(db, known, p2, [], o, now)
    ensures LoginUser(db, unknown, p1, [], o, now) == Send(401, Failure(InvalidCredentials), KeepCookie)
  {
  }

  /** `getUserProfile`: 200 with exactly the record the gate attached; no store is read. */
  function GetUserProfile(req: Request): (reply: Reply<User>)
    reads req
    ensures reply.Send? && reply.status == 200 && reply.cookie == KeepCookie
    ensures reply.body == Profile(req.user)
  {
    Send(200, Profile(req.user), KeepCookie)
  }

  /**
    `logoutUser`: with no token 400 "Token not found" and the denylist is
    unchanged; otherwise the cookie is cleared and the raw token, never
    verified, is appended to the denylist, and the reply is 200.
   */
  method LogoutUser(db: Database, req: Request) returns (reply: Reply<User>)
    modifies db`denylist
    ensures match ExtractToken(req.cookieToken, req.authorization)
      case None =>
        reply == Send(400, Failure(TokenNotFound), KeepCookie) && db.denylist == old(db.denylist)
      case Some(t) =>
        reply == Send(200, Done(LoggedOut), ClearCookie) && db.denylist == old(db.denylist) + [t]
  {
    var token := ExtractToken(req.cookieToken, req.authorization);
    if token.None? {
      return Send(400, Failure(TokenNotFound), KeepCookie);
    }
    db.Deny(token.value);
    reply := Send(200, Done(LoggedOut), ClearCookie);
  }
}
