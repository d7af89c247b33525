/**
  The captain handlers: register, login, profile and logout. Register and
  logout change the database; login and profile only read.

  The repository's `hashPassword` and `comparePassword` take no parameter
  and read an unbound `password`, so as written every captain register and
  login throws a ReferenceError into `next(error)` once it reaches bcrypt.
  Here both take the plaintext explicitly, as the handlers' calls evidently
  intend.
 */
module CaptainController {
  import opened Common
  import opened Oracles
  import opened CaptainModel
  import opened Store
  import opened TokenExtraction
  import opened Http
  import opened CaptainService

  const AlreadyExists: string := "Captain already exists"
  const InvalidCredentials: string := "Invalid email or password"
  const TokenNotFound: string := "Token not found"
  const LoggedOut: string := "Logged out successfully"
  /** What reading a field of an undefined `fullName` or `vehicle` throws. */
  const TypeError: string := "TypeError"

  /**
    The registration body. `status` and `socketId` stand for whatever else a
    client may send: the handler never reads them.
   */
  datatype Registration = Registration(
    fullName: Option<NameData>, email: string, password: string, vehicle: Option<VehicleData>,
    status: Option<string>, socketId: Option<string>)

  /**
    The object the handler passes to `createCaptain`: the name parts, email,
    hashed password and the four vehicle fields, nothing else. `None` when
    `fullName` or `vehicle` is undefined, where building it throws.
   */
  function ServiceData(body: Registration, hashed: string): (d: Option<CaptainData>)
    ensures d.Some? <==> body.fullName.Some? && body.vehicle.Some?
    ensures d.Some? ==> d.value.email == Some(body.email) && d.value.password == Some(hashed)
    ensures d.Some? ==> d.value.fullName == body.fullName && d.value.vehicle == body.vehicle
  {
    if body.fullName.None? || body.vehicle.None? then None
    else
      var n := body.fullName.value;
      var v := body.vehicle.value;
      Some(CaptainData(
        Some(NameData(n.firstName, n.lastName)),
        Some(body.email),
        Some(hashed),
        Some(VehicleData(v.color, v.plate, v.capacity, v.vehicleType))))
  }

  /**
    `registerCaptain`. Validation errors give 400 with the list, a taken
    email 400 "Captain already exists"; both leave the store unchanged and
    issue no token. Otherwise the password is hashed and `createCaptain`
    runs; an error it throws goes to `next`, and success is 201 with a token
    for the one new captain.
   */
  method RegisterCaptain(db: Database, body: Registration, errors: seq<string>, o: Oracles, salt: nat, now: int)
    returns (reply: Reply<Captain>)
    requires db.Valid()
    modifies db`captains, db`nextId
    ensures db.Valid()
    ensures errors != [] ==> reply == Send(400, ValidationErrors(errors), KeepCookie) && unchanged(db)
    ensures errors == [] && CaptainByEmail(old(db.captains), body.email).Some? ==>
      reply == Send(400, Failure(AlreadyExists), KeepCookie) && unchanged(db)
    ensures reply.PassToNext? || (reply.Send? && reply.status == 400) ==> unchanged(db)
    ensures reply.PassToNext? ==> reply.error != "E11000 duplicate key error"
    ensures errors == [] && CaptainByEmail(old(db.captains), body.email).None? ==>
      var data := ServiceData(body, o.hash(body.password, salt));
      && (data.None? ==> reply == PassToNext(TypeError))
      && (data.Some? && !AllFieldsPresent(data.value) ==> reply == PassToNext(AllFieldsRequired))
      && (data.Some? && AllFieldsPresent(data.value) ==>
            var c := Document(data.value, old(db.nextId));
            if SchemaValid(c) then
              reply == Send(201, Session(o.sign(AuthClaims(c.id, now)), c), KeepCookie)
              && db.captains == old(db.captains) + [c]
            else
              reply == PassToNext("ValidationError"))
    ensures reply.Send? ==> reply.status in {201, 400} && reply.cookie == KeepCookie
    ensures reply.Send? && reply.status == 201 ==>
      && errors == [] && body.fullName.Some? && body.vehicle.Some?
      && AllFieldsPresent(ServiceData(body, o.hash(body.password, salt)).value)
      && reply.body.Session?
      && var c := reply.body.record;
      && db.captains == old(db.captains) + [c]
      && reply.body.token == o.sign(AuthClaims(c.id, now))
      && c.id == old(db.nextId)
      && c.email == Lower(body.email)
      && c.password == Some(o.hash(body.password, salt))
      && c.fullName == FullName(body.fullName.value.firstName.value, body.fullName.value.lastName)
      && c.vehicle == Vehicle(body.vehicle.value.color.value, body.vehicle.value.plate.value,
                              body.vehicle.value.capacity.value, body.vehicle.value.vehicleType.value)
      && c.status == DefaultStatus && c.socketId.None?
  {
    if errors != [] {
      return Send(400, ValidationErrors(errors), KeepCookie);
    }
    if CaptainByEmail(db.captains, body.email).Some? {
      return Send(400, Failure(AlreadyExists), KeepCookie);
    }
    var hashed := o.hash(body.password, salt);
    var data := ServiceData(body, hashed);
    if data.None? {
      return PassToNext(TypeError);
    }
    var created := CreateCaptain(db, data.value);
    match created
    case Err(e) =>
      reply := PassToNext(e);
    case Ok(c) =>
      reply := Send(201, Session(o.sign(AuthClaims(c.id, now)), c), KeepCookie);
  }

  /** The one 401 login sends, whichever check failed. */
  const LoginRefused: Reply<Captain> := Send(401, Failure(InvalidCredentials), KeepCookie)

  /**
    `loginCaptain`. Validation errors give 400. The captain is looked up by
    email with its password selected; an unknown email and a wrong password
    both give the same 401. Success is 200 with a fresh token in the body
    and the same token set as the `token` cookie.
   */
  function LoginCaptain(db: Database, email: string, password: string, errors: seq<string>, o: Oracles, now: int)
    : (reply: Reply<Captain>)
    reads db
    ensures errors != [] ==> reply == Send(400, ValidationErrors(errors), KeepCookie)
    ensures errors == [] && CaptainByEmail(db.captains, email).None? ==> reply == LoginRefused
    ensures errors == [] && CaptainByEmail(db.captains, email).Some? ==>
      var c := CaptainByEmail(db.captains, email).value;
      c.password.Some? && !o.compare(password, c.password.value) ==> reply == LoginRefused
    ensures errors == [] && CaptainByEmail(db.captains, email).Some? ==>
      var c := CaptainByEmail(db.captains, email).value;
      c.password.Some? && o.compare(password, c.password.value) ==>
        reply.Send? && reply.status == 200 && reply.body.Session? && reply.body.record == c
    ensures reply.Send? && reply.status == 401 ==> reply == LoginRefused
    ensures reply.Send? && reply.status == 200 ==>
      && errors == [] && reply.body.Session?
      && reply.cookie == SetCookie(reply.body.token)
      && reply.body.record in db.captains
      && reply.body.record.email == Lower(email)
      && reply.body.record.password.Some?
      && o.compare(password, reply.body.record.password.value)
      && reply.body.token == o.sign(AuthClaims(reply.body.record.id, now))
  {
    if errors != [] then Send(400, ValidationErrors(errors), KeepCookie)
    else match CaptainByEmail(db.captains, email)
      case None => LoginRefused
      case Some(c) =>
        // bcrypt.compare throws when the stored hash is missing
        if c.password.None? then PassToNext("data and hash arguments required")
        else if !o.compare(password, c.password.value) then LoginRefused
        else
          var token := o.sign(AuthClaims(c.id, now));
          Send(200, Session(token, c), SetCookie(token))
  }

  /**
    An unknown email and a wrong password are indistinguishable: both give
    exactly the same response.
   */
  lemma LoginFailuresIdentical(
    db: Database, unknown: string, p1: string, known: string, p2: string,
    errors: seq<string>, o: Oracles, now: int)
    requires db.Valid() && errors == []
    requires CaptainByEmail(db.captains, unknown).None?
    requires CaptainByEmail(db.captains, known).Some?
    requires !o.compare(p2, CaptainByEmail(db.captains, known).value.password.value)
    ensures LoginCaptain(db, unknown, p1, errors, o, now) == LoginCaptain(db, known, p2, errors, o, now)
    ensures LoginCaptain(db, unknown, p1, errors, o, now) == Send(401, Failure(InvalidCredentials), KeepCookie)
  {
    var c := CaptainByEmail(db.captains, known).value;
    var i :| 0 <= i < |db.captains| && db.captains[i] == c;
    assert SchemaValid(db.captains[i]);
  }

  /** `getCaptainProfile`: 200 with exactly the record the gate attached; no store is read. */
  function GetCaptainProfile(req: Request): (reply: Reply<Captain>)
    reads req
    ensures reply.Send? && reply.status == 200 && reply.cookie == KeepCookie
    ensures reply.body == Profile(req.captain)
  {
    Send(200, Profile(req.captain), KeepCookie)
  }

  /**
    `logoutCaptain`: with no token (same cookie-first extraction as the
    gate) 400 "Token not found" and the denylist is unchanged; otherwise the
    cookie is cleared and the raw token, never verified, is appended to the
    denylist, and the reply is 200.
   */
  method LogoutCaptain(db: Database, req: Request) returns (reply: Reply<Captain>)
    modifies db`denylist
    ensures match ExtractToken(req.cookieToken, req.authorization)
      case None =>
        reply == Send(400, Failure(TokenNotFound), KeepCookie) && db.denylist == old(db.denylist)
      case Some(t) =>
        reply == Send(200, Done(LoggedOut), ClearCookie) && db.denylist == old(db.denylist) + [t]
  {
    var token := ExtractToken(req.cookieToken, req.authorization);
    if token.None? {
      return Send(400, Failure(TokenNotFound), KeepCookie);
    }
    db.Deny(token.value);
    reply := Send(200, Done(LoggedOut), ClearCookie);
  }
}
