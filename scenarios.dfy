/**
  Whole sessions run against a fresh database, with bcrypt and JWT assumed
  to behave as `Sound` describes: what a client observes step by step.
 */
module Scenarios {
  import opened Common
  import opened Oracles
  import opened CaptainModel
  import opened Store
  import opened TokenExtraction
  import opened Http
  import opened AuthMiddleware
  import opened CaptainService
  import UserController
  import CaptainController

  /**
    A rider registers and gets 201; logs in with the same credentials and
    gets 200 with the token also set as cookie; the profile behind the gate
    echoes the rider; logout gives 200; the same token, now sent as a Bearer
    header, is refused by the gate with 401.
   */
  method RiderSession(o: Oracles, salt: nat, now: int, firstName: string, email: string, password: string)
    returns (registered: Reply<User>, loggedIn: Reply<User>, profile: Reply<User>,
             loggedOut: Reply<User>, afterLogout: GateReply)
    requires Sound(o)
    ensures registered.Send? && registered.status == 201
    ensures loggedIn.Send? && loggedIn.status == 200 && loggedIn.body.Session?
    ensures loggedIn.cookie == SetCookie(loggedIn.body.token)
    ensures profile.Send? && profile.status == 200
    ensures profile.body.Profile? && profile.body.attached.Some? && profile.body.attached.value.email == email
    ensures loggedOut == Send(200, Done(UserController.LoggedOut), ClearCookie)
    ensures afterLogout == Respond(Unauthorized, DeniedMessage)
  {
    var db, u;
    db, registered, u := RegisterRider(o, salt, now, firstName, email, password);
    loggedIn := UserController.LoginUser(db, email, password, [], o, now);
    var token := loggedIn.body.token;
    assert token == o.sign(AuthClaims(u.id, now));

    var req := new Request(Some(token), None);
    db.UserByIdFinds(0);
    assert UserDecision(Some(token), db.users, db.denylist, o.verify) == Accept(u);
    var gate := AuthMiddleware.AuthUser(req, db, o);
    profile := UserController.GetUserProfile(req);

    loggedOut := UserController.LogoutUser(db, req);

    var header := BearerPrefix + token;
    BearerRoundTrip(token);
    DeniedTokenRejected(token, None, Some(header), db.users, db.captains, db.denylist, o.verify);
    var later := new Request(None, Some(header));
    afterLogout := AuthMiddleware.AuthUser(later, db, o);
  }

  /** The registration step of `RiderSession`: one rider, found by its email. */
  method RegisterRider(o: Oracles, salt: nat, now: int, firstName: string, email: string, password: string)
    returns (db: Database, registered: Reply<User>, u: User)
    ensures fresh(db) && db.Valid() && db.users == [u] && db.denylist == []
    ensures u == User(0, Some(firstName), None, email, o.hash(password, salt))
    ensures UserByEmail(db.users, email) == Some(u)
    ensures registered.Send? && registered.status == 201
  {
    db := new Database();
    var body := UserController.Registration(Some(NameData(Some(firstName), None)), email, password);
    assert UserByEmail(db.users, email).None? && db.nextId == 0;
    registered := UserController.RegisterUser(db, body, [], o, salt, now);
    u := User(0, Some(firstName), None, email, o.hash(password, salt));
    assert db.users == [] + [u];
    OnlyRiderFound(u);
  }

  /** In a collection holding one rider, `findOne` by its email finds it. */
  lemma OnlyRiderFound(u: User)
    ensures UserByEmail([u], u.email) == Some(u)
  {
  }

  /**
    What the captain schema and the service's guard ask of a registration:
    every field truthy, names and plate long enough, a well-formed email and
    a known vehicle type.
   */
  predicate Acceptable(fullName: FullName, email: string, vehicle: Vehicle)
  {
    && |fullName.firstName| >= FirstNameMinLength
    && fullName.lastName.Some? && |fullName.lastName.value| >= LastNameMinLength
    && EmailMatches(email)
    && vehicle.color != "" && |vehicle.plate| >= PlateMinLength
    && vehicle.capacity != 0 && vehicle.vehicleType in VehicleTypes
  }

  /** An acceptable registration with a long enough hash passes every schema validator. */
  lemma AcceptableIsValid(id: Id, fullName: FullName, email: string, hashed: string, vehicle: Vehicle)
    requires Acceptable(fullName, email, vehicle) && |hashed| >= PasswordMinLength
    ensures SchemaValid(Build(id, fullName, email, hashed, vehicle))
  {
    EmailMatchesLower(email);
  }

  /** The body of an acceptable registration, with a requested status the handler ignores. */
  function Body(fullName: FullName, email: string, password: string, vehicle: Vehicle): CaptainController.Registration
  {
    CaptainController.Registration(
      Some(NameData(Some(fullName.firstName), fullName.lastName)), email, password,
      Some(VehicleData(Some(vehicle.color), Some(vehicle.plate), Some(vehicle.capacity), Some(vehicle.vehicleType))),
      Some("active"), None)
  }

  /** The service data of an acceptable registration passes the guard and creates a valid document. */
  lemma AcceptableData(id: Id, fullName: FullName, email: string, password: string, hashed: string, vehicle: Vehicle)
    requires Acceptable(fullName, email, vehicle) && |hashed| >= PasswordMinLength
    ensures var data := CaptainController.ServiceData(Body(fullName, email, password, vehicle), hashed);
      && data.Some? && AllFieldsPresent(data.value)
      && Document(data.value, id) == Build(id, fullName, email, hashed, vehicle)
      && SchemaValid(Document(data.value, id))
  {
    AcceptableIsValid(id, fullName, email, hashed, vehicle);
  }

  /**
    An acceptable captain registers, even when it asks for status "active":
    the reply is 201 and the one stored document is the one `Build` makes,
    with status "inactive" and the password hashed.
   */
  method RegisterNewCaptain(o: Oracles, salt: nat, now: int, fullName: FullName, email: string, password: string,
                               vehicle: Vehicle)
    returns (db: Database, registered: Reply<Captain>, c: Captain)
    requires Sound(o) && Acceptable(fullName, email, vehicle)
    ensures fresh(db) && db.Valid() && db.captains == [c] && db.denylist == []
    ensures c == Build(0, fullName, email, o.hash(password, salt), vehicle)
    ensures registered.Send? && registered.status == 201 && registered.body.Session?
    ensures registered.body.record == c && c.status == "inactive"
  {
    db := new Database();
    var body := Body(fullName, email, password, vehicle);
    var h := o.hash(password, salt);
    AcceptableData(0, fullName, email, password, h, vehicle);
    c := Build(0, fullName, email, h, vehicle);
    registered := CaptainController.RegisterCaptain(db, body, [], o, salt, now);
  }

  /**
    After that registration, a login with any other password gets the 401
    "Invalid email or password"; the right password gets 200, and the gate
    attaches the captain without its password.
   */
  method CaptainSession(o: Oracles, salt: nat, now: int, fullName: FullName, email: string, password: string,
                        vehicle: Vehicle, wrong: string)
    returns (registered: Reply<Captain>, refused: Reply<Captain>, loggedIn: Reply<Captain>, gate: GateReply,
             attached: Option<Captain>)
    requires Sound(o) && Acceptable(fullName, email, vehicle) && wrong != password
    ensures registered.Send? && registered.status == 201 && registered.body.Session?
    ensures registered.body.record.status == "inactive"
    ensures refused == Send(401, Failure("Invalid email or password"), KeepCookie)
    ensures loggedIn.Send? && loggedIn.status == 200
    ensures gate == Next && attached.Some? && attached.value.password.None?
    ensures attached.value.email == Lower(email)
  {
    var db, c;
    db, registered, c := RegisterNewCaptain(o, salt, now, fullName, email, password, vehicle);
    assert CaptainByEmail(db.captains, email) == Some(c);

    refused := CaptainController.LoginCaptain(db, email, wrong, [], o, now);
    loggedIn := CaptainController.LoginCaptain(db, email, password, [], o, now);

    var token := loggedIn.body.token;
    assert token == o.sign(AuthClaims(c.id, now));
    var req := new Request(Some(token), None);
    db.CaptainByIdFinds(0);
    assert CaptainDecision(Some(token), db.captains, db.denylist, o.verify) == Accept(Hidden(c));
    gate := AuthMiddleware.AuthCaptain(req, db, o);
    attached := req.captain;
  }
}
