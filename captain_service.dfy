/**
  `createCaptain`: refuse the call unless all ten fields are truthy, then
  create the captain document from exactly those fields.
 */
module CaptainService {
  import opened Common
  import opened CaptainModel
  import opened Store

  /** `vehicle` as the service receives it. */
  datatype VehicleData = VehicleData(color: Option<string>, plate: Option<string>, capacity: Option<int>, vehicleType: Option<string>)

  /** The service's argument `{ fullName, email, password, vehicle }`. */
  datatype CaptainData = CaptainData(fullName: Option<NameData>, email: Option<string>, password: Option<string>, vehicle: Option<VehicleData>)

  const AllFieldsRequired: string := "All fields are required"

  /** JavaScript truthiness of an optional number: present and not 0. */
  predicate TruthyNumber(n: Option<int>)
  {
    n.Some? && n.value != 0
  }

  /** One operand's name if it is falsy, nothing otherwise. */
  function IfFalsy(truthy: bool, name: string): seq<string>
  {
    if truthy then [] else [name]
  }

  /** The falsy operands among `fullName`, `fullName.firstName`, `fullName.lastName`. */
  function FalsyName(n: Option<NameData>): seq<string>
  {
    if n.None? then ["fullName"]
    else IfFalsy(Truthy(n.value.firstName), "fullName.firstName") + IfFalsy(Truthy(n.value.lastName), "fullName.lastName")
  }

  /** The falsy operands among `vehicle` and its four fields. */
  function FalsyVehicle(v: Option<VehicleData>): seq<string>
  {
    if v.None? then ["vehicle"]
    else
      var w := v.value;
      IfFalsy(Truthy(w.color), "vehicle.color") + IfFalsy(Truthy(w.plate), "vehicle.plate")
      + IfFalsy(TruthyNumber(w.capacity), "vehicle.capacity") + IfFalsy(Truthy(w.vehicleType), "vehicle.vehicleType")
  }

  /**
    The operands of the service's `||` guard that are falsy, in the order it
    evaluates them; a missing `fullName` or `vehicle` stops the evaluation of
    its parts.
   */
  function FalsyFields(d: CaptainData): (names: seq<string>)
    ensures |names| <= 10
  {
    FalsyName(d.fullName) + IfFalsy(Truthy(d.email), "email") + IfFalsy(Truthy(d.password), "password")
      + FalsyVehicle(d.vehicle)
  }

  /**
    The negation of the service's guard: every one of the ten values is
    truthy, that is, no operand of the guard is falsy.
   */
  predicate AllFieldsPresent(d: CaptainData)
    ensures AllFieldsPresent(d) <==> FalsyFields(d) == []
  {
    && d.fullName.Some?
    && Truthy(d.fullName.value.firstName)
    && Truthy(d.fullName.value.lastName)
    && Truthy(d.email)
    && Truthy(d.password)
    && d.vehicle.Some?
    && Truthy(d.vehicle.value.color)
    && Truthy(d.vehicle.value.plate)
    && TruthyNumber(d.vehicle.value.capacity)
    && Truthy(d.vehicle.value.vehicleType)
  }

  /**
    An empty string in any string field, or a capacity of 0, counts as
    missing; any other capacity, negative ones included, passes the guard.
   */
  lemma FalsyCountsAsMissing(d: CaptainData)
    requires AllFieldsPresent(d)
    ensures !AllFieldsPresent(d.(email := Some("")))
    ensures !AllFieldsPresent(d.(password := Some("")))
    ensures !AllFieldsPresent(d.(fullName := Some(d.fullName.value.(lastName := Some("")))))
    ensures !AllFieldsPresent(d.(vehicle := Some(d.vehicle.value.(capacity := Some(0)))))
    ensures forall n: int :: n != 0 ==> AllFieldsPresent(d.(vehicle := Some(d.vehicle.value.(capacity := Some(n)))))
  {
  }

  /** A sample address the email validator accepts. */
  lemma SampleEmailMatches()
    ensures EmailMatches("ravi@x.com")
  {
    var e := "ravi@x.com";
    assert RegexSplit(e, 4, 6);
    EmailMatchesRegex(e);
  }

  /** The sample address is already lower-case. */
  lemma SampleEmailLower()
    ensures Lower("ravi@x.com") == "ravi@x.com"
  {
    var e := "ravi@x.com";
    forall i | 0 <= i < |e| ensures Lower(e)[i] == e[i] {
      assert !IsUpper(e[i]);
    }
  }

  /** The sample captain "Ravi" with vehicle (red, AB12, 4, car) passes every schema validator. */
  lemma SampleDocumentValid(id: Id, lastName: Option<string>, password: string)
    requires lastName == None || lastName == Some("Kumar")
    requires |password| >= PasswordMinLength
    ensures SchemaValid(Build(id, FullName("Ravi", lastName), "ravi@x.com", password, Vehicle("red", "AB12", 4, "car")))
  {
    SampleEmailMatches();
    SampleEmailLower();
    var c := Build(id, FullName("Ravi", lastName), "ravi@x.com", password, Vehicle("red", "AB12", 4, "car"));
    assert c.email == "ravi@x.com";
    assert c.status in Statuses && c.vehicle.vehicleType in VehicleTypes;
  }

  /**
    The service demands a last name although the schema does not: a captain
    without one would satisfy every schema validator, yet the guard refuses it.
   */
  lemma LastNameRequiredOnlyHere()
    ensures var d := CaptainData(Some(NameData(Some("Ravi"), None)), Some("ravi@x.com"), Some("secret1"),
                                 Some(VehicleData(Some("red"), Some("AB12"), Some(4), Some("car"))));
            && !AllFieldsPresent(d)
            && SchemaValid(Build(0, FullName("Ravi", None), "ravi@x.com", "secret1", Vehicle("red", "AB12", 4, "car")))
  {
    SampleDocumentValid(0, None, "secret1");
  }

  /** The document `captainModel.create` builds from the service's ten fields. */
  function Document(data: CaptainData, id: Id): (c: Captain)
    requires AllFieldsPresent(data)
    ensures c.fullName.firstName == data.fullName.value.firstName.value
    ensures c.fullName.lastName == data.fullName.value.lastName
    ensures c.email == Lower(data.email.value) && c.password == data.password
    ensures c.vehicle.color == data.vehicle.value.color.value && c.vehicle.plate == data.vehicle.value.plate.value
    ensures Some(c.vehicle.capacity) == data.vehicle.value.capacity
    ensures c.vehicle.vehicleType == data.vehicle.value.vehicleType.value
    ensures c.status == DefaultStatus && c.socketId.None? && c.id == id
  {
    var name := data.fullName.value;
    var v := data.vehicle.value;
    Build(id, FullName(name.firstName.value, name.lastName), data.email.value, data.password.value,
          Vehicle(v.color.value, v.plate.value, v.capacity.value, v.vehicleType.value))
  }

  /**
    `createCaptain(data)`: throws "All fields are required" and creates
    nothing unless every field is truthy; otherwise hands `captainModel.create`
    the ten fields unchanged (the password as given: no hashing happens here)
    and returns the one document it creates, or the error it throws.
   */
  method CreateCaptain(db: Database, data: CaptainData) returns (r: Result<Captain>)
    requires db.Valid()
    modifies db`captains, db`nextId
    ensures db.Valid()
    ensures !AllFieldsPresent(data) ==> r == Err(AllFieldsRequired) && unchanged(db)
    ensures r.Err? ==> unchanged(db)
    ensures AllFieldsPresent(data) ==>
      var c := Document(data, old(db.nextId));
      && (r.Ok? <==> SchemaValid(c) && CaptainByEmail(old(db.captains), data.email.value).None?)
      && (r.Ok? ==> r == Ok(c) && db.captains == old(db.captains) + [c])
      && (!SchemaValid(c) ==> r == Err("ValidationError"))
  {
    if !AllFieldsPresent(data) {
      return Err(AllFieldsRequired);
    }
    var name := data.fullName.value;
    var v := data.vehicle.value;
    r := db.InsertCaptain(
      FullName(name.firstName.value, name.lastName),
      data.email.value,
      data.password.value,
      Vehicle(v.color.value, v.plate.value, v.capacity.value, v.vehicleType.value));
  }
}
