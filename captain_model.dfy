/**
  The captain schema: the shape of a stored captain document, the setters and
  defaults applied when a document is built (lower-cased email, `status`
  defaulting to "inactive"), and the validators run before it is saved.
 */
module CaptainModel {
  import opened Common

  datatype FullName = FullName(firstName: string, lastName: Option<string>)

  datatype Vehicle = Vehicle(color: string, plate: string, capacity: int, vehicleType: string)

  /**
    A captain document. `password` is `None` in a read that did not select
    it (`select: false`); `location` is not modelled.
   */
  datatype Captain = Captain(
    id: Id,
    fullName: FullName,
    email: string,
    password: Option<string>,
    socketId: Option<string>,
    status: string,
    vehicle: Vehicle)

  const Statuses: set<string> := {"active", "inactive"}
  const DefaultStatus: string := "inactive"
  const VehicleTypes: set<string> := {"car", "motorcycle", "auto"}

  const FirstNameMinLength: nat := 3
  const LastNameMinLength: nat := 3
  const PasswordMinLength: nat := 6
  const PlateMinLength: nat := 4

  // ---------------------------------------------------------------- lowercase

  predicate IsUpper(c: char)
  {
    'A' <= c <= 'Z'
  }

  function LowerChar(c: char): char
  {
    if IsUpper(c) then (c as int + 32) as char else c
  }

  /** The `lowercase: true` setter, on ASCII letters. */
  function Lower(s: string): (r: string)
    ensures |r| == |s|
    ensures forall i :: 0 <= i < |s| ==> !IsUpper(r[i])
    ensures forall i :: 0 <= i < |s| && !IsUpper(s[i]) ==> r[i] == s[i]
    ensures forall i :: 0 <= i < |s| && IsUpper(s[i]) ==> r[i] as int == s[i] as int + ('a' as int - 'A' as int)
  {
    seq(|s|, i requires 0 <= i < |s| => LowerChar(s[i]))
  }

  /** `a` and `b` are the same character up to ASCII case. */
  predicate SameIgnoringCase(a: char, b: char)
  {
    || a == b
    || (IsUpper(a) && b as int == a as int + ('a' as int - 'A' as int))
    || (IsUpper(b) && a as int == b as int + ('a' as int - 'A' as int))
  }

  /**
    Two strings lower-case to the same string exactly when they differ only
    in ASCII case, so an email stored lower-cased is found whatever the case
    of the query.
   */
  lemma LowerCaseInsensitive(s: string, t: string)
    ensures Lower(s) == Lower(t) <==> |s| == |t| && forall i :: 0 <= i < |s| ==> SameIgnoringCase(s[i], t[i])
  {
    if Lower(s) == Lower(t) {
      forall i | 0 <= i < |s|
        ensures SameIgnoringCase(s[i], t[i])
      {
        assert Lower(s)[i] == Lower(t)[i];
      }
    }
    if |s| == |t| && forall i :: 0 <= i < |s| ==> SameIgnoringCase(s[i], t[i]) {
      forall i | 0 <= i < |s|
        ensures Lower(s)[i] == Lower(t)[i]
      {
        assert SameIgnoringCase(s[i], t[i]);
      }
    }
  }

  /** Lower-casing twice is lower-casing once, so a stored email is a fixed point. */
  lemma LowerIdempotent(s: string)
    ensures Lower(Lower(s)) == Lower(s)
  {
  }

  // ---------------------------------------------------------------- email

  /** JavaScript's `\s` class. */
  predicate IsSpace(c: char)
  {
    || c in {' ', '\t', '\n', '\U{B}', '\U{C}', '\r', '\U{A0}', '\U{1680}', '\U{2028}', '\U{2029}',
             '\U{202F}', '\U{205F}', '\U{3000}', '\U{FEFF}'}
    || '\U{2000}' <= c <= '\U{200A}'
  }

  /** A character of the class `[^\s@]`. */
  predicate PartChar(c: char)
  {
    !IsSpace(c) && c != '@'
  }

  predicate NoSpace(s: string)
  {
    forall i :: 0 <= i < |s| ==> !IsSpace(s[i])
  }

  function AtCount(s: string): nat
  {
    if s == [] then 0 else (if s[0] == '@' then 1 else 0) + AtCount(s[1..])
  }

  /** The first index of `c` in `s`, or `|s|` when there is none. */
  function IndexOf(s: string, c: char): (r: nat)
    ensures r <= |s|
    ensures r < |s| ==> s[r] == c
    ensures forall j :: 0 <= j < r ==> s[j] != c
  {
    if s == [] then 0
    else if s[0] == c then 0
    else 1 + IndexOf(s[1..], c)
  }

  /** A '.' that is neither the first nor the last character. */
  predicate HasInnerDot(d: string)
  {
    exists k :: 0 < k < |d| - 1 && d[k] == '.'
  }

  /**
    Whether the `match` validator `/^[^\s@]+@[^\s@]+\.[^\s@]+$/` accepts `s`:
    no whitespace, exactly one '@', a non-empty local part, and a domain
    with a '.' that is neither its first nor its last character.
   */
  predicate EmailMatches(s: string)
  {
    && NoSpace(s)
    && AtCount(s) == 1
    && 0 < IndexOf(s, '@') < |s|
    && HasInnerDot(s[IndexOf(s, '@') + 1..])
  }

  /**
    The regular expression read structurally: `s` is L "@" A "." B with the
    '@' at `p`, the '.' at `q` and L, A, B non-empty runs of `[^\s@]`.
   */
  predicate RegexSplit(s: string, p: int, q: int)
  {
    && 0 < p && p + 1 < q < |s| - 1
    && s[p] == '@' && s[q] == '.'
    && forall i :: 0 <= i < |s| && i != p ==> PartChar(s[i])
  }

  lemma {:induction false} AtCountAppend(a: string, b: string)
    ensures AtCount(a + b) == AtCount(a) + AtCount(b)
  {
    if a == [] {
      assert a + b == b;
    } else {
      assert (a + b)[1..] == a[1..] + b;
      AtCountAppend(a[1..], b);
    }
  }

  lemma {:induction false} AtCountNone(s: string)
    ensures AtCount(s) == 0 <==> forall i :: 0 <= i < |s| ==> s[i] != '@'
  {
    if s != [] {
      AtCountNone(s[1..]);
      assert forall i :: 1 <= i < |s| ==> s[i] == s[1..][i - 1];
    }
  }

  /** `s` split around position `p`. */
  lemma AtCountAround(s: string, p: nat)
    requires p < |s|
    ensures AtCount(s) == AtCount(s[..p]) + (if s[p] == '@' then 1 else 0) + AtCount(s[p + 1..])
  {
    assert s == s[..p] + ([s[p]] + s[p + 1..]);
    AtCountAppend(s[..p], [s[p]] + s[p + 1..]);
    assert ([s[p]] + s[p + 1..])[1..] == s[p + 1..];
  }

  /** The executable check and the regular expression accept the same strings. */
  lemma EmailMatchesRegex(s: string)
    ensures EmailMatches(s) <==> exists p, q :: RegexSplit(s, p, q)
  {
    if EmailMatches(s) {
      var p := IndexOf(s, '@');
      var d := s[p + 1..];
      var k :| 0 < k < |d| - 1 && d[k] == '.';
      AtCountAround(s, p);
      AtCountNone(s[p + 1..]);
      forall i | 0 <= i < |s| && i != p
        ensures PartChar(s[i])
      {
        if i > p {
          assert s[i] == s[p + 1..][i - p - 1];
        }
      }
      assert RegexSplit(s, p, p + 1 + k);
    }
    if exists p, q :: RegexSplit(s, p, q) {
      var p, q :| RegexSplit(s, p, q);
      AtCountAround(s, p);
      AtCountNone(s[..p]);
      AtCountNone(s[p + 1..]);
      assert IndexOf(s, '@') == p;
      var d := s[p + 1..];
      assert 0 < q - p - 1 < |d| - 1 && d[q - p - 1] == '.';
    }
  }

  /** `[^\s@]` ignores case, so lower-casing never changes whether an email matches. */
  lemma EmailMatchesLower(s: string)
    ensures EmailMatches(Lower(s)) <==> EmailMatches(s)
  {
    var l := Lower(s);
    EmailMatchesRegex(s);
    EmailMatchesRegex(l);
    forall i | 0 <= i < |s|
      ensures PartChar(l[i]) <==> PartChar(s[i])
      ensures l[i] == '@' <==> s[i] == '@'
      ensures l[i] == '.' <==> s[i] == '.'
    {
    }
    if exists p, q :: RegexSplit(s, p, q) {
      var p, q :| RegexSplit(s, p, q);
      assert RegexSplit(l, p, q);
    }
    if exists p, q :: RegexSplit(l, p, q) {
      var p, q :| RegexSplit(l, p, q);
      assert RegexSplit(s, p, q);
    }
  }

  // ---------------------------------------------------------------- validation

  datatype FieldError = FieldError(path: string, message: string)

  /** Mongoose's default message for a failed `required` validator. */
  function RequiredMessage(path: string): string
  {
    "Path `" + path + "` is required."
  }

  /** Mongoose's default message for a failed `enum` validator. */
  function EnumMessage(path: string, value: string): string
  {
    "`" + value + "` is not a valid enum value for path `" + path + "`."
  }

  /** The error a path contributes, if any: mongoose reports one error per path. */
  function ErrorAt(path: string, failure: Option<string>): (errs: seq<FieldError>)
    ensures errs == [] <==> failure.None?
  {
    if failure.Some? then [FieldError(path, failure.value)] else []
  }

  /**
    A required string path: empty fails `required` (mongoose's string
    `checkRequired` demands a non-zero length), then `minlength`.
   */
  function RequiredString(path: string, v: string, minLength: nat, tooShort: string): (e: Option<string>)
    requires minLength > 0
    ensures e.None? <==> |v| >= minLength
  {
    if v == "" then Some(RequiredMessage(path))
    else if |v| < minLength then Some(tooShort)
    else None
  }

  /**
    The schema's validity predicate on a built document: what a save
    requires of every field it constrains.
   */
  predicate SchemaValid(c: Captain)
  {
    && |c.fullName.firstName| >= FirstNameMinLength
    && (c.fullName.lastName.Some? ==> |c.fullName.lastName.value| >= LastNameMinLength)
    && EmailMatches(c.email)
    && c.password.Some? && |c.password.value| >= PasswordMinLength
    && c.status in Statuses
    && c.vehicle.color != ""
    && |c.vehicle.plate| >= PlateMinLength
    && c.vehicle.vehicleType in VehicleTypes
  }

  function FirstNameError(c: Captain): (e: Option<string>)
    ensures e.None? <==> |c.fullName.firstName| >= FirstNameMinLength
  {
    RequiredString("fullName.firstName", c.fullName.firstName, FirstNameMinLength,
      "First name must be atleast three characters long")
  }

  function LastNameError(c: Captain): (e: Option<string>)
    ensures e.None? <==> (c.fullName.lastName.Some? ==> |c.fullName.lastName.value| >= LastNameMinLength)
  {
    if c.fullName.lastName.Some? && |c.fullName.lastName.value| < LastNameMinLength
    then Some("Last name must be atleast three characters long") else None
  }

  function EmailError(c: Captain): (e: Option<string>)
    ensures e.None? <==> EmailMatches(c.email)
  {
    if c.email == "" then Some(RequiredMessage("email"))
    else if !EmailMatches(c.email) then Some("Please fill a valid email address")
    else None
  }

  function PasswordError(c: Captain): (e: Option<string>)
    ensures e.None? <==> c.password.Some? && |c.password.value| >= PasswordMinLength
  {
    if c.password.None? then Some(RequiredMessage("password"))
    else RequiredString("password", c.password.value, PasswordMinLength,
      "Password must be atleast 6 characters long")
  }

  function StatusError(c: Captain): (e: Option<string>)
    ensures e.None? <==> c.status in Statuses
  {
    if c.status !in Statuses then Some(EnumMessage("status", c.status)) else None
  }

  function ColorError(c: Captain): (e: Option<string>)
    ensures e.None? <==> c.vehicle.color != ""
  {
    if c.vehicle.color == "" then Some(RequiredMessage("vehicle.color")) else None
  }

  function PlateError(c: Captain): (e: Option<string>)
    ensures e.None? <==> |c.vehicle.plate| >= PlateMinLength
  {
    RequiredString("vehicle.plate", c.vehicle.plate, PlateMinLength, "Plate must be 4 characters long")
  }

  function VehicleTypeError(c: Captain): (e: Option<string>)
    ensures e.None? <==> c.vehicle.vehicleType in VehicleTypes
  {
    if c.vehicle.vehicleType == "" then Some(RequiredMessage("vehicle.vehicleType"))
    else if c.vehicle.vehicleType !in VehicleTypes
    then Some(EnumMessage("vehicle.vehicleType", c.vehicle.vehicleType))
    else None
  }

  /**
    The errors of mongoose's `validate()` on a built document, one per
    failing path in schema order: the ValidationError a save throws, empty
    exactly when the document satisfies the schema.
   */
  function SchemaErrors(c: Captain): (errs: seq<FieldError>)
    ensures errs == [] <==> SchemaValid(c)
  {
    ErrorAt("fullName.firstName", FirstNameError(c))
    + ErrorAt("fullName.lastName", LastNameError(c))
    + ErrorAt("email", EmailError(c))
    + ErrorAt("password", PasswordError(c))
    + ErrorAt("status", StatusError(c))
    + ErrorAt("vehicle.color", ColorError(c))
    + ErrorAt("vehicle.plate", PlateError(c))
    + ErrorAt("vehicle.vehicleType", VehicleTypeError(c))
  }

  /**
    The document `captainModel.create` builds from its argument before
    validating it: the `lowercase` setter applied to the email, `status`
    left to its default and no `socketId`.
   */
  function Build(id: Id, fullName: FullName, email: string, password: string, vehicle: Vehicle): (c: Captain)
    ensures c.status == DefaultStatus && c.status in Statuses
    ensures c.socketId.None?
    ensures c.email == Lower(email) && Lower(c.email) == c.email
    ensures c.id == id && c.fullName == fullName && c.password == Some(password) && c.vehicle == vehicle
  {
    LowerIdempotent(email);
    Captain(id, fullName, Lower(email), Some(password), None, DefaultStatus, vehicle)
  }

  /** A read without `select("+password")`: every field but the password. */
  function Hidden(c: Captain): (r: Captain)
    ensures r.password.None?
    ensures r.(password := c.password) == c
  {
    c.(password := None)
  }
}
