# Rider and captain authentication of uber_backend, in Dafny

This project models the authentication core of an Express/Mongoose ride-hailing
backend:

- the `authUser` / `authCaptain` middleware that guards protected routes;
- the cookie-or-Bearer token extraction it shares with the logout handlers;
- the rider and captain handlers for register, login, profile and logout;
- the captain service `createCaptain`;
- the captain schema: field constraints, email regular expression, `lowercase`
  setter, `status` default and the JWT payload of `generateAuthToken`.

Module layout follows the repository:

| file | models |
|---|---|
| `common.dfy` | `Option`, `Result`, `Fetch` (a lookup that may throw), JavaScript truthiness of strings |
| `oracles.dfy` | bcrypt and jsonwebtoken as function-valued parameters; `Sound` states what the proofs assume of them |
| `token_extraction.dfy` | `split(" ")`, `startsWith("Bearer ")`, cookie-first extraction |
| `captain_model.dfy` | the captain document, the schema's validators and normalisations |
| `store.dfy` | the three collections as sequences in insertion order, `findOne`/`findById`/`create` |
| `http.dfy` | replies (status, JSON body, cookie change, or `next(error)`) and the request object |
| `auth_middleware.dfy` | the gate as a decision function, and the two middleware methods that write `req.user` / `req.captain` |
| `captain_service.dfy` | `createCaptain`'s truthiness guard and the document it creates |
| `user_controller.dfy`, `captain_controller.dfy` | the eight handlers |
| `scenarios.dfy` | whole sessions on a fresh database |

Things the model fixes in place of the real system:

- Hashing and token signing are oracles. `Sound(o)` idealises them:
  - `compare(p, hash(q, s))` holds exactly when `p == q`;
  - a hash has at least 60 characters (a bcrypt hash has exactly 60);
  - a signed token is non-empty and has no space;
  - `verify(sign(c)) == Some(c.id)`.

  Only the lemmas and scenarios that need these facts require `Sound`.
  `Oracles.WitnessSound` exhibits oracles that satisfy it, so those lemmas
  are not vacuous.
- MongoDB ObjectIds are a counter, `nextId`.
- `findOne` returns the first match in insertion order.
- A captain email query goes through the schema's `lowercase` setter, as
  Mongoose applies setters to query filters.
- A captain read by `findById` lacks its password (`select: false`).
  `findOne(...).select("+password")` and `create` return it.

The register and login responses include the document with its password
hash. The schema's `minlength: 6` on `password` is checked against the
stored bcrypt hash.

Captain hashing is defective in `models/captain.model.js:76-82`.
`hashPassword` and `comparePassword` take no parameter and read an unbound
`password`, so as written a captain register that passes validation and
finds its email free, and a captain login that passes validation and finds
a stored captain, throws a ReferenceError into `next(error)` once it
reaches bcrypt. The earlier 400 replies are unaffected. The model gives
both oracles the plaintext the handlers evidently mean to pass. The module
comment of `captain_controller.dfy` records this.

## Model

| member | source | states |
|---|---|---|
| Oracles.AuthClaims | models/captain.model.js:69-74 | the token payload carries the document's id only, issued now and expiring 24 hours (86400 s) later |
| Oracles.WitnessSound | models/captain.model.js:69-82 | some oracles satisfy `Sound`: the assumed bcrypt and JWT behaviour is consistent |
| TokenExtraction.Split | middlewares/auth.middleware.js:13 | `split(" ")` gives at least one field, no field contains a space, and joining the fields with single spaces gives back the input |
| TokenExtraction.SplitJoin | middlewares/auth.middleware.js:13 | splitting the join of space-free fields gives back exactly those fields, so the split is unique (inverse of `Split`) |
| TokenExtraction.BearerField | middlewares/auth.middleware.js:11-13 | a field exists exactly when the header starts with "Bearer "; it has no space and is a prefix of what follows "Bearer " |
| TokenExtraction.BearerFieldIs | middlewares/auth.middleware.js:11-13 | the header field is `t` if and only if the header is "Bearer " + `t` + a rest that is empty or starts with a space, `t` space-free |
| TokenExtraction.ExtractToken | middlewares/auth.middleware.js:9-15 | a truthy cookie wins whatever the header; with no cookie and no header there is no token; otherwise any token is the header's Bearer field, and a non-empty Bearer field is always returned; an empty result counts as no token |
| TokenExtraction.BearerRoundTrip | middlewares/auth.middleware.js:9-15 | a header "Bearer " + `t` for a non-empty, space-free `t` yields `t` |
| TokenExtraction.BearerStopsAtSpace | middlewares/auth.middleware.js:11-13 | "Bearer a b" yields "a" |
| TokenExtraction.BearerEmptyField | middlewares/auth.middleware.js:11-15 | "Bearer " and "Bearer  a" yield an empty field, which is no token |
| CaptainModel.Lower | models/captain.model.js:21 | the `lowercase` setter keeps the length, turns each upper-case letter into its lower-case letter and changes no other character |
| CaptainModel.LowerCaseInsensitive | models/captain.model.js:21 | two strings lower-case to the same string exactly when they differ only in ASCII case (both directions) |
| CaptainModel.LowerIdempotent | models/captain.model.js:21 | lower-casing a stored email again changes nothing |
| CaptainModel.EmailMatchesRegex | models/captain.model.js:22 | the whitespace-free, one-'@', non-empty-local-part, inner-dot check accepts exactly the strings `^[^\s@]+@[^\s@]+\.[^\s@]+$` matches (both directions) |
| CaptainModel.EmailMatchesLower | models/captain.model.js:21-22 | lower-casing never changes whether an email matches the regular expression |
| CaptainModel.ErrorAt | models/captain.model.js:5-58 | a path contributes an error exactly when its validator failed |
| CaptainModel.RequiredString | models/captain.model.js:7-11 | a required string with a minimum length passes exactly when it is at least that long; empty fails `required` |
| CaptainModel.FirstNameError | models/captain.model.js:7-11 | `firstName` passes exactly when it has at least 3 characters |
| CaptainModel.LastNameError | models/captain.model.js:12-15 | `lastName` passes when absent, and otherwise exactly when it has at least 3 characters |
| CaptainModel.EmailError | models/captain.model.js:17-23 | `email` passes exactly when it matches the regular expression |
| CaptainModel.PasswordError | models/captain.model.js:24-29 | `password` passes exactly when present with at least 6 characters |
| CaptainModel.StatusError | models/captain.model.js:33-37 | `status` passes exactly when it is "active" or "inactive" |
| CaptainModel.ColorError | models/captain.model.js:39-42 | `vehicle.color` passes exactly when non-empty |
| CaptainModel.PlateError | models/captain.model.js:43-47 | `vehicle.plate` passes exactly when it has at least 4 characters |
| CaptainModel.VehicleTypeError | models/captain.model.js:53-57 | `vehicle.vehicleType` passes exactly when it is "car", "motorcycle" or "auto" |
| CaptainModel.SchemaErrors | models/captain.model.js:5-58 | the validation error list is empty if and only if the document satisfies every schema constraint |
| CaptainModel.Build | models/captain.model.js:17-37 | a created document has status "inactive", no socketId, the lower-cased email (already a fixed point of lower-casing) and the other fields as given |
| CaptainModel.Hidden | models/captain.model.js:27 | a read without `+password` has no password and agrees with the document on every other field |
| Store.UserByEmail | controllers/user.controller.js:19 | `findOne({ email })` finds nothing exactly when no rider has that email; what it finds is a stored rider with that email |
| Store.UserById | middlewares/auth.middleware.js:31 | `findById` finds nothing exactly when no rider has that id; what it finds is a stored rider with that id |
| Store.CaptainByEmail | controllers/captain.controller.js:18 | `findOne({ email })` on captains compares with the lower-cased query: nothing exactly when no stored email equals it, otherwise a stored captain with that email |
| Store.FindFirst | controllers/user.controller.js:19 | `findOne` finds nothing exactly when no document matches; what it finds is in the collection and matches |
| Store.CaptainById | middlewares/auth.middleware.js:69 | `findById` finds nothing exactly when no captain has that id; a captain found by id has that id, is the hidden form of a stored document, and has no password |
| Store.FindUnique | middlewares/auth.middleware.js:31 | with distinct keys, a lookup by key returns the one document carrying it |
| Store.CaptainsOkAppend | models/captain.model.js:20 | appending a valid, lower-cased document with a fresh id and an unused email keeps the captain invariant (distinct ids, distinct emails, all valid) |
| Store.Database.UserByIdFinds | middlewares/auth.middleware.js:31 | in a valid store, `findById` on a stored rider's id returns that rider |
| Store.Database.CaptainByIdFinds | middlewares/auth.middleware.js:69 | in a valid store, `findById` on a stored captain's id returns that captain without its password |
| Store.Database.InsertUser | controllers/user.controller.js:29-34 | `create` appends exactly one rider, with the next id, and keeps the invariant |
| Store.Database.InsertCaptain | models/captain.model.js:17-37 | `create` builds the document. An invalid one is a ValidationError; a taken (case-insensitive) email is a duplicate-key error; both leave the store unchanged. Otherwise exactly that document is appended. The invariant is kept |
| Store.Database.Deny | controllers/user.controller.js:122 | the token is appended to the denylist |
| AuthMiddleware.Gate | middlewares/auth.middleware.js:6-42 | the gate accepts exactly when a token is present, the denylist query says it is not denied, it verifies and its id resolves; it then accepts with that record; every rejection is 401 |
| AuthMiddleware.UserDecision | middlewares/auth.middleware.js:6-42 | the rider gate accepts exactly when a token is present, not on the denylist, verifies, and its id is a stored rider; it attaches that rider; every rejection is 401 |
| AuthMiddleware.CaptainDecision | middlewares/auth.middleware.js:44-80 | the captain gate accepts exactly when a token is present, not on the denylist, verifies, and its id is a stored captain; it attaches that captain without its password; every rejection is 401 |
| AuthMiddleware.NoTokenFirst | middlewares/auth.middleware.js:15-19 | with no token the answer is 401 "Unauthorized: No token provided", whatever the denylist, verifier and store would say |
| AuthMiddleware.DenylistBeforeVerify | middlewares/auth.middleware.js:21-28 | a denied token gets 401 "Unauthorized" and the answer does not depend on the verifier or the store |
| AuthMiddleware.InvalidTokenCases | middlewares/auth.middleware.js:28-41 | a failed verification or a thrown denylist or store lookup gives 401 "Unauthorized: Invalid token" |
| AuthMiddleware.GatesDifferOnlyInStore | middlewares/auth.middleware.js:6-80 | the two gates reject for the same non-"not found" reason with the same status and message; each says "not found" exactly when its own store lacks the verified id |
| AuthMiddleware.DeniedTokenRejected | controllers/user.controller.js:121-127 | once a token is denied, both gates reject every request carrying it, in the cookie or the header, with 401 "Unauthorized" |
| AuthMiddleware.AuthUser | middlewares/auth.middleware.js:6-42 | on acceptance `req.user` is the record and `next` is called once; on rejection the 401 is sent, `req.user` is unchanged and `next` is not called |
| AuthMiddleware.AuthCaptain | middlewares/auth.middleware.js:44-80 | as `AuthUser` over captains, and the attached captain has no password |
| CaptainService.AllFieldsPresent | services/captain.service.js:6-19 | the guard passes exactly when none of its ten operands is falsy, listed in the order the `||` chain evaluates them |
| CaptainService.FalsyCountsAsMissing | services/captain.service.js:6-19 | an empty email, password or lastName, or a capacity of 0, fails the guard; any non-zero capacity, negative included, passes it |
| CaptainService.SampleEmailMatches | models/captain.model.js:22 | "ravi@x.com" matches the email expression |
| CaptainService.SampleEmailLower | models/captain.model.js:21 | "ravi@x.com" is already lower-case |
| CaptainService.SampleDocumentValid | models/captain.model.js:5-58 | a sample captain (with or without a last name) satisfies every schema constraint |
| CaptainService.LastNameRequiredOnlyHere | services/captain.service.js:9 | a captain without a last name fails the service's guard although the schema accepts it |
| CaptainService.Document | services/captain.service.js:21-34 | the created document copies exactly the ten fields given (password unhashed), lower-cases the email and takes the default status |
| CaptainService.CreateCaptain | services/captain.service.js:3-37 | any falsy field throws "All fields are required" and creates nothing. Otherwise creation succeeds exactly when the document is valid and its email is free, and then returns the one appended document. Every error leaves the store unchanged. The invariant is kept |
| CaptainController.ServiceData | controllers/captain.controller.js:28-41 | the service gets the name parts, the email, the hash and the four vehicle fields; building it fails exactly when `fullName` or `vehicle` is undefined |
| CaptainController.RegisterCaptain | controllers/captain.controller.js:6-54 | validation errors give 400 with the list, a taken email 400 "Captain already exists", both with the store unchanged. An undefined `fullName`/`vehicle` or a falsy field goes to `next`. Otherwise 201 with a token exactly when the document is valid, having appended exactly that document with the hashed password and status "inactive". Every `next` path leaves the store unchanged |
| CaptainController.LoginCaptain | controllers/captain.controller.js:56-97 | validation errors give 400; an unknown email or a wrong password gives the 401. A stored captain whose hash matches the password always gets 200 with that captain. A 200 carries a stored captain with that (lower-cased) email whose hash matches, a token for its id in the body, and the same token as cookie |
| CaptainController.LoginFailuresIdentical | controllers/captain.controller.js:70-83 | an unknown email and a wrong password give the identical 401 "Invalid email or password" |
| CaptainController.GetCaptainProfile | controllers/captain.controller.js:99-109 | 200 with exactly the captain the gate attached, no cookie change |
| CaptainController.LogoutCaptain | controllers/captain.controller.js:111-137 | with no token 400 "Token not found" and the denylist unchanged; otherwise the raw token, unverified, is appended, the cookie cleared and 200 sent |
| UserController.RegisterUser | controllers/user.controller.js:6-47 | validation errors give 400 with the list and a taken email 400 "User already exists", both with the store unchanged. An undefined `fullName` goes to `next`. Otherwise exactly one rider is appended with the hashed password and 201 carries a token for it. Distinct rider emails are kept |
| UserController.LoginUser | controllers/user.controller.js:49-92 | validation errors give 400; an unknown email or a wrong password gives the 401. A stored rider whose hash matches the password always gets 200 with that rider. A 200 carries a stored rider with that email whose hash matches, a token for its id, and the same token as cookie |
| UserController.LoginFailuresIdentical | controllers/user.controller.js:64-78 | an unknown email and a wrong password give the identical 401 "Invalid email or password" |
| UserController.GetUserProfile | controllers/user.controller.js:94-104 | 200 with exactly the rider the gate attached, no cookie change |
| UserController.LogoutUser | controllers/user.controller.js:106-132 | with no token 400 "Token not found" and the denylist unchanged; otherwise the raw token, unverified, is appended, the cookie cleared and 200 sent |
| Scenarios.RegisterRider | controllers/user.controller.js:6-47 | on an empty store, with any oracles, registration gives 201 and stores exactly one rider with the hashed password, found by its email |
| Scenarios.RiderSession | middlewares/auth.middleware.js:6-42 | register 201, login 200 with the token as cookie, the gate attaches the rider and the profile echoes its email, logout 200, and the same token sent as a Bearer header is then refused with 401 "Unauthorized" |
| Scenarios.AcceptableIsValid | models/captain.model.js:5-58 | names, plate, email and vehicle type that meet the schema, with a long enough hash, make a valid document |
| Scenarios.AcceptableData | controllers/captain.controller.js:28-41 | the data the handler builds from an acceptable registration passes the service's guard and creates a valid document, equal to the one `Build` makes |
| Scenarios.RegisterNewCaptain | controllers/captain.controller.js:6-54 | on an empty store, an acceptable registration that asks for status "active" gives 201 and stores exactly the built document, with status "inactive" |
| Scenarios.CaptainSession | controllers/captain.controller.js:56-97 | after registering, a different password gets the 401, the right one 200, and the gate attaches the captain, lower-cased email and no password |

## Left out

- `db/db.js` (connecting to MongoDB and logging) is not part of this model.
- The user model, the user service, the blacklist-token model and the
  express-validator rules are not part of this model.
  - Rider creation is a plain append of the fields the handler passes.
  - The denylist is a plain append, so a token may be denied twice.
  - Validation results are an opaque list of messages.
  - No uniqueness index is assumed for riders.
- `Oracles.Sound`: `compare` succeeds exactly for the hashed password. Real
  bcrypt ignores bytes after the 72nd, so two passwords sharing their first
  72 bytes also match. The 60-character length is weakened to at least 60,
  since no injective hash of every string has a fixed length.
- String lengths are counted in Unicode scalar values. Mongoose's `minlength`
  counts UTF-16 code units, so a name such as "a" followed by an emoji has
  length 3 there and 2 here. This affects `FirstNameError`, `LastNameError`,
  `PasswordError` and `PlateError`.
- `capacity` is an integer. A JavaScript Number may also be `NaN` or `-0`,
  both falsy for the service's guard, or fractional. Those values are not
  modelled.
- bcrypt and JWT are opaque functions. Salting, hash format and signature
  checking are not modelled. Wall-clock expiry is not modelled: `verify`
  decides it.
- `Oracles.AuthClaims`: carries the rider's claims the same way, since the
  user model's `generateAuthToken` is not part of this model.
- Rider reads return the stored password hash. The user model is not part
  of this model, so no `select: false` is assumed for riders, although
  `.select("+password")` in `controllers/user.controller.js:62` suggests it.
  As a result `AuthMiddleware.AuthUser` attaches, and
  `UserController.GetUserProfile` echoes, a rider with its hash.
- `CaptainModel.Lower`: folds ASCII letters only. JavaScript's
  `toLowerCase` also folds other Unicode letters.
- `CaptainModel.SchemaErrors`: lists the failing paths in schema order.
  Mongoose's error map order and its messages for type casts are not
  modelled.
- The `capacity` `minlength` option has no effect on a Number path and is not
  modelled. Only the service's truthiness test constrains capacity.
- Store errors other than validation and duplicate keys (connection loss,
  casts of malformed ids) are not modelled, except that the gate's lookups
  may fail (`Fetch.Failed`).
- `location`, `socketId` updates and `console.error` logging are not modelled.
- The asynchronous, concurrent execution of handlers is not modelled: each
  handler runs atomically. A race between two registrations of one email is
  not captured.
- The cookie parser is reduced to an optional string, and JSON-valued
  cookies are not modelled.
- The captain `hashPassword`/`comparePassword` defect is documented, not
  modelled. The handlers are modelled with the plaintext passed explicitly.
- `UserController.RegisterUser`: keeps distinct rider emails only through
  its own duplicate check. No store index enforces it.
