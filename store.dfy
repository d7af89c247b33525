/**
  The MongoDB collections the core reads and writes: riders, captains and
  the token denylist, each a sequence of documents in insertion order, and
  the queries the controllers and the gate issue against them.
 */
module Store {
  import opened Common
  import opened CaptainModel

  /**
    A rider document with the fields the user controller passes to
    `createuser`. The user model itself is not part of this model.
   */
  datatype User = User(id: Id, firstName: Option<string>, lastName: Option<string>, email: string, password: string)

  /** The index of the first element satisfying `p`, or `|s|` when none does. */
  function FirstIndex<R>(s: seq<R>, p: R -> bool): (i: nat)
    ensures i <= |s|
    ensures i < |s| ==> p(s[i])
    ensures forall j :: 0 <= j < i ==> !p(s[j])
  {
    if s == [] then 0
    else if p(s[0]) then 0
    else 1 + FirstIndex(s[1..], p)
  }

  /** `findOne(filter)`: the first document the filter matches. */
  function FindFirst<R>(s: seq<R>, p: R -> bool): (r: Option<R>)
    ensures r.None? <==> forall j :: 0 <= j < |s| ==> !p(s[j])
    ensures r.Some? ==> r.value in s && p(r.value)
  {
    var i := FirstIndex(s, p);
    if i < |s| then Some(s[i]) else None
  }

  /** `userModel.findOne({ email })`: the first rider with exactly that email. */
  function UserByEmail(users: seq<User>, email: string): (r: Option<User>)
    ensures r.None? <==> forall i :: 0 <= i < |users| ==> users[i].email != email
    ensures r.Some? ==> r.value in users && r.value.email == email
  {
    FindFirst(users, (u: User) => u.email == email)
  }

  function UserById(users: seq<User>, id: Id): (r: Option<User>)
    ensures r.None? <==> forall i :: 0 <= i < |users| ==> users[i].id != id
    ensures r.Some? ==> r.value in users && r.value.id == id
  {
    FindFirst(users, (u: User) => u.id == id)
  }

  /**
    `captainModel.findOne({ email })`: the query filter goes through the
    schema's `lowercase` setter, so the lookup is case-insensitive on ASCII.
    The document comes with its password, as with `select("+password")`.
   */
  function CaptainByEmail(captains: seq<Captain>, email: string): (r: Option<Captain>)
    ensures r.None? <==> forall i :: 0 <= i < |captains| ==> captains[i].email != Lower(email)
    ensures r.Some? ==> r.value in captains && r.value.email == Lower(email)
  {
    FindFirst(captains, (c: Captain) => c.email == Lower(email))
  }

  /** `captainModel.findById(id)`: the document without its `select: false` password. */
  function CaptainById(captains: seq<Captain>, id: Id): (r: Option<Captain>)
    ensures r.None? <==> forall i :: 0 <= i < |captains| ==> captains[i].id != id
    ensures r.Some? ==> r.value.password.None? && r.value.id == id
    ensures r.Some? ==> exists c :: c in captains && c.id == id && r.value == Hidden(c)
  {
    match FindFirst(captains, (c: Captain) => c.id == id)
    case Some(c) => Some(Hidden(c))
    case None => None
  }

  /** With distinct keys, `FindFirst` returns the unique element whose key matches. */
  lemma FindUnique<R, K>(s: seq<R>, key: R -> K, k: K, i: nat)
    requires i < |s| && key(s[i]) == k
    requires forall a, b :: 0 <= a < b < |s| ==> key(s[a]) != key(s[b])
    ensures FindFirst(s, (r: R) => key(r) == k) == Some(s[i])
  {
  }

  /** Rider ids are below `next` and pairwise distinct. */
  ghost predicate UsersOk(users: seq<User>, next: Id)
  {
    && (forall i :: 0 <= i < |users| ==> users[i].id < next)
    && (forall a, b :: 0 <= a < b < |users| ==> users[a].id != users[b].id)
  }

  /** Captain ids are below `next` and distinct, and every document is a valid, lower-cased, uniquely-emailed one. */
  ghost predicate CaptainsOk(captains: seq<Captain>, next: Id)
  {
    && (forall i :: 0 <= i < |captains| ==> captains[i].id < next)
    && (forall a, b :: 0 <= a < b < |captains| ==> captains[a].id != captains[b].id)
    && (forall a, b :: 0 <= a < b < |captains| ==> captains[a].email != captains[b].email)
    && (forall i :: 0 <= i < |captains| ==>
          SchemaValid(captains[i]) && Lower(captains[i].email) == captains[i].email)
  }

  /** Appending a valid document with a fresh id and an unused email keeps the captain invariant. */
  lemma CaptainsOkAppend(captains: seq<Captain>, next: Id, c: Captain)
    requires CaptainsOk(captains, next)
    requires c.id == next && SchemaValid(c) && Lower(c.email) == c.email
    requires forall i :: 0 <= i < |captains| ==> captains[i].email != c.email
    ensures CaptainsOk(captains + [c], next + 1)
  {
    var cs := captains + [c];
    forall a, b | 0 <= a < b < |cs|
      ensures cs[a].id != cs[b].id && cs[a].email != cs[b].email
    {
      if b == |captains| {
        assert cs[a] == captains[a];
      } else {
        assert cs[a] == captains[a] && cs[b] == captains[b];
      }
    }
    forall i | 0 <= i < |cs|
      ensures cs[i].id < next + 1
      ensures SchemaValid(cs[i]) && Lower(cs[i].email) == cs[i].email
    {
      if i < |captains| {
        assert cs[i] == captains[i];
      }
    }
  }

  /** The process's view of the database. */
  class Database {
    var users: seq<User>
    var captains: seq<Captain>
    var denylist: seq<Token>
    /** Where the next `_id` comes from: ObjectIds are modelled as a counter. */
    var nextId: Id

    /**
      Ids are unused above `nextId` and unique within each collection; every
      captain document passed the schema's validators, has a lower-cased
      email and its email is unique (the schema's `unique` index).
     */
    ghost predicate Valid()
      reads this
    {
      UsersOk(users, nextId) && CaptainsOk(captains, nextId)
    }

    /**
      No two riders share an email. Not enforced by the store (the user model
      is not part of this model); the register flow keeps it.
     */
    ghost predicate DistinctUserEmails()
      reads this
    {
      forall a, b :: 0 <= a < b < |users| ==> users[a].email != users[b].email
    }

    constructor ()
      ensures Valid() && DistinctUserEmails()
      ensures users == [] && captains == [] && denylist == [] && nextId == 0
    {
      users, captains, denylist, nextId := [], [], [], 0;
    }

    /** `findById` on riders resolves to the one rider with that id. */
    lemma UserByIdFinds(i: nat)
      requires Valid() && i < |users|
      ensures UserById(users, users[i].id) == Some(users[i])
    {
      FindUnique(users, (u: User) => u.id, users[i].id, i);
    }

    /** `findById` on captains resolves to the one captain with that id, password hidden. */
    lemma CaptainByIdFinds(i: nat)
      requires Valid() && i < |captains|
      ensures CaptainById(captains, captains[i].id) == Some(Hidden(captains[i]))
    {
      FindUnique(captains, (c: Captain) => c.id, captains[i].id, i);
    }

    /** `userModel.create(doc)`: appends one rider with a fresh id. */
    method InsertUser(firstName: Option<string>, lastName: Option<string>, email: string, password: string)
      returns (u: User)
      requires Valid()
      modifies this`users, this`nextId
      ensures Valid()
      ensures u == User(old(nextId), firstName, lastName, email, password)
      ensures users == old(users) + [u] && nextId == old(nextId) + 1
    {
      u := User(nextId, firstName, lastName, email, password);
      users := users + [u];
      nextId := nextId + 1;
    }

    /**
      `captainModel.create(doc)`: builds the document, runs the validators
      (a ValidationError leaves the collection unchanged), then inserts it
      unless the `unique` index already holds its email (an E11000 error).
     */
    method InsertCaptain(fullName: FullName, email: string, password: string, vehicle: Vehicle)
      returns (r: Result<Captain>)
      requires Valid()
      modifies this`captains, this`nextId
      ensures Valid()
      ensures var c := Build(old(nextId), fullName, email, password, vehicle);
        if !SchemaValid(c) then
          r == Err("ValidationError") && unchanged(this)
        else if CaptainByEmail(old(captains), email).Some? then
          r == Err("E11000 duplicate key error") && unchanged(this)
        else
          r == Ok(c) && captains == old(captains) + [c] && nextId == old(nextId) + 1
    {
      var c := Build(nextId, fullName, email, password, vehicle);
      if !SchemaValid(c) {
        return Err("ValidationError");
      }
      if CaptainByEmail(captains, email).Some? {
        return Err("E11000 duplicate key error");
      }
      assert c.email == Lower(email);
      CaptainsOkAppend(captains, nextId, c);
      captains := captains + [c];
      nextId := nextId + 1;
      r := Ok(c);
    }

    /** `blacklistTokenModel.create({ token })`: appends the token to the denylist. */
    method Deny(t: Token)
      modifies this`denylist
      ensures denylist == old(denylist) + [t]
    {
      denylist := denylist + [t];
    }
  }
}
