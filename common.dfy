/** Small value types shared by every module of the model. */
module Common {

  /** `undefined`/`null` versus a present value. */
  datatype Option<+T> = None | Some(value: T)

  /** The value of a call that can throw: `Ok` or the thrown error's message. */
  datatype Result<+T> = Ok(value: T) | Err(error: string)

  /** Outcome of a datastore query, which may reject its promise (network, cast error). */
  datatype Fetch<+T> = Fetched(value: T) | Failed

  /** A record's `_id`. Fresh ids come from a counter in the store. */
  type Id = nat

  /** A signed bearer token as it travels in a cookie or header. */
  type Token = string

  /** A request body's `fullName` object: either part may be missing. */
  datatype NameData = NameData(firstName: Option<string>, lastName: Option<string>)

  /** JavaScript truthiness of an optional string: present and non-empty. */
  predicate Truthy(s: Option<string>)
  {
    s.Some? && s.value != ""
  }
}
