/**
  The request and response of an Express handler, reduced to what the core
  reads and writes: the token cookie and `Authorization` header in, the
  record the gate attaches and the `next()` calls, and a reply made of a
  status, a JSON body and a change to the `token` cookie.
 */
module Http {
  import opened Common
  import opened CaptainModel
  import opened Store

  /** The JSON bodies the handlers send. */
  datatype Body<R> =
    | ValidationErrors(errors: seq<string>)   // { success: false, errors }
    | Failure(message: string)                // { success: false, message }
    | Done(message: string)                   // { success: true, message }
    | Session(token: Token, record: R)        // { success: true, token, user | captain }
    | Profile(attached: Option<R>)            // { success: true, user | captain }

  /** What a reply does to the `token` cookie. */
  datatype CookieChange = KeepCookie | SetCookie(token: Token) | ClearCookie

  /**
    A handler either sends a response or, from its `catch`, hands the error
    to `next(error)` and sends nothing itself.
   */
  datatype Reply<R> = Send(status: int, body: Body<R>, cookie: CookieChange) | PassToNext(error: string)

  class Request {
    /** `req.cookies.token`. */
    var cookieToken: Option<string>
    /** `req.headers.authorization`. */
    var authorization: Option<string>
    /** `req.user`, attached by the rider gate. */
    var user: Option<User>
    /** `req.captain`, attached by the captain gate. */
    var captain: Option<Captain>
    /** How many times the middleware called `next()`. */
    var nextCalls: nat

    constructor (cookieToken: Option<string>, authorization: Option<string>)
      ensures this.cookieToken == cookieToken && this.authorization == authorization
      ensures user.None? && captain.None? && nextCalls == 0
    {
      this.cookieToken := cookieToken;
      this.authorization := authorization;
      user, captain, nextCalls := None, None, 0;
    }
  }
}
