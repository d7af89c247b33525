/**
  The foreign primitives the backend delegates to: bcrypt for password hashing
  and jsonwebtoken for signing and verifying tokens. They are uninterpreted
  functions collected in one value; the model assumes nothing about them
  except where a lemma names `Sound` explicitly.
 */
module Oracles {
  import opened Common

  /** `expiresIn: "24h"`, in seconds. */
  const TokenLifetime: int := 86400

  /** What `jwt.sign` puts in a token: the payload `{ _id }` plus the `iat`/`exp` it adds. */
  datatype Claims = Claims(id: Id, issuedAt: int, expiresAt: int)

  /**
    The claims `generateAuthToken` signs for record `id` at time `now`:
    the payload is the id alone and the token lives exactly 24 hours.
   */
  function AuthClaims(id: Id, now: int): (c: Claims)
    ensures c.id == id && c.issuedAt == now
    ensures c.expiresAt - c.issuedAt == 24 * 60 * 60
  {
    Claims(id, now, now + TokenLifetime)
  }

  /**
    hash(plaintext, salt) is `bcrypt.hash(password, 10)` with the random salt
    made an explicit argument; compare(plaintext, hash) is `bcrypt.compare`;
    sign is `jwt.sign` with the server secret; verify is `jwt.verify`, `None`
    standing for the error it throws on a malformed, forged or expired token.
   */
  datatype Oracles = Oracles(
    hash: (string, nat) -> string,
    compare: (string, string) -> bool,
    sign: Claims -> Token,
    verify: Token -> Option<Id>)

  /**
    The idealised behaviour of bcrypt and JWT that the end-to-end lemmas rely
    on: a password matches exactly the hashes made from it, a hash is at
    least 60 characters long (a bcrypt hash has exactly 60, which no
    injective hash of every string can keep), a signed token is non-empty,
    has no space, and verifies to the id it was signed for. Expiry is not
    modelled.
   */
  ghost predicate Sound(o: Oracles)
  {
    && (forall p, q, salt :: o.compare(p, o.hash(q, salt)) <==> p == q)
    && (forall p, salt :: |o.hash(p, salt)| >= 60)
    && (forall c :: o.sign(c) != "" && ' ' !in o.sign(c) && o.verify(o.sign(c)) == Some(c.id))
  }

  /** Sixty filler characters put in front of a password by `Witness`. */
  function Filler(): (f: string)
    ensures |f| == 60
  {
    seq(60, _ => '$')
  }

  function WitnessHash(p: string, salt: nat): string
  {
    Filler() + p
  }

  function WitnessCompare(p: string, h: string): bool
  {
    h == Filler() + p
  }

  function WitnessSign(c: Claims): (t: Token)
    ensures |t| == c.id + 1 && forall i :: 0 <= i < |t| ==> t[i] == 'a'
  {
    seq(c.id + 1, _ => 'a')
  }

  function WitnessVerify(t: Token): Option<Id>
  {
    if |t| > 0 then Some(|t| - 1) else None
  }

  /**
    Oracles that satisfy `Sound`: the hash is the filler followed by the
    password, and a token for id `n` is `n + 1` letters 'a'.
   */
  function Witness(): Oracles
  {
    Oracles(WitnessHash, WitnessCompare, WitnessSign, WitnessVerify)
  }

  /** `Sound` is satisfiable, so lemmas that assume it are not vacuous. */
  lemma WitnessSound()
    ensures Sound(Witness())
  {
    var o := Witness();
    forall p, q, salt: nat
      ensures o.compare(p, o.hash(q, salt)) <==> p == q
    {
      if Filler() + q == Filler() + p {
        assert q == (Filler() + q)[60..];
        assert p == (Filler() + p)[60..];
      }
    }
    forall c: Claims
      ensures o.sign(c) != "" && ' ' !in o.sign(c) && o.verify(o.sign(c)) == Some(c.id)
    {
      var t := WitnessSign(c);
      assert t[0] == 'a';
    }
  }
}
