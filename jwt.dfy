/**
  Session tokens (utils/jwt.ts). `signToken` and `verifyToken` wrap a JWT
  library, which is not part of this model: a `Signer` is any pair of
  functions, and `SoundSigner` states what the library is trusted to do.
  Times are milliseconds; JWT `iat`/`exp` are whole seconds.
 */
module Jwt {
  import opened Wrappers

  /** `signToken`'s default `expiresIn` of '7d', in seconds. */
  const SessionSeconds: int := 60 * 60 * 24 * 7

  /** The payload the login route signs. */
  datatype Claims = Claims(id: string, email: string, name: string)

  /** What `verifyToken` returns: the signed payload plus the library's `iat` and `exp`. */
  datatype Decoded = Decoded(id: string, email: string, name: string, iat: int, exp: int)

  /** A JWT NumericDate: `Math.floor(ms / 1000)` (Dafny's `/` floors for a positive divisor). */
  function Seconds(ms: int): int
  {
    ms / 1000
  }

  /** The payload of a token signed at `signedAt`. */
  function Payload(c: Claims, signedAt: int): (d: Decoded)
    ensures d.id == c.id && d.email == c.email && d.name == c.name
    ensures d.iat == Seconds(signedAt) && d.exp == d.iat + SessionSeconds
  {
    Decoded(c.id, c.email, c.name, Seconds(signedAt), Seconds(signedAt) + SessionSeconds)
  }

  /** The library rejects a token once the clock, in seconds, reaches `exp`. */
  predicate Unexpired(d: Decoded, now: int)
  {
    Seconds(now) < d.exp
  }

  datatype Signer = Signer(sign: (Claims, int) -> string, verify: (string, int) -> Option<Decoded>)

  /**
    The trusted behaviour of the signing library under one secret: tokens are
    non-empty; a signed token verifies to its payload until it expires; and
    anything that verifies was produced by `sign` (wrong secret, tampered or
    malformed strings do not).
   */
  ghost predicate SoundSigner(k: Signer)
  {
    && (forall c, t :: k.sign(c, t) != "")
    && (forall c, t, now :: k.verify(k.sign(c, t), now) ==
          if Unexpired(Payload(c, t), now) then Some(Payload(c, t)) else None)
    && (forall tok, now :: k.verify(tok, now).Some? ==> exists c, t :: tok == k.sign(c, t))
  }

  /** A token signed at `t` is accepted until the start of the second `t / 1000 + 604800`. */
  lemma SessionWindow(c: Claims, t: int, now: int)
    ensures Unexpired(Payload(c, t), now) <==> now < (Seconds(t) + SessionSeconds) * 1000
    ensures t <= now && now - t < SessionSeconds * 1000 - 999 ==> Unexpired(Payload(c, t), now)
    ensures now >= t + SessionSeconds * 1000 ==> !Unexpired(Payload(c, t), now)
  {
    var e := Seconds(t) + SessionSeconds;
    assert Seconds(now) < e <==> now < e * 1000;
    assert Seconds(t) * 1000 <= t < Seconds(t) * 1000 + 1000;
  }
}
