/**
  The session gate (middleware/auth.ts) and the session check route
  (app/api/auth/check/route.ts). Both read the `admin_token` cookie and ask a
  `verifyToken` oracle; neither touches a store, which is why both are
  functions of the cookie jar and the oracle alone.
 */
module AuthGate {
  import opened Wrappers
  import opened Jwt
  import opened Http

  const CookieName: string := "admin_token"

  /** `request.cookies.get('admin_token')?.value`. */
  function SessionCookie(cookies: map<string, string>): Option<string>
  {
    if CookieName in cookies then Some(cookies[CookieName]) else None
  }

  /** What `authMiddleware` returns: a ready 401 response, or the decoded claims. */
  datatype GateResult = Deny(response: Response) | Admit(claims: Decoded)

  const Unauthorized: Response := Json(ErrorBody("Unauthorized"), 401)
  const InvalidToken: Response := Json(ErrorBody("Invalid token"), 401)

  /** A present, non-empty token the oracle accepts. */
  predicate Authenticated(cookies: map<string, string>, verifyToken: string -> Option<Decoded>)
  {
    CookieName in cookies && cookies[CookieName] != "" && verifyToken(cookies[CookieName]).Some?
  }

  /** `authMiddleware(request)`. */
  function AuthMiddleware(cookies: map<string, string>, verifyToken: string -> Option<Decoded>): (g: GateResult)
    ensures g.Admit? <==> Authenticated(cookies, verifyToken)
    ensures g.Admit? ==> verifyToken(cookies[CookieName]) == Some(g.claims)
    ensures (CookieName !in cookies || cookies[CookieName] == "") ==> g == Deny(Unauthorized)
    ensures (CookieName in cookies && cookies[CookieName] != "" && verifyToken(cookies[CookieName]).None?)
              ==> g == Deny(InvalidToken)
  {
    match SessionCookie(cookies)
    case None => Deny(Unauthorized)
    case Some(token) =>
      if token == "" then Deny(Unauthorized)
      else
        match verifyToken(token)
        case None => Deny(InvalidToken)
        case Some(decoded) => Admit(decoded)
  }

  /** Every denial is a 401 carrying one of the two error bodies, and no cookie. */
  lemma DenialIs401(cookies: map<string, string>, verifyToken: string -> Option<Decoded>)
    ensures AuthMiddleware(cookies, verifyToken).Deny? ==>
              var r := AuthMiddleware(cookies, verifyToken).response;
              r.status == 401 && r.cookie.None? && r.body in {ErrorBody("Unauthorized"), ErrorBody("Invalid token")}
  {
  }

  const NotAuthenticated: Response := Json(AuthStatus(false, None), 401)

  /** `GET /api/auth/check`. */
  function Check(cookies: map<string, string>, verifyToken: string -> Option<Decoded>): (r: Response)
    ensures r.status == 200 <==> Authenticated(cookies, verifyToken)
    ensures r.status != 200 ==> r == NotAuthenticated
    ensures r.status == 200 ==>
              var d := verifyToken(cookies[CookieName]).value;
              r == Json(AuthStatus(true, Some(Claims(d.id, d.email, d.name))), 200)
  {
    match SessionCookie(cookies)
    case None => NotAuthenticated
    case Some(token) =>
      if token == "" then NotAuthenticated
      else
        match verifyToken(token)
        case None => NotAuthenticated
        case Some(decoded) => Json(AuthStatus(true, Some(Claims(decoded.id, decoded.email, decoded.name))), 200)
  }

  /** The check route admits exactly the requests the gate admits, and reports the gate's claims. */
  lemma CheckAgreesWithMiddleware(cookies: map<string, string>, verifyToken: string -> Option<Decoded>)
    ensures Check(cookies, verifyToken).status == 200 <==> AuthMiddleware(cookies, verifyToken).Admit?
    ensures AuthMiddleware(cookies, verifyToken).Admit? ==>
              var d := AuthMiddleware(cookies, verifyToken).claims;
              Check(cookies, verifyToken).body == AuthStatus(true, Some(Claims(d.id, d.email, d.name)))
  {
  }

  /** A token the signer did not produce (tampered, malformed, another secret) is refused. */
  lemma ForgedTokenDenied(k: Signer, cookies: map<string, string>, now: int)
    requires SoundSigner(k)
    requires CookieName in cookies && forall c, t :: cookies[CookieName] != k.sign(c, t)
    ensures AuthMiddleware(cookies, tok => k.verify(tok, now)).Deny?
    ensures Check(cookies, tok => k.verify(tok, now)) == NotAuthenticated
  {
    var tok := cookies[CookieName];
    assert !(exists c, t :: tok == k.sign(c, t));
  }

  /** A token the signer produced is admitted, with its payload, exactly until it expires. */
  lemma SignedTokenAdmittedUntilExpiry(k: Signer, cookies: map<string, string>, c: Claims, t: int, now: int)
    requires SoundSigner(k)
    requires CookieName in cookies && cookies[CookieName] == k.sign(c, t)
    ensures AuthMiddleware(cookies, tok => k.verify(tok, now)) ==
              if Unexpired(Payload(c, t), now) then Admit(Payload(c, t)) else Deny(InvalidToken)
  {
    assert k.sign(c, t) != "";
    assert k.verify(k.sign(c, t), now) == if Unexpired(Payload(c, t), now) then Some(Payload(c, t)) else None;
  }
}
