/** From a successful OTP login to the session gate: the cookie the login sets opens every privileged route for seven days. */
module SessionFlow {
  import opened Wrappers
  import opened Jwt
  import opened Http
  import opened OtpFlow
  import opened AuthGate

  /**
    The cookie set by a successful verification at `now`, sent back at
    `later`, is admitted by the gate with the admin's id, email and name
    exactly while the token is unexpired, and the check route agrees.
   */
  lemma LoginCookieOpensGate(k: Signer, table: seq<OtpRecord>, admins: seq<Admin>, email: Field, otp: Field,
                             now: int, production: bool, fault: Fault, later: int)
    requires SoundSigner(k)
    requires VerifyOtp(table, admins, email, otp, now, production, k.sign, fault).response.status == 200
    ensures var r := VerifyOtp(table, admins, email, otp, now, production, k.sign, fault).response;
            var jar := map[r.cookie.value.name := r.cookie.value.value];
            var g := AuthMiddleware(jar, tok => k.verify(tok, later));
            && r.cookie.value.name == CookieName
            && (g.Admit? <==> Unexpired(Payload(r.body.admin, now), later))
            && (g.Admit? ==> g.claims == Payload(r.body.admin, now)
                             && g.claims.id == r.body.admin.id && g.claims.email == r.body.admin.email
                             && g.claims.name == r.body.admin.name)
            && (Check(jar, tok => k.verify(tok, later)).status == 200 <==> g.Admit?)
  {
    var r := VerifyOtp(table, admins, email, otp, now, production, k.sign, fault).response;
    var jar := map[r.cookie.value.name := r.cookie.value.value];
    SignedTokenAdmittedUntilExpiry(k, jar, r.body.admin, now, later);
    CheckAgreesWithMiddleware(jar, tok => k.verify(tok, later));
  }
}
