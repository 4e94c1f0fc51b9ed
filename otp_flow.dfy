/**
  The one-time-password login (app/api/auth/request-otp/route.ts and
  app/api/auth/verify-otp/route.ts) as functions from the OTP table, the
  admin table and one request to the new OTP table, the response, and the
  mail handed to the notifier. `OtpRoutes` runs the same steps in place.
 */
module OtpFlow {
  import opened Wrappers
  import opened Text
  import opened Jwt
  import opened Http

  /** The code's lifetime: 10 minutes in milliseconds. */
  const OtpLifetimeMs: int := 10 * 60 * 1000
  /** The cookie's `maxAge`: 7 days in seconds. */
  const CookieMaxAge: int := 60 * 60 * 24 * 7

  datatype OtpRecord = OtpRecord(email: string, otp: string, expiresAt: int)
  datatype Admin = Admin(id: string, email: string, name: string)
  /** A call `sendOTPEmail(to, code)`. */
  datatype Mail = Mail(to: string, code: string)

  /** The table, the response, and the mail this request handed to the notifier. */
  datatype Outcome = Outcome(table: seq<OtpRecord>, response: Response, mail: Option<Mail>)

  /** The message of the `TypeError` that `toLowerCase` throws on a non-string `email`. */
  const NotAStringMessage: string := "email.toLowerCase is not a function"
  /** The message of the `CastError` Mongoose throws for an `otp` object, printed as `shown`, that it cannot cast to a string. */
  function OtpCastMessage(shown: string): string
  {
    "Cast to string failed for value \"" + shown + "\" (type Object) at path \"otp\" for model \"OTP\""
  }

  // ---------------------------------------------------------------- code generation

  /** `Math.floor(100000 + Math.random() * 900000)` for a draw `random` in [0, 1). */
  function CodeNumber(random: real): (n: int)
    requires 0.0 <= random < 1.0
    ensures 100000 <= n <= 999999
  {
    (100000.0 + random * 900000.0).Floor
  }

  /** `.toString()` of that number: six decimal digits, the first not zero. */
  function GenerateCode(random: real): (code: string)
    requires 0.0 <= random < 1.0
    ensures |code| == 6 && code[0] != '0'
    ensures forall i :: 0 <= i < |code| ==> IsDigit(code[i])
    ensures ParseDecimal(code) == CodeNumber(random)
  {
    var n := CodeNumber(random);
    assert Pow10(5) == 100000 && Pow10(6) == 1000000;
    NatToStringLength(n, 6);
    ParseNatToString(n);
    NatToString(n)
  }

  // ---------------------------------------------------------------- tables

  /** `Admin.findOne({ email })`: the first admin whose stored email equals `email`. */
  function FindAdmin(admins: seq<Admin>, email: string): (r: Option<Admin>)
    ensures r.Some? ==> r.value in admins && r.value.email == email
    ensures r.None? <==> forall a :: a in admins ==> a.email != email
  {
    if admins == [] then None
    else if admins[0].email == email then Some(admins[0])
    else FindAdmin(admins[1..], email)
  }

  /** The records for `email`, in table order. */
  function RecordsFor(t: seq<OtpRecord>, email: string): seq<OtpRecord>
  {
    if t == [] then []
    else RecordsFor(t[..|t| - 1], email) + if t[|t| - 1].email == email then [t[|t| - 1]] else []
  }

  /** `OTP.deleteMany({ email })`: the table without the records for `email`, in table order. */
  function Purge(t: seq<OtpRecord>, email: string): (r: seq<OtpRecord>)
    ensures |r| <= |t|
    ensures forall i :: 0 <= i < |r| ==> r[i].email != email
  {
    if t == [] then []
    else Purge(t[..|t| - 1], email) + if t[|t| - 1].email != email then [t[|t| - 1]] else []
  }

  lemma {:induction false} PurgeMembers(t: seq<OtpRecord>, email: string, r: OtpRecord)
    ensures r in Purge(t, email) <==> r in t && r.email != email
  {
    if t != [] {
      PurgeMembers(t[..|t| - 1], email, r);
      assert t == t[..|t| - 1] + [t[|t| - 1]];
    }
  }

  lemma RecordsForAppend(t: seq<OtpRecord>, r: OtpRecord, email: string)
    ensures RecordsFor(t + [r], email) == RecordsFor(t, email) + if r.email == email then [r] else []
  {
    assert (t + [r])[..|t + [r]| - 1] == t;
  }

  lemma PurgeAppend(t: seq<OtpRecord>, r: OtpRecord, key: string)
    ensures Purge(t + [r], key) == Purge(t, key) + if r.email != key then [r] else []
  {
    assert (t + [r])[..|t + [r]| - 1] == t;
  }

  /** Purging one email removes all of its records and leaves every other email's records as they were. */
  lemma {:induction false} RecordsForPurge(t: seq<OtpRecord>, key: string, email: string)
    ensures RecordsFor(Purge(t, key), email) == if email == key then [] else RecordsFor(t, email)
  {
    if t != [] {
      var init, last := t[..|t| - 1], t[|t| - 1];
      RecordsForPurge(init, key, email);
      assert RecordsFor(t, email) == RecordsFor(init, email) + if last.email == email then [last] else [];
      if last.email != key {
        assert Purge(t, key) == Purge(init, key) + [last];
        RecordsForAppend(Purge(init, key), last, email);
      } else {
        assert Purge(t, key) == Purge(init, key);
      }
    }
  }

  lemma {:induction false} PurgeIdempotent(t: seq<OtpRecord>, key: string)
    ensures Purge(Purge(t, key), key) == Purge(t, key)
  {
    if t != [] {
      var init, last := t[..|t| - 1], t[|t| - 1];
      PurgeIdempotent(init, key);
      if last.email != key {
        assert Purge(t, key) == Purge(init, key) + [last];
        PurgeAppend(Purge(init, key), last, key);
      } else {
        assert Purge(t, key) == Purge(init, key);
      }
    }
  }

  /** The supersession invariant: at most one code per email. */
  ghost predicate AtMostOnePerEmail(t: seq<OtpRecord>)
  {
    forall email :: |RecordsFor(t, email)| <= 1
  }

  lemma PurgeKeepsAtMostOne(t: seq<OtpRecord>, key: string)
    requires AtMostOnePerEmail(t)
    ensures AtMostOnePerEmail(Purge(t, key))
  {
    forall email ensures |RecordsFor(Purge(t, key), email)| <= 1 {
      RecordsForPurge(t, key, email);
    }
  }

  // ---------------------------------------------------------------- request-otp

  /** The response of the `catch` block of request-otp. */
  function RequestFailed(message: string): Response
  {
    Json(ErrorDetails("Failed to send OTP", message), 500)
  }

  /**
    `POST /api/auth/request-otp` at time `now` with the random draw `random`.
    Awaited calls: 0 `connectDB`, 1 `Admin.findOne`, 2 `OTP.deleteMany`, 3 `OTP.create`.
    `sendOTPEmail` catches its own errors and its result is not read, so the
    outcome does not depend on it.
   */
  function RequestOtp(table: seq<OtpRecord>, admins: seq<Admin>, email: Field, now: int, random: real, fault: Fault): (o: Outcome)
    requires 0.0 <= random < 1.0
    ensures !Truthy(email) ==> o == Outcome(table, Json(ErrorBody("Email is required"), 400), None)
    ensures o.response.status == 200 <==>
              Truthy(email) && email.Str? && FindAdmin(admins, ToLower(email.s)).Some?
              && (fault.FailAt? ==> fault.step > 3)
    ensures o.response.status != 200 ==> o.mail.None?
    ensures o.response.status == 200 ==>
              var key := ToLower(email.s);
              var code := GenerateCode(random);
              && o.table == Purge(table, key) + [OtpRecord(key, code, now + OtpLifetimeMs)]
              && o.mail == Some(Mail(email.s, code))
              && o.response == Json(OtpSent("OTP sent successfully", true), 200)
    ensures Truthy(email) && FailsAt(fault, 0) ==> o == Outcome(table, RequestFailed(fault.message), None)
    ensures Truthy(email) && !FailsAt(fault, 0) && !email.Str? ==>
              o == Outcome(table, RequestFailed(NotAStringMessage), None)
    ensures Truthy(email) && email.Str? && FailsAt(fault, 1) ==> o == Outcome(table, RequestFailed(fault.message), None)
    ensures Truthy(email) && email.Str? && (fault.FailAt? ==> fault.step > 1)
              && FindAdmin(admins, ToLower(email.s)).None? ==>
              o == Outcome(table, Json(ErrorBody("Admin not found"), 404), None)
    ensures Truthy(email) && email.Str? && FindAdmin(admins, ToLower(email.s)).Some? && FailsAt(fault, 2) ==>
              o == Outcome(table, RequestFailed(fault.message), None)
    ensures Truthy(email) && email.Str? && FindAdmin(admins, ToLower(email.s)).Some? && FailsAt(fault, 3) ==>
              o == Outcome(Purge(table, ToLower(email.s)), RequestFailed(fault.message), None)
    ensures o.response.status in {200, 400, 404, 500}
    ensures o.table == table || (email.Str? && o.table == Purge(table, ToLower(email.s)))
              || o.response.status == 200
  {
    if !Truthy(email) then Outcome(table, Json(ErrorBody("Email is required"), 400), None)
    else if FailsAt(fault, 0) then Outcome(table, RequestFailed(fault.message), None)
    else if !email.Str? then Outcome(table, RequestFailed(NotAStringMessage), None)
    else
      var key := ToLower(email.s);
      if FailsAt(fault, 1) then Outcome(table, RequestFailed(fault.message), None)
      else if FindAdmin(admins, key).None? then Outcome(table, Json(ErrorBody("Admin not found"), 404), None)
      else
        var code := GenerateCode(random);
        if FailsAt(fault, 2) then Outcome(table, RequestFailed(fault.message), None)
        else
          var purged := Purge(table, key);
          if FailsAt(fault, 3) then Outcome(purged, RequestFailed(fault.message), None)
          else
            Outcome(purged + [OtpRecord(key, code, now + OtpLifetimeMs)],
                    Json(OtpSent("OTP sent successfully", true), 200),
                    Some(Mail(email.s, code)))
  }

  // ---------------------------------------------------------------- verify-otp

  /** The response of the `catch` block of verify-otp. */
  function VerifyFailed(message: string): Response
  {
    Json(ErrorDetails("Failed to verify OTP", message), 500)
  }

  /** The `Set-Cookie` of a successful login. */
  function LoginCookie(token: string, production: bool): Cookie
  {
    Cookie("admin_token", token, true, production, Strict, CookieMaxAge)
  }

  /**
    How the filter `{ otp }` treats a stored code when the body's `otp` is the
    value `otp`: Mongoose casts numbers and booleans to strings and passes
    query operators (and arrays, as `$in`) through.
   */
  predicate OtpQueryMatches(stored: string, otp: Field)
    ensures otp.Num? && IsCanonicalDecimal(stored) ==> (OtpQueryMatches(stored, otp) <==> otp.n == ParseDecimal(stored))
    ensures otp.Bool? && IsCanonicalDecimal(stored) ==> !OtpQueryMatches(stored, otp)
    ensures otp.Missing? || otp.Null? || otp.OtherObject? ==> !OtpQueryMatches(stored, otp)
  {
    match otp
    case Str(s) => stored == s
    case Num(n) => IntToStringOfCanonical(n, stored); stored == IntToString(n)
    case Bool(b) => stored == if b then "true" else "false"
    case Operator(test) => test(stored)
    case _ => false
  }

  /** `{ "$ne": null }`: a stored code is never null. */
  function NotNull(): Field
  {
    Operator(s => true)
  }

  /** `{ "$gt": v }`, comparing strings as MongoDB does. */
  function GreaterThan(v: string): Field
  {
    Operator(s => LexLess(v, s))
  }

  /** A JSON array of strings, which Mongoose casts to `{ "$in": vs }`. */
  function AnyOf(vs: seq<string>): Field
  {
    Operator(s => s in vs)
  }

  /** The filter of `OTP.findOne` at line 18: lowercased email, the code, and strictly unexpired. */
  predicate Matches(r: OtpRecord, key: string, otp: Field, now: int)
  {
    r.email == key && OtpQueryMatches(r.otp, otp) && r.expiresAt > now
  }

  predicate HasMatch(t: seq<OtpRecord>, key: string, otp: Field, now: int)
  {
    exists r :: r in t && Matches(r, key, otp, now)
  }

  /**
    `POST /api/auth/verify-otp` exactly as written, at time `now`, signing with
    `sign` and setting `secure` from `production`.
    Awaited calls: 0 `connectDB`, 1 `OTP.findOne`, 2 `Admin.findOne`, 3 `OTP.deleteMany`.
   */
  function VerifyOtpAsWritten(table: seq<OtpRecord>, admins: seq<Admin>, email: Field, otp: Field,
                              now: int, production: bool, sign: (Claims, int) -> string, fault: Fault): (o: Outcome)
    ensures o.mail.None?
    ensures o.response.status == 200 <==>
              && Truthy(email) && Truthy(otp) && email.Str?
              && HasMatch(table, ToLower(email.s), otp, now)
              && FindAdmin(admins, ToLower(email.s)).Some?
              && (fault.FailAt? ==> fault.step > 3)
    ensures Truthy(email) && Truthy(otp) && FailsAt(fault, 0) ==> o == Outcome(table, VerifyFailed(fault.message), None)
    ensures Truthy(email) && Truthy(otp) && !email.Str? && !FailsAt(fault, 0) ==>
              o == Outcome(table, VerifyFailed(NotAStringMessage), None)
    ensures Truthy(email) && Truthy(otp) && email.Str? && FailsAt(fault, 1) ==>
              o == Outcome(table, VerifyFailed(fault.message), None)
    ensures Truthy(email) && email.Str? && otp.OtherObject? && (fault.FailAt? ==> fault.step > 1) ==>
              o == Outcome(table, VerifyFailed(OtpCastMessage(otp.shown)), None)
    ensures Truthy(email) && Truthy(otp) && email.Str? && HasMatch(table, ToLower(email.s), otp, now) && FailsAt(fault, 2) ==>
              o == Outcome(table, VerifyFailed(fault.message), None)
    ensures Truthy(email) && Truthy(otp) && email.Str? && HasMatch(table, ToLower(email.s), otp, now)
              && FindAdmin(admins, ToLower(email.s)).Some? && FailsAt(fault, 3) ==>
              o == Outcome(table, VerifyFailed(fault.message), None)
    ensures o.response.status == 200 ==>
              var key := ToLower(email.s);
              var admin := FindAdmin(admins, key).value;
              var claims := Claims(admin.id, admin.email, admin.name);
              && o.table == Purge(table, key)
              && o.response == Response(200, LoginOk("Login successful", claims), Some(LoginCookie(sign(claims, now), production)))
    ensures o.response.status != 200 ==> o.table == table
    ensures !Truthy(email) || !Truthy(otp) ==> o == Outcome(table, Json(ErrorBody("Email and OTP are required"), 400), None)
    ensures Truthy(email) && Truthy(otp) && email.Str? && !otp.OtherObject? && (fault.FailAt? ==> fault.step > 1)
              && !HasMatch(table, ToLower(email.s), otp, now) ==>
              o == Outcome(table, Json(ErrorBody("Invalid or expired OTP"), 401), None)
    ensures Truthy(email) && Truthy(otp) && email.Str? && HasMatch(table, ToLower(email.s), otp, now)
              && FindAdmin(admins, ToLower(email.s)).None? && (fault.FailAt? ==> fault.step > 2) ==>
              o == Outcome(table, Json(ErrorBody("Admin not found"), 404), None)
  {
    if !Truthy(email) || !Truthy(otp) then Outcome(table, Json(ErrorBody("Email and OTP are required"), 400), None)
    else if FailsAt(fault, 0) then Outcome(table, VerifyFailed(fault.message), None)
    else if !email.Str? then Outcome(table, VerifyFailed(NotAStringMessage), None)
    else
      var key := ToLower(email.s);
      if FailsAt(fault, 1) then Outcome(table, VerifyFailed(fault.message), None)
      else if otp.OtherObject? then Outcome(table, VerifyFailed(OtpCastMessage(otp.shown)), None)
      else if !HasMatch(table, key, otp, now) then Outcome(table, Json(ErrorBody("Invalid or expired OTP"), 401), None)
      else if FailsAt(fault, 2) then Outcome(table, VerifyFailed(fault.message), None)
      else
        match FindAdmin(admins, key)
        case None => Outcome(table, Json(ErrorBody("Admin not found"), 404), None)
        case Some(admin) =>
          if FailsAt(fault, 3) then Outcome(table, VerifyFailed(fault.message), None)
          else
            var claims := Claims(admin.id, admin.email, admin.name);
            var token := sign(claims, now);
            Outcome(Purge(table, key), Response(200, LoginOk("Login successful", claims), Some(LoginCookie(token, production))), None)
  }

  /**
    verify-otp with the check the route evidently intends: a code that is not a
    string is refused like a missing one, before any query is built from it.
   */
  function VerifyOtp(table: seq<OtpRecord>, admins: seq<Admin>, email: Field, otp: Field,
                     now: int, production: bool, sign: (Claims, int) -> string, fault: Fault): (o: Outcome)
    ensures o.mail.None?
    ensures (!Truthy(email) || !Truthy(otp) || !otp.Str?) ==>
              o == Outcome(table, Json(ErrorBody("Email and OTP are required"), 400), None)
    ensures o.response.status == 200 <==>
              && email.Str? && otp.Str? && Truthy(email) && Truthy(otp)
              && HasMatch(table, ToLower(email.s), otp, now)
              && FindAdmin(admins, ToLower(email.s)).Some?
              && (fault.FailAt? ==> fault.step > 3)
    ensures o.response.status == 200 ==>
              var key := ToLower(email.s);
              var admin := FindAdmin(admins, key).value;
              var claims := Claims(admin.id, admin.email, admin.name);
              && (exists r :: r in table && r.email == key && r.otp == otp.s && r.expiresAt > now)
              && o.table == Purge(table, key)
              && o.response == Response(200, LoginOk("Login successful", claims), Some(LoginCookie(sign(claims, now), production)))
    ensures o.response.status != 200 ==> o.table == table
    ensures o.response.status in {200, 400, 401, 404, 500}
    ensures Truthy(email) && otp.Str? && Truthy(otp) && FailsAt(fault, 0) ==>
              o == Outcome(table, VerifyFailed(fault.message), None)
    ensures Truthy(email) && otp.Str? && Truthy(otp) && !email.Str? && !FailsAt(fault, 0) ==>
              o == Outcome(table, VerifyFailed(NotAStringMessage), None)
    ensures Truthy(email) && otp.Str? && Truthy(otp) && email.Str? && FailsAt(fault, 1) ==>
              o == Outcome(table, VerifyFailed(fault.message), None)
    ensures Truthy(email) && otp.Str? && Truthy(otp) && email.Str? && HasMatch(table, ToLower(email.s), otp, now)
              && FailsAt(fault, 2) ==>
              o == Outcome(table, VerifyFailed(fault.message), None)
    ensures Truthy(email) && otp.Str? && Truthy(otp) && email.Str? && HasMatch(table, ToLower(email.s), otp, now)
              && FindAdmin(admins, ToLower(email.s)).Some? && FailsAt(fault, 3) ==>
              o == Outcome(table, VerifyFailed(fault.message), None)
  {
    if otp.Str? || !Truthy(otp) then VerifyOtpAsWritten(table, admins, email, otp, now, production, sign, fault)
    else Outcome(table, Json(ErrorBody("Email and OTP are required"), 400), None)
  }

  /** On string codes the guarded route and the route as written agree. */
  lemma VerifyOtpAgreesOnStrings(table: seq<OtpRecord>, admins: seq<Admin>, email: Field, code: string,
                                 now: int, production: bool, sign: (Claims, int) -> string, fault: Fault)
    ensures VerifyOtp(table, admins, email, Str(code), now, production, sign, fault)
         == VerifyOtpAsWritten(table, admins, email, Str(code), now, production, sign, fault)
  {
  }

  // ---------------------------------------------------------------- properties

  /** After a successful request the table holds exactly the fresh code for the lowercased email, and every other email's codes are untouched. */
  lemma RequestSupersedes(table: seq<OtpRecord>, admins: seq<Admin>, email: Field, now: int, random: real, fault: Fault, other: string)
    requires 0.0 <= random < 1.0
    requires RequestOtp(table, admins, email, now, random, fault).response.status == 200
    ensures var key := ToLower(email.s);
            && RecordsFor(RequestOtp(table, admins, email, now, random, fault).table, key)
               == [OtpRecord(key, GenerateCode(random), now + OtpLifetimeMs)]
            && (other != key ==> RecordsFor(RequestOtp(table, admins, email, now, random, fault).table, other)
                                 == RecordsFor(table, other))
  {
    var key := ToLower(email.s);
    var r := OtpRecord(key, GenerateCode(random), now + OtpLifetimeMs);
    RecordsForAppend(Purge(table, key), r, key);
    RecordsForPurge(table, key, key);
    RecordsForAppend(Purge(table, key), r, other);
    RecordsForPurge(table, key, other);
  }

  /** A request keeps at most one code per email, whatever happens. */
  lemma RequestKeepsAtMostOne(table: seq<OtpRecord>, admins: seq<Admin>, email: Field, now: int, random: real, fault: Fault)
    requires 0.0 <= random < 1.0
    requires AtMostOnePerEmail(table)
    ensures AtMostOnePerEmail(RequestOtp(table, admins, email, now, random, fault).table)
  {
    var o := RequestOtp(table, admins, email, now, random, fault);
    if o.response.status == 200 {
      forall other ensures |RecordsFor(o.table, other)| <= 1 {
        RequestSupersedes(table, admins, email, now, random, fault, other);
      }
    } else if o.table != table {
      PurgeKeepsAtMostOne(table, ToLower(email.s));
    }
  }

  /** A verification keeps at most one code per email, whatever happens. */
  lemma VerifyKeepsAtMostOne(table: seq<OtpRecord>, admins: seq<Admin>, email: Field, otp: Field,
                             now: int, production: bool, sign: (Claims, int) -> string, fault: Fault)
    requires AtMostOnePerEmail(table)
    ensures AtMostOnePerEmail(VerifyOtp(table, admins, email, otp, now, production, sign, fault).table)
  {
    if VerifyOtp(table, admins, email, otp, now, production, sign, fault).response.status == 200 {
      PurgeKeepsAtMostOne(table, ToLower(email.s));
    }
  }

  /** Emails that differ only in letter case reach the same admin and the same code; only the mail's recipient differs. */
  lemma RequestIgnoresCase(table: seq<OtpRecord>, admins: seq<Admin>, e1: string, e2: string, now: int, random: real, fault: Fault)
    requires 0.0 <= random < 1.0
    requires EqualIgnoringCase(e1, e2)
    ensures var o1 := RequestOtp(table, admins, Str(e1), now, random, fault);
            var o2 := RequestOtp(table, admins, Str(e2), now, random, fault);
            && o1.table == o2.table && o1.response == o2.response
            && (o1.mail.Some? <==> o2.mail.Some?)
            && (o1.mail.Some? ==> o1.mail.value.to == e1 && o2.mail.value.to == e2 && o1.mail.value.code == o2.mail.value.code)
  {
    ToLowerIdentifiesCaseVariants(e1, e2);
    assert Truthy(Str(e1)) <==> Truthy(Str(e2));
    var o1 := RequestOtp(table, admins, Str(e1), now, random, fault);
    assert RequestOtp(table, admins, Str(e2), now, random, fault)
        == if o1.mail.Some? then Outcome(o1.table, o1.response, Some(Mail(e2, o1.mail.value.code))) else o1;
  }

  lemma VerifyIgnoresCase(table: seq<OtpRecord>, admins: seq<Admin>, e1: string, e2: string, otp: Field,
                          now: int, production: bool, sign: (Claims, int) -> string, fault: Fault)
    requires EqualIgnoringCase(e1, e2)
    ensures VerifyOtp(table, admins, Str(e1), otp, now, production, sign, fault)
         == VerifyOtp(table, admins, Str(e2), otp, now, production, sign, fault)
  {
    ToLowerIdentifiesCaseVariants(e1, e2);
    assert Truthy(Str(e1)) <==> Truthy(Str(e2));
  }

  /** With no live record holding the code, the wrong code, the expired code and the unknown email all get the same 401, and the table stays. */
  lemma UniformRejection(table: seq<OtpRecord>, admins: seq<Admin>, email: string, code: string,
                         now: int, production: bool, sign: (Claims, int) -> string, fault: Fault)
    requires email != "" && code != "" && (fault.FailAt? ==> fault.step > 1)
    requires forall r :: r in table && r.email == ToLower(email) && r.otp == code ==> r.expiresAt <= now
    ensures VerifyOtp(table, admins, Str(email), Str(code), now, production, sign, fault)
         == Outcome(table, Json(ErrorBody("Invalid or expired OTP"), 401), None)
  {
  }

  /** A code whose `expiresAt` equals the current time no longer matches. */
  lemma ExpiryIsStrict(admins: seq<Admin>, email: string, code: string, now: int, production: bool, sign: (Claims, int) -> string)
    requires email != "" && code != ""
    ensures var table := [OtpRecord(ToLower(email), code, now)];
            VerifyOtp(table, admins, Str(email), Str(code), now, production, sign, NoFault).response.status == 401
  {
    var table := [OtpRecord(ToLower(email), code, now)];
    UniformRejection(table, admins, email, code, now, production, sign, NoFault);
  }

  /** A matching code whose admin is gone gets 404 and is not consumed. */
  lemma MissingAdminKeepsCodes(table: seq<OtpRecord>, admins: seq<Admin>, email: string, code: string,
                               now: int, production: bool, sign: (Claims, int) -> string)
    requires email != "" && code != ""
    requires HasMatch(table, ToLower(email), Str(code), now)
    requires FindAdmin(admins, ToLower(email)).None?
    ensures VerifyOtp(table, admins, Str(email), Str(code), now, production, sign, NoFault)
         == Outcome(table, Json(ErrorBody("Admin not found"), 404), None)
  {
  }

  /** A code that logged in once is gone: the same email and code are refused afterwards. */
  lemma SingleUse(table: seq<OtpRecord>, admins: seq<Admin>, email: Field, otp: Field, now: int,
                  production: bool, sign: (Claims, int) -> string, fault: Fault,
                  again: string, later: int, fault2: Fault)
    requires VerifyOtp(table, admins, email, otp, now, production, sign, fault).response.status == 200
    requires ToLower(again) == ToLower(email.s) && (fault2.FailAt? ==> fault2.step > 1)
    ensures VerifyOtp(VerifyOtp(table, admins, email, otp, now, production, sign, fault).table,
                      admins, Str(again), otp, later, production, sign, fault2).response.status == 401
  {
    var key := ToLower(email.s);
    var t := Purge(table, key);
    assert VerifyOtp(table, admins, email, otp, now, production, sign, fault).table == t;
    ToLowerIdentifiesCaseVariants(again, email.s);
    assert again != "" && ToLower(again) == key;
    forall r | r in t
      ensures r.email != key
    {
      PurgeMembers(table, key, r);
    }
    UniformRejection(t, admins, again, otp.s, later, production, sign, fault2);
  }

  /**
    Round trip: after a successful request at `now`, the code that was mailed
    logs in (with any letter case of the email) at any time before it
    expires, provided the admin table is unchanged; the login consumes it.
   */
  lemma RequestThenVerify(table: seq<OtpRecord>, admins: seq<Admin>, email: string, random: real, now: int,
                          again: string, later: int, production: bool, sign: (Claims, int) -> string)
    requires 0.0 <= random < 1.0
    requires RequestOtp(table, admins, Str(email), now, random, NoFault).response.status == 200
    requires EqualIgnoringCase(again, email) && later < now + OtpLifetimeMs
    ensures var o := RequestOtp(table, admins, Str(email), now, random, NoFault);
            var v := VerifyOtp(o.table, admins, Str(again), Str(o.mail.value.code), later, production, sign, NoFault);
            && v.response.status == 200
            && v.table == Purge(table, ToLower(email))
  {
    var key := ToLower(email);
    var o := RequestOtp(table, admins, Str(email), now, random, NoFault);
    var code := GenerateCode(random);
    var r := OtpRecord(key, code, now + OtpLifetimeMs);
    assert o.table == Purge(table, key) + [r] && o.mail.value.code == code;
    ToLowerIdentifiesCaseVariants(again, email);
    assert again != "" && ToLower(again) == key;
    assert r in o.table && Matches(r, key, Str(code), later);
    assert HasMatch(o.table, key, Str(code), later);
    var v := VerifyOtp(o.table, admins, Str(again), Str(code), later, production, sign, NoFault);
    assert v.response.status == 200;
    assert v.table == Purge(o.table, key);
    PurgeAppend(Purge(table, key), r, key);
    PurgeIdempotent(table, key);
  }

  // ---------------------------------------------------------------- the query-operator finding

  /**
    As written, any query operator (or array) in `otp` that accepts the live
    code logs in: anyone who can have a code issued for the admin's address
    (request-otp is public) logs in without reading the mail.
   */
  lemma OperatorOtpLogsInWithoutCode(table: seq<OtpRecord>, admins: seq<Admin>, email: string, random: real, now: int,
                                     production: bool, sign: (Claims, int) -> string, otp: Field)
    requires 0.0 <= random < 1.0
    requires RequestOtp(table, admins, Str(email), now, random, NoFault).response.status == 200
    requires otp.Operator? && otp.test(GenerateCode(random))
    ensures var o := RequestOtp(table, admins, Str(email), now, random, NoFault);
            var v := VerifyOtpAsWritten(o.table, admins, Str(email), otp, now, production, sign, NoFault);
            var admin := FindAdmin(admins, ToLower(email)).value;
            var claims := Claims(admin.id, admin.email, admin.name);
            && v.response == Response(200, LoginOk("Login successful", claims), Some(LoginCookie(sign(claims, now), production)))
            && v.table == Purge(o.table, ToLower(email))
  {
    var key := ToLower(email);
    var r := OtpRecord(key, GenerateCode(random), now + OtpLifetimeMs);
    assert r in RequestOtp(table, admins, Str(email), now, random, NoFault).table;
    assert Matches(r, key, otp, now);
  }

  /** `{ "$ne": null }` and `{ "$gt": "" }` accept every code the route can issue, without knowing it. */
  lemma BlindOperatorsAcceptEveryCode(random: real)
    requires 0.0 <= random < 1.0
    ensures NotNull().test(GenerateCode(random))
    ensures GreaterThan("").test(GenerateCode(random))
  {
  }

  /** The seeded admin with one live code: any operator accepting that code gets in as written, and is refused when corrected. */
  lemma SeededAdminBypass(otp: Field)
    requires otp.Operator? && otp.test("483920")
    ensures var admins := [Admin("1", "admin@portfolio.com", "Admin User")];
            var table := [OtpRecord("admin@portfolio.com", "483920", 600000)];
            var sign := (c: Claims, t: int) => "tok";
            && VerifyOtpAsWritten(table, admins, Str("admin@portfolio.com"), otp, 0, true, sign, NoFault).response.status == 200
            && VerifyOtp(table, admins, Str("admin@portfolio.com"), otp, 0, true, sign, NoFault).response.status == 400
  {
    var table := [OtpRecord("admin@portfolio.com", "483920", 600000)];
    assert ToLower("admin@portfolio.com") == "admin@portfolio.com";
    assert Matches(table[0], "admin@portfolio.com", otp, 0);
  }

  /** Concrete instances of the bypass, with the seeded admin: `$ne`, `$gt` and an array of guesses. */
  lemma OperatorOtpCounterexample()
    ensures var admins := [Admin("1", "admin@portfolio.com", "Admin User")];
            var table := [OtpRecord("admin@portfolio.com", "483920", 600000)];
            var sign := (c: Claims, t: int) => "tok";
            && VerifyOtpAsWritten(table, admins, Str("admin@portfolio.com"), NotNull(), 0, true, sign, NoFault).response.status == 200
            && VerifyOtpAsWritten(table, admins, Str("admin@portfolio.com"), GreaterThan(""), 0, true, sign, NoFault).response.status == 200
            && VerifyOtpAsWritten(table, admins, Str("admin@portfolio.com"), AnyOf(["111111", "483920"]), 0, true, sign, NoFault).response.status == 200
            && VerifyOtp(table, admins, Str("admin@portfolio.com"), NotNull(), 0, true, sign, NoFault).response.status == 400
            && VerifyOtp(table, admins, Str("admin@portfolio.com"), GreaterThan(""), 0, true, sign, NoFault).response.status == 400
            && VerifyOtp(table, admins, Str("admin@portfolio.com"), AnyOf(["111111", "483920"]), 0, true, sign, NoFault).response.status == 400
  {
    SeededAdminBypass(NotNull());
    SeededAdminBypass(GreaterThan(""));
    SeededAdminBypass(AnyOf(["111111", "483920"]));
  }
}
