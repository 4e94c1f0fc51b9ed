/**
  The two OTP routes as they run against the store: the OTP collection is a
  field the handlers update step by step (`deleteMany`, then `create`), and
  each handler is proved to end in the state and response that `OtpFlow`
  specifies. The admin collection is only read.
 */
module OtpRoutes {
  import opened Wrappers
  import opened Text
  import opened Jwt
  import opened Http
  import opened OtpFlow

  class OtpStore {
    var otps: seq<OtpRecord>
    var admins: seq<Admin>

    /** Supersession: at most one code per email. */
    ghost predicate Valid()
      reads this
    {
      AtMostOnePerEmail(otps)
    }

    constructor (admins: seq<Admin>)
      ensures Valid() && otps == [] && this.admins == admins
    {
      this.otps := [];
      this.admins := admins;
    }

    /** `Admin.findOne({ email })`, scanning the collection in natural order. */
    method FindAdminByEmail(email: string) returns (found: Option<Admin>)
      ensures found == FindAdmin(admins, email)
    {
      var i := 0;
      while i < |admins|
        invariant 0 <= i <= |admins|
        invariant FindAdmin(admins, email) == FindAdmin(admins[i..], email)
      {
        if admins[i].email == email {
          return Some(admins[i]);
        }
        assert admins[i..][1..] == admins[i + 1..];
        i := i + 1;
      }
      return None;
    }

    /** `OTP.findOne({ email, otp, expiresAt: { $gt: now } })`, reduced to whether a record was found. */
    method FindOtp(key: string, otp: Field, now: int) returns (found: bool)
      ensures found == HasMatch(otps, key, otp, now)
    {
      var i := 0;
      while i < |otps|
        invariant 0 <= i <= |otps|
        invariant forall j :: 0 <= j < i ==> !Matches(otps[j], key, otp, now)
      {
        if Matches(otps[i], key, otp, now) {
          return true;
        }
        i := i + 1;
      }
      return false;
    }

    /** `OTP.deleteMany({ email: key })`. */
    method DeleteMany(key: string)
      modifies this`otps
      ensures otps == Purge(old(otps), key)
    {
      var t := otps;
      var kept: seq<OtpRecord> := [];
      var i := 0;
      while i < |t|
        invariant 0 <= i <= |t|
        invariant kept == Purge(t[..i], key)
      {
        assert t[..i + 1] == t[..i] + [t[i]];
        PurgeAppend(t[..i], t[i], key);
        if t[i].email != key {
          kept := kept + [t[i]];
        }
        i := i + 1;
      }
      assert t[..|t|] == t;
      otps := kept;
    }

    /** `POST /api/auth/request-otp`; `sendOtpEmail` stands for the notifier, whose result the route ignores. */
    method RequestOtp(email: Field, now: int, random: real, sendOtpEmail: (string, string) -> bool, fault: Fault)
      returns (response: Response, mail: Option<Mail>)
      requires Valid() && 0.0 <= random < 1.0
      modifies this`otps
      ensures Valid()
      ensures Outcome(otps, response, mail) == OtpFlow.RequestOtp(old(otps), admins, email, now, random, fault)
    {
      RequestKeepsAtMostOne(otps, admins, email, now, random, fault);
      mail := None;
      if !Truthy(email) {
        return Json(ErrorBody("Email is required"), 400), None;
      }
      if FailsAt(fault, 0) {
        return RequestFailed(fault.message), None;
      }
      if !email.Str? {
        return RequestFailed(NotAStringMessage), None;
      }
      var key := ToLower(email.s);
      if FailsAt(fault, 1) {
        return RequestFailed(fault.message), None;
      }
      var admin := FindAdminByEmail(key);
      if admin.None? {
        return Json(ErrorBody("Admin not found"), 404), None;
      }
      var code := GenerateCode(random);
      if FailsAt(fault, 2) {
        return RequestFailed(fault.message), None;
      }
      DeleteMany(key);
      if FailsAt(fault, 3) {
        return RequestFailed(fault.message), None;
      }
      otps := otps + [OtpRecord(key, code, now + OtpLifetimeMs)];
      var delivered := sendOtpEmail(email.s, code);  // not read: success is reported either way
      mail := Some(Mail(email.s, code));
      response := Json(OtpSent("OTP sent successfully", true), 200);
    }

    /** `POST /api/auth/verify-otp`, with a non-string `otp` refused as missing. */
    method VerifyOtp(email: Field, otp: Field, now: int, production: bool, sign: (Claims, int) -> string, fault: Fault)
      returns (response: Response)
      requires Valid()
      modifies this`otps
      ensures Valid()
      ensures Outcome(otps, response, None) == OtpFlow.VerifyOtp(old(otps), admins, email, otp, now, production, sign, fault)
    {
      VerifyKeepsAtMostOne(otps, admins, email, otp, now, production, sign, fault);
      if !Truthy(email) || !Truthy(otp) || !otp.Str? {
        return Json(ErrorBody("Email and OTP are required"), 400);
      }
      if FailsAt(fault, 0) {
        return VerifyFailed(fault.message);
      }
      if !email.Str? {
        return VerifyFailed(NotAStringMessage);
      }
      var key := ToLower(email.s);
      if FailsAt(fault, 1) {
        return VerifyFailed(fault.message);
      }
      var found := FindOtp(key, otp, now);
      if !found {
        return Json(ErrorBody("Invalid or expired OTP"), 401);
      }
      if FailsAt(fault, 2) {
        return VerifyFailed(fault.message);
      }
      var admin := FindAdminByEmail(key);
      if admin.None? {
        return Json(ErrorBody("Admin not found"), 404);
      }
      if FailsAt(fault, 3) {
        return VerifyFailed(fault.message);
      }
      DeleteMany(key);
      var claims := Claims(admin.value.id, admin.value.email, admin.value.name);
      var token := sign(claims, now);
      response := Response(200, LoginOk("Login successful", claims), Some(LoginCookie(token, production)));
    }
  }
}
