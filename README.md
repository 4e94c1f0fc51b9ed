# Portfolio site back end, modelled in Dafny

This project models the server core of a Next.js portfolio site:

- The one-time-password (OTP) admin login. `POST /api/auth/request-otp` issues a six-digit code for an admin's email, valid for ten minutes. `POST /api/auth/verify-otp` consumes the code and sets a seven-day `admin_token` JWT cookie.
- The session gate `authMiddleware` and the session probe `GET /api/auth/check`.
- The content routes for projects, skills and contact messages. Each has a `GET` that returns a sorted list and a `POST` that inserts one document. The gates differ: projects and skills are public to read and gated to write; contact messages are gated to read and public to write.
- The Mongoose schemas `Project`, `Skill` and `Contact`: required paths, the `level` range, email normalisation and defaults.
- The data side of the public skills section: the categories list, the per-category groups and the icon chosen for each category.

Each route handler is a function from the store contents, the request and the clock to the new store contents and the response. Where the source changes state step by step, a class runs the same steps:

- The OTP routes are methods of `OtpRoutes.OtpStore`. Its `otps` field is rewritten by a `deleteMany` loop and then appended to by `create`. `OtpStore.RequestOtp` runs request-otp as written. `OtpStore.VerifyOtp` runs the corrected verify-otp, which refuses a non-string code (see "## Findings"). The as-written verify-otp is only the function `OtpFlow.VerifyOtpAsWritten` and has no step-by-step counterpart.
- The content inserts are `HandlePost` methods over a `Store.Collection`.

Each method is proved to end in exactly the state and response of the matching function. Lemmas about those functions state the properties.

The external world enters as parameters:

- the current time in milliseconds;
- the `Math.random()` draw, as a real in [0, 1);
- the `NODE_ENV === 'production'` flag;
- the token signer and verifier;
- the mail notifier;
- a `Fault` value saying which awaited store call, if any, throws and with what message.

A JSON body field is an `Http.Field`. This brings three things into the model: JavaScript truthiness; the `TypeError` thrown by `toLowerCase` on a non-string; and how Mongoose casts a body value that lands in a query. Numbers and booleans become strings. An object of query operators, or an array, becomes a condition on the stored code. Any other object is a `CastError`.

Codes are drawn from 100000–999999, so a code never starts with 0.

## Model

| member | source | states |
|---|---|---|
| OtpFlow.CodeNumber | app/api/auth/request-otp/route.ts:24 | the drawn code number lies in 100000..999999 for every draw in [0, 1) |
| OtpFlow.GenerateCode | app/api/auth/request-otp/route.ts:24 | the code is six decimal digits with a non-zero first digit, and it reads back as the drawn number |
| OtpFlow.FindAdmin | app/api/auth/request-otp/route.ts:17-21 | finds an admin with exactly this email, and finds none only when no admin has it |
| OtpFlow.Purge | app/api/auth/request-otp/route.ts:27 | `deleteMany({email})` never grows the table, and no record of that email survives it |
| OtpFlow.OtpQueryMatches | app/api/auth/verify-otp/route.ts:18-22 | how Mongoose casts the body's `otp` into the query on the stored code. A JSON number matches a decimal code exactly when it equals the code's value, so `483920` works as well as `"483920"`. A boolean never matches a decimal code. A missing, `null` or uncastable value never matches |
| OtpFlow.RecordsForPurge | app/api/auth/request-otp/route.ts:27 | `deleteMany({email})` removes every record of that email and leaves every other email's records as they were |
| OtpFlow.PurgeIdempotent | app/api/auth/verify-otp/route.ts:36 | deleting one email's codes twice is the same as deleting them once |
| OtpFlow.PurgeKeepsAtMostOne | app/api/auth/request-otp/route.ts:26-27 | deleting codes keeps the at-most-one-code-per-email invariant |
| OtpFlow.RequestOtp | app/api/auth/request-otp/route.ts:7-50 | a falsy email gives 400 "Email is required" with nothing stored. Success (200, "OTP sent successfully", success true) happens exactly when the email is a string of a known admin, compared in lower case, and no store call fails. Then the table is the purged table plus one record (lowercased email, fresh code, now + 10 min), and the code is mailed to the email as typed. Failures send no mail, and the table after any outcome is the old one, the purged one, or the 200 table. Each awaited call that throws once it is reached gives 500 "Failed to send OTP" with its message: `connectDB` and `Admin.findOne` with the table unchanged, `OTP.deleteMany` with the table unchanged, and `OTP.create` with the email's old codes already deleted. A truthy non-string email gives the `toLowerCase` `TypeError` message. An unknown admin gives 404 "Admin not found", with the table unchanged and no mail. The status is always one of 200/400/404/500 |
| OtpFlow.VerifyOtpAsWritten | app/api/auth/verify-otp/route.ts:7-70 | the route as written, where `otp` goes into the query uncast. A falsy email or otp gives 400 "Email and OTP are required". 200 happens exactly when both fields are truthy, the email is a string, some live record for the lowercased email passes the query's test on `otp`, the admin exists and no store call fails. Then that email's codes are deleted, the body echoes the admin's id, email and name, and the `admin_token` cookie holds the token signed over those claims at `now`, whatever form `otp` took. A string email whose query finds no record gives 401 "Invalid or expired OTP", for an operator or array `otp` too. A found record whose admin is gone gives 404 "Admin not found". An object Mongoose cannot cast gives the 500 `CastError` "Cast to string failed for value … (type Object) at path "otp" for model "OTP"". Each awaited call that throws once it is reached gives 500 "Failed to verify OTP" with its message and the table unchanged: `connectDB`, then `OTP.findOne` for a string email, `Admin.findOne` after a match and `OTP.deleteMany` after the admin is found. A truthy non-string email gives the `toLowerCase` `TypeError` message. Every other outcome leaves the table unchanged |
| OtpFlow.VerifyOtp | app/api/auth/verify-otp/route.ts:7-70 | a falsy email or otp, or a non-string otp, gives 400 "Email and OTP are required". A 200 happens exactly when a live record with this lowercased email and this code exists, the admin exists and no store call fails. Then all of that email's codes are deleted, and the body echoes the admin's id, email and name. The cookie is `admin_token`, httpOnly, secure iff production, SameSite strict, maxAge 604800, and holds the token signed over those claims at `now`. For a string code, each awaited call that throws once it is reached gives 500 "Failed to verify OTP" with its message, as in the route as written. Every non-200 response leaves the table unchanged |
| OtpFlow.VerifyOtpAgreesOnStrings | app/api/auth/verify-otp/route.ts:11-26 | for any string code, the corrected route behaves exactly as written |
| OtpFlow.RequestSupersedes | app/api/auth/request-otp/route.ts:26-34 | after a successful request, the email holds exactly the fresh code, and every other email's codes are unchanged |
| OtpFlow.RequestKeepsAtMostOne | app/api/auth/request-otp/route.ts:26-34 | every outcome of a request, failures included, keeps at most one code per email |
| OtpFlow.VerifyKeepsAtMostOne | app/api/auth/verify-otp/route.ts:35-36 | every outcome of a verification keeps at most one code per email |
| OtpFlow.RequestIgnoresCase | app/api/auth/request-otp/route.ts:17-31 | two emails that differ only in letter case give the same table and response and the same mailed code. Only the mail's recipient differs |
| OtpFlow.VerifyIgnoresCase | app/api/auth/verify-otp/route.ts:18-36 | two emails that differ only in letter case give the same verification outcome |
| OtpFlow.UniformRejection | app/api/auth/verify-otp/route.ts:18-26 | a wrong code, an expired code and an unknown email all get the same 401 "Invalid or expired OTP", and the table is not changed |
| OtpFlow.ExpiryIsStrict | app/api/auth/verify-otp/route.ts:21 | a code whose expiry equals the current time is refused (`$gt`) |
| OtpFlow.MissingAdminKeepsCodes | app/api/auth/verify-otp/route.ts:29-33 | a matching code whose admin is gone gives 404, and the code is not consumed |
| OtpFlow.SingleUse | app/api/auth/verify-otp/route.ts:35-36 | after a successful login, the same email (in any case) and the same code are refused with 401 |
| OtpFlow.RequestThenVerify | app/api/auth/request-otp/route.ts:24-37 | round trip: the mailed code logs in, with any letter case of the email and at any time before now + 10 min. The login leaves the table without that email's codes |
| OtpFlow.OperatorOtpLogsInWithoutCode | app/api/auth/verify-otp/route.ts:18-22 | as written, after any successful request, any query operator or array in `otp` that accepts the issued code logs in without the code being supplied: the response is 200 "Login successful" with the admin's claims and the `admin_token` cookie signed over them, and the admin's codes are deleted |
| OtpFlow.BlindOperatorsAcceptEveryCode | app/api/auth/request-otp/route.ts:24 | `{"$ne": null}` and `{"$gt": ""}` accept every code the request route can generate, so an attacker needs no knowledge of the code |
| OtpFlow.OperatorOtpCounterexample | app/api/auth/verify-otp/route.ts:11-22 | a concrete table and admin where the as-written route returns 200 for `{"$ne": null}`, for `{"$gt": ""}` and for an array of guesses holding the code, and the corrected route returns 400 for all three |
| OtpRoutes.OtpStore.constructor | app/api/auth/request-otp/route.ts:30-34 | a new store has no codes, satisfies the invariant and holds the given admins |
| OtpRoutes.OtpStore.FindAdminByEmail | app/api/auth/verify-otp/route.ts:29 | the scan returns exactly `FindAdmin` of the collection |
| OtpRoutes.OtpStore.FindOtp | app/api/auth/verify-otp/route.ts:18-22 | the scan reports a record exactly when some record matches the lowercased email, the code filter and `expiresAt > now` |
| OtpRoutes.OtpStore.DeleteMany | app/api/auth/request-otp/route.ts:27 | the in-place deletion leaves exactly the records of the other emails, in order |
| OtpRoutes.OtpStore.RequestOtp | app/api/auth/request-otp/route.ts:7-50 | the step-by-step handler keeps the invariant. It ends with the table, response and mail of `OtpFlow.RequestOtp` and ignores the notifier's result |
| OtpRoutes.OtpStore.VerifyOtp | app/api/auth/verify-otp/route.ts:7-70 | the step-by-step handler keeps the invariant. It ends with the table and response of `OtpFlow.VerifyOtp` |
| Jwt.Payload | utils/jwt.ts:5-7 | a token signed at time t carries the three claims, with iat = t in whole seconds and exp = iat + 7 days |
| Jwt.SessionWindow | utils/jwt.ts:5 | a token is accepted exactly until the start of second iat + 604800. It is accepted for at least 7 days minus 1 s after signing and never from 7 days after signing on |
| AuthGate.AuthMiddleware | middleware/auth.ts:4-18 | a missing or empty cookie gives 401 "Unauthorized". A token the verifier rejects gives 401 "Invalid token". Otherwise the gate admits, carrying exactly the decoded claims |
| AuthGate.DenialIs401 | middleware/auth.ts:7-15 | every denial is a 401 with one of the two error bodies and sets no cookie |
| AuthGate.Check | app/api/auth/check/route.ts:4-25 | 200 exactly when the cookie is present, non-empty and verifies. Then the body is `authenticated: true` with id, email and name copied from the claims. Otherwise it is 401 `authenticated: false` |
| AuthGate.CheckAgreesWithMiddleware | app/api/auth/check/route.ts:5-15 | the check admits exactly what the middleware admits, and reports the middleware's claims |
| AuthGate.ForgedTokenDenied | middleware/auth.ts:11-15 | with a sound signer, a cookie the signer never produced is denied by the gate and by the check |
| AuthGate.SignedTokenAdmittedUntilExpiry | middleware/auth.ts:11-17 | with a sound signer, a signed token is admitted with its payload exactly while unexpired, and gets "Invalid token" afterwards |
| SessionFlow.LoginCookieOpensGate | app/api/auth/verify-otp/route.ts:39-60 | the cookie a successful login sets opens the gate with the admin's id, email and name exactly while the token is unexpired, and the check route agrees |
| ProjectModel.Violations | models/Project.ts:15-45 | `title`, `description` and `imageUrl` are each reported as required exactly when absent or empty, and no other path is ever reported |
| ProjectModel.ValidIffRequiredPresent | models/Project.ts:16-30 | a body is accepted exactly when its three required strings are present and non-empty |
| ProjectModel.ApplyDefaults | models/Project.ts:24-44 | the stored project keeps the given fields. `technologies` defaults to [], `featured` to false, `order` to 0 and `createdAt` to now. `liveUrl` and `githubUrl` stay absent when not given |
| ProjectModel.Create | models/Project.ts:15-45 | creation succeeds exactly when the three required strings are present and non-empty. Success yields the defaulted document; a rejection carries the model's validation message |
| SkillModel.Violations | models/Skill.ts:12-39 | `name` and `category` are required strings and `level` is required. A present level below 0 or above 100 is reported, and the body is accepted exactly when all of these hold with 0 ≤ level ≤ 100 |
| SkillModel.ApplyDefaults | models/Skill.ts:21-38 | the stored skill keeps name, category and level (within 0..100). `icon` defaults to "Code", `order` to 0 and `createdAt` to now |
| SkillModel.Create | models/Skill.ts:12-39 | creation succeeds exactly for a valid body. The result conforms to the schema; a rejection carries the validation message |
| ContactModel.NormaliseEmail | models/Contact.ts:19-20 | the stored email is lower case with no leading or trailing whitespace, and equals the trimmed input up to letter case |
| ContactModel.NormaliseEmailIdempotent | models/Contact.ts:19-20 | normalising an already normalised email leaves it unchanged |
| ContactModel.Cast | models/Contact.ts:16-21 | casting changes only the email, which it normalises |
| ContactModel.Violations | models/Contact.ts:11-34 | `name`, `email` (after casting) and `message` are each reported exactly when absent or empty |
| ContactModel.ApplyDefaults | models/Contact.ts:26-33 | the stored message keeps name and message and the normalised, non-empty email. `read` defaults to false and `createdAt` to now |
| ContactModel.Create | models/Contact.ts:11-34 | creation succeeds exactly when name and message are present and the email is non-empty after lowercasing and trimming. The stored email is lower case and trimmed |
| ProjectsRoute.ProjectOrderIsTotalPreorder | app/api/projects/route.ts:9 | the sort `{order: 1, createdAt: -1}` is a total preorder |
| ProjectsRoute.Get | app/api/projects/route.ts:6-14 | no gate. On success the response is 200 with every stored project: a permutation of the collection sorted by order ascending, then newest first. An error thrown by `connectDB` or by the query gives 500 with its message |
| ProjectsRoute.Post | app/api/projects/route.ts:16-28 | without a session, the middleware's 401 is returned and nothing is written. 201 happens exactly when authenticated, valid and no call fails, and then exactly the defaulted document is appended and returned. Otherwise the collection is unchanged and an authenticated request gets 500. Its error is the thrown call's message, or the validation message of `Create` when the body is invalid |
| ProjectsRoute.HandlePost | app/api/projects/route.ts:16-28 | the handler over the collection ends in the collection and response of `Post` |
| SkillsRoute.SkillOrderIsTotalPreorder | app/api/skills/route.ts:9 | the sort `{category: 1, order: 1}` is a total preorder |
| SkillsRoute.Get | app/api/skills/route.ts:6-14 | public. On success the response is a permutation of the collection sorted by category and then order. An error thrown by `connectDB` or by the query gives 500 with its message |
| SkillsRoute.Post | app/api/skills/route.ts:16-28 | gate first, then one defaulted skill appended with 201. Any other outcome leaves the collection unchanged. An authenticated failure gives 500 whose error is the thrown call's message, or the validation message of `Create` for an invalid body |
| SkillsRoute.PostKeepsSkillsConforming | app/api/skills/route.ts:23 | a collection of conforming skills stays conforming (names and categories non-empty, levels within 0..100) after any `POST` |
| SkillsRoute.HandlePost | app/api/skills/route.ts:16-28 | the handler over the collection ends in the collection and response of `Post` |
| ContactRoute.ContactOrderIsTotalPreorder | app/api/contact/route.ts:12 | the sort `{createdAt: -1}` is a total preorder |
| ContactRoute.Get | app/api/contact/route.ts:6-17 | gated: without a session it returns the middleware's 401. With one, it returns 200 with every message, newest first, as a permutation. An error thrown by `connectDB` or by the query gives 500 with its message |
| ContactRoute.DeniedGetReadsNothing | app/api/contact/route.ts:7-8 | without a session, the response is the same 401 whatever the store holds and whether or not it fails |
| ContactRoute.Post | app/api/contact/route.ts:19-28 | no gate. 201 happens exactly when the body is valid and no call fails, and then exactly the defaulted message is appended. Otherwise the collection is unchanged and the response is 500. Its error is the thrown call's message, or the validation message of `Create` for an invalid body |
| ContactRoute.HandlePost | app/api/contact/route.ts:19-28 | the handler over the collection ends in the collection and response of `Post` |
| Store.Collection.Insert | app/api/projects/route.ts:23 | a successful `Model.create` appends exactly the one document |
| SkillsView.CategoryList | components/Skills.tsx:31 | `data.map(s => s.category)` keeps one category per skill, position by position |
| SkillsView.Distinct | components/Skills.tsx:31 | the `Set` spread lists each value once, and a value is listed exactly when it occurs in the input |
| SkillsView.Categories | components/Skills.tsx:31 | `categories` has no duplicates and contains a category exactly when some fetched skill has it |
| SkillsView.DistinctFirstOccurrenceOrder | components/Skills.tsx:31 | the `Set` spread lists values in the order of their first occurrence |
| SkillsView.CategoriesInFirstOccurrenceOrder | components/Skills.tsx:31 | `categories` lists categories in the order they first appear in the fetched list |
| SkillsView.Group | components/Skills.tsx:63 | `skills.filter(s => s.category === category)` is never longer than the skills, and all its skills have that category |
| SkillsView.GroupIsOrderedSelection | components/Skills.tsx:63 | a category's group is the skills at strictly increasing positions whose category matches, with every matching position included, in input order |
| SkillsView.GroupsPartitionSkills | components/Skills.tsx:31-63 | the rendered groups together are a permutation of the fetched skills, so their sizes add up to the number of skills |
| SkillsView.ExactlyOneGroup | components/Skills.tsx:61-63 | each skill's category is among `categories`, and the skill is in the group of its own category and in no other |
| SkillsView.SortedSkillsGiveAscendingCategories | components/Skills.tsx:31 | input sorted by the skills route's order gives strictly ascending categories |
| SkillsView.ApiOrderGivesAscendingCategories | app/api/skills/route.ts:9 | the categories of a successful `GET /api/skills` response come out strictly ascending |
| SkillsView.IconFor | components/Skills.tsx:15-20 | Frontend→Code, Backend→Database, AI→Brain, DevOps→Cpu, and any other category → Code |
| SkillsView.IconLookupAsWritten | components/Skills.tsx:62 | as written, the lookup agrees with `IconFor` except on the names `Object.prototype` provides, where it yields the inherited value instead of an icon |
| SkillsView.InheritedIconCounterexample | components/Skills.tsx:62 | the category "constructor" yields the inherited `Object`, where the intended fallback is Code |
| SeedData.SeedSkillsValid | scripts/seed.ts:67-80 | every seeded skill passes the schema, the level bound included |
| SeedData.SeedDocuments | scripts/seed.ts:66-81 | each seeded body creates successfully, and the stored document conforms |
| SeedData.SeedIconsMatchView | scripts/seed.ts:67-80 | each seeded skill's stored icon is the one the skills section draws for its category |
| Http.Truthy | app/api/auth/verify-otp/route.ts:11 | `!field` holds exactly for the JSON values undefined, `null`, `false`, `0` and `""`; every object and array, operators included, is truthy |
| Text.LexLessFirstDifference | app/api/skills/route.ts:9 | the string order of the sorts compares code units: `a` comes first exactly when, after a common prefix, `a` ends while `b` goes on or `a` has the smaller code unit |
| Text.ToLower | models/Contact.ts:19 | lowercasing keeps the length, maps each character, yields lower case and leaves lower-case text unchanged |
| Text.ToLowerIdentifiesCaseVariants | app/api/auth/request-otp/route.ts:17 | two strings lowercase to the same value exactly when they differ only in letter case |
| Text.Trim | models/Contact.ts:20 | the result is trimmed and is the input with whitespace-only prefix and suffix removed |
| Text.LowerCommutesWithTrim | models/Contact.ts:19-20 | lowercasing and trimming commute |
| Text.ParseNatToString | app/api/auth/request-otp/route.ts:24 | `toString()` of a number reads back as the number |
| Text.NatToStringParse | app/api/auth/request-otp/route.ts:24 | a decimal string without a leading zero is the `toString()` of its own value |
| Text.IntToStringOfCanonical | app/api/auth/verify-otp/route.ts:20 | `String(n)` equals a decimal string without a leading zero exactly when `n` is its value |
| Sorting.SortBy | app/api/projects/route.ts:9 | the sorted list is a permutation of the input |
| Sorting.SortBySorted | app/api/projects/route.ts:9 | under a total preorder the result is sorted |

## Left out

- Text.ToLower: only ASCII letters are case-mapped. JavaScript's `toLowerCase` and Mongoose's `lowercase` also map non-ASCII letters.
- OtpFlow.CodeNumber: `Math.random()` is a real in [0, 1). Floating-point rounding of `100000 + r * 900000` is not modelled.
- The mail notifier (utils/email.ts) is not part of this model. It is a parameter whose result the route discards. The notifier catches its own errors, so it never makes the route fail.
- `connectDB`, `request.json()` and every store call are trusted to behave as specified, except that any of them may throw. A thrown error is `Fault.FailAt(step, message)`, and its message appears in the 500 body.
- OtpFlow.RequestOtp, OtpFlow.VerifyOtpAsWritten, OtpFlow.VerifyOtp: the body is taken to be a parsed JSON object whose fields are inputs. A `request.json()` that throws (malformed JSON), and a `null` body whose destructuring throws, are not modelled. In the source, either gives the 500 of the `catch` block before the 400 check. The fault steps of these routes start at `connectDB`.
- Concurrency is not modelled: requests are sequential steps. There is a window between the find (line 18) and the delete (line 36) of verify-otp in which two concurrent verifications could both succeed. The model cannot show that.
- The signing library behind utils/jwt.ts is not part of this model. It is a `Jwt.Signer` that the gate lemmas assume satisfies `SoundSigner`. The fallback secret is configuration.
- models/OTP and models/Admin are not part of this model. Their `otp` and `email` paths are taken to be strings, and the admin collection is read only.
- Mongoose casting of `Model.create` bodies covers only what the routes need: absent fields are `None`. For those bodies, casting of `null`, of non-string values into String paths and of non-numbers into Number paths is not modelled, and neither are unknown body fields, `_id` or `__v`. The verify-otp query does model casting: numbers and booleans become strings there, and operators become conditions.
- ProjectsRoute.Post, SkillsRoute.Post, ContactRoute.Post: the body is taken to be one JSON object. Given an array body, `Model.create` inserts the elements one by one. An invalid element causes a 500 after some elements may already be stored. This also applies to the public `POST /api/contact`. That case is not modelled.
- OtpFlow.VerifyOtpAsWritten: the `CastError` message contains the object as Node's `util.inspect` prints it. That printing is not modelled: it is the `shown` text carried by `Http.OtherObject`.
- OtpFlow.OtpQueryMatches: a query operator is abstracted to the condition it places on the stored code. Operators that Mongoose refuses for a String path are grouped with the other uncastable objects. Which operators those are is not modelled.
- ProjectModel.Create, SkillModel.Create, ContactModel.Create: the `ValidationError` message approximates Mongoose's wording and order. The success conditions are exact.
- ProjectsRoute.Get, SkillsRoute.Get, ContactRoute.Get: the order among documents that tie on every sort key is unspecified by MongoDB. The model uses a stable insertion sort, and the contracts promise only sortedness and permutation.
- The logout route and `[id]` update/delete routes are not part of this model.
- All rendering, animation and React state handling of components/Skills.tsx, and the other UI pages, are left out. So are the drop-and-insert I/O of scripts/seed.ts, whose skill list serves only as data.

## Findings

| source | as written | input that shows it | evidently intended | confidence | as-written member | corrected member |
|---|---|---|---|---|---|---|
| app/api/auth/verify-otp/route.ts:9-22 | the body's `otp` goes into `OTP.findOne` unchecked, so a query operator in the body becomes part of the filter | request a code for the admin, then verify with `{"email": "admin@portfolio.com", "otp": {"$ne": null}}` (or `{"$gt": ""}`, or an array of candidate codes): a live code matches and the admin logs in without having read the mail | only a string code equal to the stored one logs in; a non-string `otp` is refused like a missing one | medium, not executed (depends on Mongoose's `sanitizeFilter` being off, which is the default) | OtpFlow.VerifyOtpAsWritten, OtpFlow.OperatorOtpLogsInWithoutCode, OtpFlow.BlindOperatorsAcceptEveryCode, OtpFlow.OperatorOtpCounterexample | OtpFlow.VerifyOtp |
| components/Skills.tsx:15-20,62 | the lookup `categoryIcons[category]` before the fallback to `Code` also finds properties inherited from `Object.prototype` | a skill stored with category "constructor" makes the section render `Object` as an icon component; "__proto__" yields a non-component | categories outside the four keys fall back to `Code` | medium, not executed | SkillsView.IconLookupAsWritten, SkillsView.InheritedIconCounterexample | SkillsView.IconFor |
