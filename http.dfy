/**
  The request and response values the route handlers exchange: JSON body
  fields with JavaScript truthiness, `NextResponse.json(body, { status })`,
  the session cookie, and the points at which a store call can throw.
 */
module Http {
  import opened Wrappers
  import Jwt
  import ProjectModel
  import SkillModel
  import ContactModel

  /**
    One field of a parsed JSON request body, as a query on a String path sees
    it. `Operator(test)` is an object of query operators (`$ne`, `$gt`, `$in`,
    `$regex`, ...) that Mongoose accepts for a String path, or an array, which
    it turns into `$in`; `test` is the condition it puts on the stored string.
    `OtherObject(shown)` is an object Mongoose cannot cast to a string;
    `shown` is how Node's `util.inspect` prints it, which is not modelled.
   */
  datatype Field =
    | Missing
    | Null
    | Bool(b: bool)
    | Num(n: int)
    | Str(s: string)
    | Operator(test: string -> bool)
    | OtherObject(shown: string)

  /** JavaScript truthiness: `!field` is false exactly for a truthy field. */
  predicate Truthy(f: Field)
    ensures !Truthy(f) <==> f.Missing? || f.Null? || (f.Bool? && !f.b) || (f.Num? && f.n == 0) || (f.Str? && f.s == "")
    ensures f.Operator? || f.OtherObject? ==> Truthy(f)
  {
    match f
    case Missing => false
    case Null => false
    case Bool(b) => b
    case Num(n) => n != 0
    case Str(s) => s != ""
    case Operator(_) => true
    case OtherObject(_) => true
  }

  /**
    A handler's awaited external calls (parsing the body, `connectDB`, store
    queries and writes) numbered in order from 0. `FailAt(k, m)` says that the
    first `k` succeed and call `k` throws an error whose message is `m`.
   */
  datatype Fault = NoFault | FailAt(step: nat, message: string)

  predicate FailsAt(f: Fault, step: nat)
  {
    f.FailAt? && f.step == step
  }

  datatype SameSite = Strict | Lax | NoSameSite

  datatype Cookie = Cookie(name: string, value: string, httpOnly: bool, secure: bool, sameSite: SameSite, maxAge: int)

  datatype Body =
    | ErrorBody(error: string)
    | ErrorDetails(error: string, details: string)
    | OtpSent(message: string, success: bool)
    | LoginOk(message: string, admin: Jwt.Claims)
    | AuthStatus(authenticated: bool, who: Option<Jwt.Claims>)
    | ProjectList(projects: seq<ProjectModel.Project>)
    | ProjectDoc(project: ProjectModel.Project)
    | SkillList(skills: seq<SkillModel.Skill>)
    | SkillDoc(skill: SkillModel.Skill)
    | ContactList(contacts: seq<ContactModel.Contact>)
    | ContactDoc(contact: ContactModel.Contact)

  /** A response; `cookie` is a `Set-Cookie` the handler attached. The status of `NextResponse.json(body)` is 200. */
  datatype Response = Response(status: int, body: Body, cookie: Option<Cookie>)

  function Json(body: Body, status: int): Response
  {
    Response(status, body, None)
  }
}
