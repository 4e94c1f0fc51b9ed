/** app/api/skills/route.ts: a public sorted read and a gated insert. */
module SkillsRoute {
  import opened Wrappers
  import opened Text
  import opened Sorting
  import opened Jwt
  import opened Http
  import opened AuthGate
  import opened SkillModel
  import opened Store

  /** The sort specification `{ category: 1, order: 1 }`. */
  predicate SkillOrder(a: Skill, b: Skill)
  {
    LexLess(a.category, b.category) || (a.category == b.category && a.order <= b.order)
  }

  lemma SkillOrderIsTotalPreorder()
    ensures TotalPreorder(SkillOrder)
  {
    forall a: Skill, b: Skill
      ensures SkillOrder(a, b) || SkillOrder(b, a)
    {
      LexLessTotal(a.category, b.category);
    }
    forall a: Skill, b: Skill, c: Skill | SkillOrder(a, b) && SkillOrder(b, c)
      ensures SkillOrder(a, c)
    {
      if LexLess(a.category, b.category) && LexLess(b.category, c.category) {
        LexLessTransitive(a.category, b.category, c.category);
      }
    }
  }

  /**
    `GET /api/skills`: no gate; every skill, by `category` and then `order`.
    Awaited calls: 0 `connectDB`, 1 `Skill.find().sort(...)`.
   */
  function Get(docs: seq<Skill>, fault: Fault): (r: Response)
    ensures (FailsAt(fault, 0) || FailsAt(fault, 1)) ==> r == Json(ErrorBody(fault.message), 500)
    ensures !FailsAt(fault, 0) && !FailsAt(fault, 1) ==>
              && r.status == 200 && r.body.SkillList?
              && multiset(r.body.skills) == multiset(docs)
              && SortedBy(r.body.skills, SkillOrder)
  {
    if FailsAt(fault, 0) || FailsAt(fault, 1) then Json(ErrorBody(fault.message), 500)
    else
      SkillOrderIsTotalPreorder();
      SortBySorted(docs, SkillOrder);
      Json(SkillList(SortBy(docs, SkillOrder)), 200)
  }

  /**
    `POST /api/skills`. The gate runs first; after it the awaited calls are
    0 `request.json()`, 1 `connectDB`, 2 the write of `Skill.create`.
   */
  function Post(docs: seq<Skill>, cookies: map<string, string>, verifyToken: string -> Option<Decoded>,
                body: SkillInput, now: int, fault: Fault): (w: Written<Skill>)
    ensures !Authenticated(cookies, verifyToken) ==> w == Written(docs, AuthMiddleware(cookies, verifyToken).response)
    ensures w.response.status == 201 <==>
              Authenticated(cookies, verifyToken) && Valid(body) && (fault.FailAt? ==> fault.step > 2)
    ensures w.response.status == 201 ==>
              w.docs == docs + [ApplyDefaults(body, now)] && w.response == Json(SkillDoc(ApplyDefaults(body, now)), 201)
    ensures w.response.status != 201 ==> w.docs == docs
    ensures Authenticated(cookies, verifyToken) && w.response.status != 201 ==>
              w.response.status == 500 && w.response.body.ErrorBody?
    ensures Authenticated(cookies, verifyToken) && (FailsAt(fault, 0) || FailsAt(fault, 1)) ==>
              w == Written(docs, Json(ErrorBody(fault.message), 500))
    ensures Authenticated(cookies, verifyToken) && !FailsAt(fault, 0) && !FailsAt(fault, 1) && Create(body, now).Failure? ==>
              w == Written(docs, Json(ErrorBody(Create(body, now).error), 500))
    ensures Authenticated(cookies, verifyToken) && Create(body, now).Success? && FailsAt(fault, 2) ==>
              w == Written(docs, Json(ErrorBody(fault.message), 500))
  {
    match AuthMiddleware(cookies, verifyToken)
    case Deny(response) => Written(docs, response)
    case Admit(_) =>
      if FailsAt(fault, 0) || FailsAt(fault, 1) then Written(docs, Json(ErrorBody(fault.message), 500))
      else
        match Create(body, now)
        case Failure(message) => Written(docs, Json(ErrorBody(message), 500))
        case Success(doc) =>
          if FailsAt(fault, 2) then Written(docs, Json(ErrorBody(fault.message), 500))
          else Written(docs + [doc], Json(SkillDoc(doc), 201))
  }

  /** Every skill an authenticated insert can add satisfies the schema, the level bound included. */
  lemma PostKeepsSkillsConforming(docs: seq<Skill>, cookies: map<string, string>, verifyToken: string -> Option<Decoded>,
                                  body: SkillInput, now: int, fault: Fault)
    requires forall d :: d in docs ==> Conforms(d)
    ensures forall d :: d in Post(docs, cookies, verifyToken, body, now, fault).docs ==> Conforms(d)
  {
  }

  /** `POST /api/skills` against the collection. */
  method HandlePost(skills: Collection<Skill>, cookies: map<string, string>, verifyToken: string -> Option<Decoded>,
                    body: SkillInput, now: int, fault: Fault) returns (response: Response)
    modifies skills
    ensures Written(skills.docs, response) == Post(old(skills.docs), cookies, verifyToken, body, now, fault)
  {
    var gate := AuthMiddleware(cookies, verifyToken);
    if gate.Deny? {
      return gate.response;
    }
    if FailsAt(fault, 0) || FailsAt(fault, 1) {
      return Json(ErrorBody(fault.message), 500);
    }
    var created := Create(body, now);
    if created.Failure? {
      return Json(ErrorBody(created.error), 500);
    }
    if FailsAt(fault, 2) {
      return Json(ErrorBody(fault.message), 500);
    }
    skills.Insert(created.value);
    response := Json(SkillDoc(created.value), 201);
  }
}
