/** app/api/projects/route.ts: a public sorted read and a gated insert. */
module ProjectsRoute {
  import opened Wrappers
  import opened Sorting
  import opened Jwt
  import opened Http
  import opened AuthGate
  import opened ProjectModel
  import opened Store

  /** The sort specification `{ order: 1, createdAt: -1 }`. */
  predicate ProjectOrder(a: Project, b: Project)
  {
    a.order < b.order || (a.order == b.order && a.createdAt >= b.createdAt)
  }

  lemma ProjectOrderIsTotalPreorder()
    ensures TotalPreorder(ProjectOrder)
  {
  }

  /**
    `GET /api/projects`: no gate; every project, by `order` ascending and then newest first.
    Awaited calls: 0 `connectDB`, 1 `Project.find().sort(...)`.
   */
  function Get(docs: seq<Project>, fault: Fault): (r: Response)
    ensures (FailsAt(fault, 0) || FailsAt(fault, 1)) ==> r == Json(ErrorBody(fault.message), 500)
    ensures !FailsAt(fault, 0) && !FailsAt(fault, 1) ==>
              && r.status == 200 && r.body.ProjectList?
              && multiset(r.body.projects) == multiset(docs)
              && SortedBy(r.body.projects, ProjectOrder)
  {
    if FailsAt(fault, 0) || FailsAt(fault, 1) then Json(ErrorBody(fault.message), 500)
    else
      ProjectOrderIsTotalPreorder();
      SortBySorted(docs, ProjectOrder);
      Json(ProjectList(SortBy(docs, ProjectOrder)), 200)
  }

  /**
    `POST /api/projects`. The gate runs first; after it the awaited calls are
    0 `request.json()`, 1 `connectDB`, 2 the write of `Project.create`.
   */
  function Post(docs: seq<Project>, cookies: map<string, string>, verifyToken: string -> Option<Decoded>,
                body: ProjectInput, now: int, fault: Fault): (w: Written<Project>)
    ensures !Authenticated(cookies, verifyToken) ==> w == Written(docs, AuthMiddleware(cookies, verifyToken).response)
    ensures w.response.status == 201 <==>
              Authenticated(cookies, verifyToken) && Create(body, now).Success? && (fault.FailAt? ==> fault.step > 2)
    ensures w.response.status == 201 ==>
              w.docs == docs + [ApplyDefaults(body, now)] && w.response == Json(ProjectDoc(ApplyDefaults(body, now)), 201)
    ensures w.response.status != 201 ==> w.docs == docs
    ensures Authenticated(cookies, verifyToken) && w.response.status != 201 ==>
              w.response.status == 500 && w.response.body.ErrorBody?
    ensures Authenticated(cookies, verifyToken) && (FailsAt(fault, 0) || FailsAt(fault, 1)) ==>
              w == Written(docs, Json(ErrorBody(fault.message), 500))
    ensures Authenticated(cookies, verifyToken) && !FailsAt(fault, 0) && !FailsAt(fault, 1) && Create(body, now).Failure? ==>
              w == Written(docs, Json(ErrorBody(Create(body, now).error), 500))
    ensures Authenticated(cookies, verifyToken) && Create(body, now).Success? && FailsAt(fault, 2) ==>
              w == Written(docs, Json(ErrorBody(fault.message), 500))
  {
    match AuthMiddleware(cookies, verifyToken)
    case Deny(response) => Written(docs, response)
    case Admit(_) =>
      if FailsAt(fault, 0) || FailsAt(fault, 1) then Written(docs, Json(ErrorBody(fault.message), 500))
      else
        match Create(body, now)
        case Failure(message) => Written(docs, Json(ErrorBody(message), 500))
        case Success(doc) =>
          if FailsAt(fault, 2) then Written(docs, Json(ErrorBody(fault.message), 500))
          else Written(docs + [doc], Json(ProjectDoc(doc), 201))
  }

  /** `POST /api/projects` against the collection. */
  method HandlePost(projects: Collection<Project>, cookies: map<string, string>, verifyToken: string -> Option<Decoded>,
                    body: ProjectInput, now: int, fault: Fault) returns (response: Response)
    modifies projects
    ensures Written(projects.docs, response) == Post(old(projects.docs), cookies, verifyToken, body, now, fault)
  {
    var gate := AuthMiddleware(cookies, verifyToken);
    if gate.Deny? {
      return gate.response;
    }
    if FailsAt(fault, 0) || FailsAt(fault, 1) {
      return Json(ErrorBody(fault.message), 500);
    }
    var created := Create(body, now);
    if created.Failure? {
      return Json(ErrorBody(created.error), 500);
    }
    if FailsAt(fault, 2) {
      return Json(ErrorBody(fault.message), 500);
    }
    projects.Insert(created.value);
    response := Json(ProjectDoc(created.value), 201);
  }
}
