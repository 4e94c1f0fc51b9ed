/** app/api/contact/route.ts: a gated sorted read and a public insert. */
module ContactRoute {
  import opened Wrappers
  import opened Sorting
  import opened Jwt
  import opened Http
  import opened AuthGate
  import opened ContactModel
  import opened Store

  /** The sort specification `{ createdAt: -1 }`: newest first. */
  predicate ContactOrder(a: Contact, b: Contact)
  {
    a.createdAt >= b.createdAt
  }

  lemma ContactOrderIsTotalPreorder()
    ensures TotalPreorder(ContactOrder)
  {
  }

  /**
    `GET /api/contact`: the gate runs before `connectDB`; then every message, newest first.
    Awaited calls: 0 `connectDB`, 1 `Contact.find().sort(...)`.
   */
  function Get(docs: seq<Contact>, cookies: map<string, string>, verifyToken: string -> Option<Decoded>, fault: Fault): (r: Response)
    ensures !Authenticated(cookies, verifyToken) ==> r == AuthMiddleware(cookies, verifyToken).response
    ensures Authenticated(cookies, verifyToken) && (FailsAt(fault, 0) || FailsAt(fault, 1)) ==> r == Json(ErrorBody(fault.message), 500)
    ensures Authenticated(cookies, verifyToken) && !FailsAt(fault, 0) && !FailsAt(fault, 1) ==>
              && r.status == 200 && r.body.ContactList?
              && multiset(r.body.contacts) == multiset(docs)
              && SortedBy(r.body.contacts, ContactOrder)
  {
    match AuthMiddleware(cookies, verifyToken)
    case Deny(response) => response
    case Admit(_) =>
      if FailsAt(fault, 0) || FailsAt(fault, 1) then Json(ErrorBody(fault.message), 500)
      else
        ContactOrderIsTotalPreorder();
        SortBySorted(docs, ContactOrder);
        Json(ContactList(SortBy(docs, ContactOrder)), 200)
  }

  /** Without a session the read reveals nothing: the response is the same whatever the store holds or does. */
  lemma DeniedGetReadsNothing(docs1: seq<Contact>, docs2: seq<Contact>, cookies: map<string, string>,
                              verifyToken: string -> Option<Decoded>, fault1: Fault, fault2: Fault)
    requires !Authenticated(cookies, verifyToken)
    ensures Get(docs1, cookies, verifyToken, fault1) == Get(docs2, cookies, verifyToken, fault2)
    ensures Get(docs1, cookies, verifyToken, fault1).status == 401
  {
  }

  /** `POST /api/contact`: no gate. Awaited calls: 0 `request.json()`, 1 `connectDB`, 2 the write of `Contact.create`. */
  function Post(docs: seq<Contact>, body: ContactInput, now: int, fault: Fault): (w: Written<Contact>)
    ensures w.response.status == 201 <==> Valid(body) && (fault.FailAt? ==> fault.step > 2)
    ensures w.response.status == 201 ==>
              w.docs == docs + [ApplyDefaults(body, now)] && w.response == Json(ContactDoc(ApplyDefaults(body, now)), 201)
    ensures w.response.status != 201 ==> w.docs == docs && w.response.status == 500 && w.response.body.ErrorBody?
    ensures FailsAt(fault, 0) || FailsAt(fault, 1) ==> w == Written(docs, Json(ErrorBody(fault.message), 500))
    ensures !FailsAt(fault, 0) && !FailsAt(fault, 1) && Create(body, now).Failure? ==>
              w == Written(docs, Json(ErrorBody(Create(body, now).error), 500))
    ensures Create(body, now).Success? && FailsAt(fault, 2) ==> w == Written(docs, Json(ErrorBody(fault.message), 500))
  {
    if FailsAt(fault, 0) || FailsAt(fault, 1) then Written(docs, Json(ErrorBody(fault.message), 500))
    else
      match Create(body, now)
      case Failure(message) => Written(docs, Json(ErrorBody(message), 500))
      case Success(doc) =>
        if FailsAt(fault, 2) then Written(docs, Json(ErrorBody(fault.message), 500))
        else Written(docs + [doc], Json(ContactDoc(doc), 201))
  }

  /** `POST /api/contact` against the collection. */
  method HandlePost(contacts: Collection<Contact>, body: ContactInput, now: int, fault: Fault) returns (response: Response)
    modifies contacts
    ensures Written(contacts.docs, response) == Post(old(contacts.docs), body, now, fault)
  {
    if FailsAt(fault, 0) || FailsAt(fault, 1) {
      return Json(ErrorBody(fault.message), 500);
    }
    var created := Create(body, now);
    if created.Failure? {
      return Json(ErrorBody(created.error), 500);
    }
    if FailsAt(fault, 2) {
      return Json(ErrorBody(fault.message), 500);
    }
    contacts.Insert(created.value);
    response := Json(ContactDoc(created.value), 201);
  }
}
