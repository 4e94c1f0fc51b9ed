/** `ContactSchema` (models/Contact.ts): required fields, email normalisation and defaults. */
module ContactModel {
  import opened Wrappers
  import opened Text
  import opened Validation

  datatype ContactInput = ContactInput(
    name: Option<string>,
    email: Option<string>,
    message: Option<string>,
    read: Option<bool>,
    createdAt: Option<int>)

  datatype Contact = Contact(name: string, email: string, message: string, read: bool, createdAt: int)

  /** The `lowercase` then `trim` setters of the `email` path. */
  function NormaliseEmail(e: string): (r: string)
    ensures IsLower(r) && IsTrimmed(r)
    ensures EqualIgnoringCase(r, Trim(e))
  {
    LowerCommutesWithTrim(e);
    ToLowerIdentifiesCaseVariants(ToLower(Trim(e)), Trim(e));
    Trim(ToLower(e))
  }

  /** Normalising an already normalised address changes nothing. */
  lemma NormaliseEmailIdempotent(e: string)
    ensures NormaliseEmail(NormaliseEmail(e)) == NormaliseEmail(e)
  {
    var n := NormaliseEmail(e);
    assert ToLower(n) == n;
    TrimOfTrimmed(n);
  }

  /** The body after casting: setters run before validation. */
  function Cast(c: ContactInput): (r: ContactInput)
    ensures r.email.Some? <==> c.email.Some?
    ensures r.email.Some? ==> r.email.value == NormaliseEmail(c.email.value)
    ensures r.name == c.name && r.message == c.message && r.read == c.read && r.createdAt == c.createdAt
  {
    c.(email := match c.email case Some(e) => Some(NormaliseEmail(e)) case None => None)
  }

  /** The failing paths of a cast body, in schema order. */
  function Violations(c: ContactInput): (vs: seq<Violation>)
    ensures Required("name") in vs <==> !RequiredString(c.name)
    ensures Required("email") in vs <==> !RequiredString(c.email)
    ensures Required("message") in vs <==> !RequiredString(c.message)
    ensures vs == [] <==> RequiredString(c.name) && RequiredString(c.email) && RequiredString(c.message)
  {
    (if RequiredString(c.name) then [] else [Required("name")])
    + (if RequiredString(c.email) then [] else [Required("email")])
    + (if RequiredString(c.message) then [] else [Required("message")])
  }

  predicate Valid(c: ContactInput)
  {
    Violations(Cast(c)) == []
  }

  /** The document Mongoose stores for a valid body at time `now`. */
  function ApplyDefaults(c: ContactInput, now: int): (d: Contact)
    requires Valid(c)
    ensures Some(d.name) == c.name && Some(d.message) == c.message
    ensures c.email.Some? && d.email == NormaliseEmail(c.email.value) && d.email != ""
    ensures d.read <==> c.read == Some(true)
    ensures d.createdAt == if c.createdAt.Some? then c.createdAt.value else now
  {
    Contact(
      c.name.value, NormaliseEmail(c.email.value), c.message.value,
      match c.read case Some(b) => b case None => false,
      match c.createdAt case Some(t) => t case None => now)
  }

  /** `Contact.create(body)`: an address that is all whitespace fails `required` once trimmed. */
  function Create(c: ContactInput, now: int): (r: Result<Contact, string>)
    ensures r.Success? <==> RequiredString(c.name) && RequiredString(c.message)
                            && c.email.Some? && NormaliseEmail(c.email.value) != ""
    ensures r.Success? ==> r.value == ApplyDefaults(c, now) && IsLower(r.value.email) && IsTrimmed(r.value.email)
    ensures r.Failure? ==> r.error == ValidationMessage("Contact", Violations(Cast(c)))
  {
    if Valid(c) then Success(ApplyDefaults(c, now)) else Failure(ValidationMessage("Contact", Violations(Cast(c))))
  }
}
