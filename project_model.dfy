/** `ProjectSchema` (models/Project.ts): required fields and defaults. */
module ProjectModel {
  import opened Wrappers
  import opened Validation

  /** The body fields `Project.create` reads; `None` is a field the body leaves out. */
  datatype ProjectInput = ProjectInput(
    title: Option<string>,
    description: Option<string>,
    technologies: Option<seq<string>>,
    imageUrl: Option<string>,
    liveUrl: Option<string>,
    githubUrl: Option<string>,
    featured: Option<bool>,
    order: Option<int>,
    createdAt: Option<int>)

  /** A stored project; `createdAt` is a time in milliseconds. */
  datatype Project = Project(
    title: string,
    description: string,
    technologies: seq<string>,
    imageUrl: string,
    liveUrl: Option<string>,
    githubUrl: Option<string>,
    featured: bool,
    order: int,
    createdAt: int)

  /** The failing paths, in schema order. */
  function Violations(p: ProjectInput): (vs: seq<Violation>)
    ensures Required("title") in vs <==> !RequiredString(p.title)
    ensures Required("description") in vs <==> !RequiredString(p.description)
    ensures Required("imageUrl") in vs <==> !RequiredString(p.imageUrl)
    ensures forall v :: v in vs ==> v.Required? && v.path in {"title", "description", "imageUrl"}
  {
    (if RequiredString(p.title) then [] else [Required("title")])
    + (if RequiredString(p.description) then [] else [Required("description")])
    + (if RequiredString(p.imageUrl) then [] else [Required("imageUrl")])
  }

  predicate Valid(p: ProjectInput)
  {
    Violations(p) == []
  }

  /** A body is accepted exactly when its three required strings are present and non-empty. */
  lemma ValidIffRequiredPresent(p: ProjectInput)
    ensures Valid(p) <==> RequiredString(p.title) && RequiredString(p.description) && RequiredString(p.imageUrl)
  {
    if !RequiredString(p.title) { assert Required("title") in Violations(p); }
    if !RequiredString(p.description) { assert Required("description") in Violations(p); }
    if !RequiredString(p.imageUrl) { assert Required("imageUrl") in Violations(p); }
  }

  /** The document Mongoose stores for a valid body at time `now`. */
  function ApplyDefaults(p: ProjectInput, now: int): (d: Project)
    requires Valid(p)
    ensures Some(d.title) == p.title && Some(d.description) == p.description && Some(d.imageUrl) == p.imageUrl
    ensures d.liveUrl == p.liveUrl && d.githubUrl == p.githubUrl
    ensures d.technologies == if p.technologies.Some? then p.technologies.value else []
    ensures d.featured <==> p.featured == Some(true)
    ensures d.order == if p.order.Some? then p.order.value else 0
    ensures d.createdAt == if p.createdAt.Some? then p.createdAt.value else now
  {
    ValidIffRequiredPresent(p);
    Project(
      p.title.value, p.description.value,
      match p.technologies case Some(ts) => ts case None => [],
      p.imageUrl.value, p.liveUrl, p.githubUrl,
      match p.featured case Some(b) => b case None => false,
      match p.order case Some(n) => n case None => 0,
      match p.createdAt case Some(t) => t case None => now)
  }

  /** `Project.create(body)`: validate, then apply defaults; a rejection carries the validation message. */
  function Create(p: ProjectInput, now: int): (r: Result<Project, string>)
    ensures r.Success? <==> RequiredString(p.title) && RequiredString(p.description) && RequiredString(p.imageUrl)
    ensures r.Success? ==> Valid(p) && r.value == ApplyDefaults(p, now)
    ensures r.Failure? ==> r.error == ValidationMessage("Project", Violations(p))
  {
    ValidIffRequiredPresent(p);
    if Valid(p) then Success(ApplyDefaults(p, now)) else Failure(ValidationMessage("Project", Violations(p)))
  }
}
