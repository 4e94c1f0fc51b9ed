/** `SkillSchema` (models/Skill.ts): required fields, the `level` range and defaults. */
module SkillModel {
  import opened Wrappers
  import opened Validation

  const MinLevel: int := 0
  const MaxLevel: int := 100
  const DefaultIcon: string := "Code"

  datatype SkillInput = SkillInput(
    name: Option<string>,
    category: Option<string>,
    level: Option<int>,
    icon: Option<string>,
    order: Option<int>,
    createdAt: Option<int>)

  datatype Skill = Skill(name: string, category: string, level: int, icon: string, order: int, createdAt: int)

  /** The failing paths, in schema order; `min`/`max` are checked only on a present `level`. */
  function Violations(s: SkillInput): (vs: seq<Violation>)
    ensures Required("name") in vs <==> !RequiredString(s.name)
    ensures Required("category") in vs <==> !RequiredString(s.category)
    ensures Required("level") in vs <==> s.level.None?
    ensures s.level.Some? && s.level.value < MinLevel ==> BelowMin("level", s.level.value, MinLevel) in vs
    ensures s.level.Some? && s.level.value > MaxLevel ==> AboveMax("level", s.level.value, MaxLevel) in vs
    ensures vs == [] <==> RequiredString(s.name) && RequiredString(s.category)
                          && s.level.Some? && MinLevel <= s.level.value <= MaxLevel
  {
    (if RequiredString(s.name) then [] else [Required("name")])
    + (if RequiredString(s.category) then [] else [Required("category")])
    + match s.level
      case None => [Required("level")]
      case Some(x) =>
        if x < MinLevel then [BelowMin("level", x, MinLevel)]
        else if x > MaxLevel then [AboveMax("level", x, MaxLevel)]
        else []
  }

  predicate Valid(s: SkillInput)
  {
    Violations(s) == []
  }

  /** The document Mongoose stores for a valid body at time `now`. */
  function ApplyDefaults(s: SkillInput, now: int): (d: Skill)
    requires Valid(s)
    ensures Some(d.name) == s.name && Some(d.category) == s.category && Some(d.level) == s.level
    ensures MinLevel <= d.level <= MaxLevel
    ensures d.icon == if s.icon.Some? then s.icon.value else DefaultIcon
    ensures d.order == if s.order.Some? then s.order.value else 0
    ensures d.createdAt == if s.createdAt.Some? then s.createdAt.value else now
  {
    Skill(
      s.name.value, s.category.value, s.level.value,
      match s.icon case Some(i) => i case None => DefaultIcon,
      match s.order case Some(n) => n case None => 0,
      match s.createdAt case Some(t) => t case None => now)
  }

  /** A stored skill satisfies the schema's constraints. */
  predicate Conforms(d: Skill)
  {
    d.name != "" && d.category != "" && MinLevel <= d.level <= MaxLevel
  }

  /** `Skill.create(body)`. */
  function Create(s: SkillInput, now: int): (r: Result<Skill, string>)
    ensures r.Success? <==> Valid(s)
    ensures r.Success? ==> r.value == ApplyDefaults(s, now) && Conforms(r.value)
    ensures r.Failure? ==> r.error == ValidationMessage("Skill", Violations(s))
  {
    if Valid(s) then Success(ApplyDefaults(s, now)) else Failure(ValidationMessage("Skill", Violations(s)))
  }
}
