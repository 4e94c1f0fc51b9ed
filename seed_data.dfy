/** The sample skills of scripts/seed.ts, checked against the schema and the view. */
module SeedData {
  import opened Wrappers
  import opened SkillModel
  import SkillsView

  function Sample(name: string, category: string, level: int, icon: string, order: int): SkillInput
  {
    SkillInput(Some(name), Some(category), Some(level), Some(icon), Some(order), None)
  }

  /** The bodies passed to `Skill.insertMany`. */
  const SeedSkills: seq<SkillInput> := [
    Sample("React", "Frontend", 95, "Code", 1),
    Sample("Next.js", "Frontend", 90, "Code", 2),
    Sample("TypeScript", "Frontend", 92, "Code", 3),
    Sample("Tailwind CSS", "Frontend", 88, "Code", 4),
    Sample("Node.js", "Backend", 90, "Database", 1),
    Sample("Python", "Backend", 85, "Database", 2),
    Sample("MongoDB", "Backend", 87, "Database", 3),
    Sample("PostgreSQL", "Backend", 83, "Database", 4),
    Sample("Machine Learning", "AI", 88, "Brain", 1),
    Sample("GPT Integration", "AI", 90, "Brain", 2),
    Sample("TensorFlow", "AI", 82, "Brain", 3),
    Sample("Docker", "DevOps", 85, "Cpu", 1),
    Sample("AWS", "DevOps", 80, "Cpu", 2),
    Sample("CI/CD", "DevOps", 87, "Cpu", 3)
  ]

  /** Every seeded skill passes the schema, the level bound included. */
  lemma SeedSkillsValid()
    ensures forall i :: 0 <= i < |SeedSkills| ==> Valid(SeedSkills[i])
  {
  }

  /** The documents the seed stores at time `now`. */
  function SeedDocuments(now: int): (docs: seq<Skill>)
    ensures |docs| == |SeedSkills|
    ensures forall i :: 0 <= i < |SeedSkills| ==>
              Create(SeedSkills[i], now) == Success(docs[i]) && Conforms(docs[i])
  {
    SeedSkillsValid();
    seq(|SeedSkills|, i requires 0 <= i < |SeedSkills| => ApplyDefaults(SeedSkills[i], now))
  }

  /** Each seeded icon is the one the skills view draws for that category. */
  lemma SeedIconsMatchView(now: int)
    ensures forall d :: d in SeedDocuments(now) ==> d.icon == SkillsView.IconValue(SkillsView.IconFor(d.category))
  {
    var docs := SeedDocuments(now);
    SeedIconsByCategory();
    forall d | d in docs
      ensures d.icon == SkillsView.IconValue(SkillsView.IconFor(d.category))
    {
      var i :| 0 <= i < |docs| && docs[i] == d;
      assert Create(SeedSkills[i], now) == Success(d);
    }
  }

  lemma SeedIconsByCategory()
    ensures forall i :: 0 <= i < |SeedSkills| ==>
              SeedSkills[i].icon == Some(SkillsView.IconValue(SkillsView.IconFor(SeedSkills[i].category.value)))
  {
    forall i | 0 <= i < 4 ensures SeedSkills[i].category == Some("Frontend") && SeedSkills[i].icon == Some("Code") { }
    forall i | 4 <= i < 8 ensures SeedSkills[i].category == Some("Backend") && SeedSkills[i].icon == Some("Database") { }
    forall i | 8 <= i < 11 ensures SeedSkills[i].category == Some("AI") && SeedSkills[i].icon == Some("Brain") { }
    forall i | 11 <= i < 14 ensures SeedSkills[i].category == Some("DevOps") && SeedSkills[i].icon == Some("Cpu") { }
  }
}
