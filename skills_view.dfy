/**
  The data side of components/Skills.tsx: the distinct categories of the
  fetched skills (`[...new Set(data.map(s => s.category))]`), the skills of
  each category (`skills.filter(s => s.category === category)`), and the icon
  drawn beside each category. Rendering and animation are not modelled.
 */
module SkillsView {
  import opened Text
  import opened Sorting
  import opened SkillModel
  import SkillsRoute
  import Http

  // ---------------------------------------------------------------- categories

  /** `data.map(s => s.category)`. */
  function CategoryList(skills: seq<Skill>): (cs: seq<string>)
    ensures |cs| == |skills|
    ensures forall i :: 0 <= i < |skills| ==> cs[i] == skills[i].category
  {
    if skills == [] then [] else CategoryList(skills[..|skills| - 1]) + [skills[|skills| - 1].category]
  }

  predicate NoDuplicates(xs: seq<string>)
  {
    forall i, j :: 0 <= i < j < |xs| ==> xs[i] != xs[j]
  }

  /** `[...new Set(xs)]`: each value once, in the order of first insertion. */
  function Distinct(xs: seq<string>): (d: seq<string>)
    ensures NoDuplicates(d)
    ensures forall x :: x in d <==> x in xs
  {
    if xs == [] then []
    else
      var d := Distinct(xs[..|xs| - 1]);
      assert xs == xs[..|xs| - 1] + [xs[|xs| - 1]];
      if xs[|xs| - 1] in d then d else d + [xs[|xs| - 1]]
  }

  /** The `categories` state. */
  function Categories(skills: seq<Skill>): (cats: seq<string>)
    ensures NoDuplicates(cats)
    ensures forall c :: c in cats <==> exists i :: 0 <= i < |skills| && skills[i].category == c
  {
    var cs := CategoryList(skills);
    assert forall c :: c in cs <==> exists i :: 0 <= i < |skills| && skills[i].category == c;
    Distinct(cs)
  }

  /** The position of the first occurrence of `x`. */
  function FirstIndex(xs: seq<string>, x: string): (k: nat)
    requires x in xs
    ensures k < |xs| && xs[k] == x
    ensures forall j :: 0 <= j < k ==> xs[j] != x
  {
    if xs[0] == x then 0 else 1 + FirstIndex(xs[1..], x)
  }

  lemma FirstIndexInPrefix(a: seq<string>, b: seq<string>, x: string)
    requires x in a
    ensures FirstIndex(a + b, x) == FirstIndex(a, x)
  {
    var k := FirstIndex(a, x);
    var m := FirstIndex(a + b, x);
    assert (a + b)[k] == x;
    assert m <= k;
    assert a[m] == x;
  }

  lemma FirstIndexOfNew(a: seq<string>, x: string)
    requires x !in a
    ensures FirstIndex(a + [x], x) == |a|
  {
    assert (a + [x])[|a|] == x;
    assert forall k :: 0 <= k < |a| ==> (a + [x])[k] == a[k];
  }

  /** `Distinct` lists the values in the order of their first occurrences. */
  lemma {:induction false} DistinctFirstOccurrenceOrder(xs: seq<string>)
    ensures forall i, j :: 0 <= i < j < |Distinct(xs)| ==>
              FirstIndex(xs, Distinct(xs)[i]) < FirstIndex(xs, Distinct(xs)[j])
  {
    if xs != [] {
      var init, last := xs[..|xs| - 1], xs[|xs| - 1];
      assert xs == init + [last];
      DistinctFirstOccurrenceOrder(init);
      var d0 := Distinct(init);
      forall i | 0 <= i < |d0|
        ensures FirstIndex(xs, d0[i]) == FirstIndex(init, d0[i]) < |init|
      {
        FirstIndexInPrefix(init, [last], d0[i]);
      }
      if last in d0 {
        assert Distinct(xs) == d0;
      } else {
        assert Distinct(xs) == d0 + [last];
        FirstIndexOfNew(init, last);
        FirstIndexOrderAppended(xs, d0, last);
      }
    }
  }

  /** The step for a value seen for the first time: it comes after every earlier one. */
  lemma FirstIndexOrderAppended(xs: seq<string>, d0: seq<string>, last: string)
    requires forall x :: x in d0 + [last] ==> x in xs
    requires forall i, j :: 0 <= i < j < |d0| ==> FirstIndex(xs, d0[i]) < FirstIndex(xs, d0[j])
    requires forall i :: 0 <= i < |d0| ==> FirstIndex(xs, d0[i]) < FirstIndex(xs, last)
    ensures forall i, j :: 0 <= i < j < |d0 + [last]| ==> FirstIndex(xs, (d0 + [last])[i]) < FirstIndex(xs, (d0 + [last])[j])
  {
    var d := d0 + [last];
    forall i, j | 0 <= i < j < |d| ensures FirstIndex(xs, d[i]) < FirstIndex(xs, d[j]) {
      assert d[i] == d0[i];
      if j < |d0| {
        assert d[j] == d0[j];
      }
    }
  }

  /** `categories` follows the first appearance of each category in the fetched list. */
  lemma CategoriesInFirstOccurrenceOrder(skills: seq<Skill>)
    ensures var cats := Categories(skills);
            forall i, j :: 0 <= i < j < |cats| ==>
              FirstIndex(CategoryList(skills), cats[i]) < FirstIndex(CategoryList(skills), cats[j])
  {
    assert Categories(skills) == Distinct(CategoryList(skills));
    DistinctFirstOccurrenceOrder(CategoryList(skills));
  }

  // ---------------------------------------------------------------- groups

  /** `skills.filter(s => s.category === category)`. */
  function Group(skills: seq<Skill>, category: string): (g: seq<Skill>)
    ensures |g| <= |skills|
    ensures forall s :: s in g ==> s.category == category
  {
    if skills == [] then []
    else Group(skills[..|skills| - 1], category)
         + if skills[|skills| - 1].category == category then [skills[|skills| - 1]] else []
  }

  /** The positions `Group` keeps, in increasing order. */
  function GroupIndices(skills: seq<Skill>, category: string): seq<nat>
  {
    if skills == [] then []
    else GroupIndices(skills[..|skills| - 1], category)
         + if skills[|skills| - 1].category == category then [|skills| - 1] else []
  }

  /**
    A group is exactly the skills of its category, in their input order: the
    skills at the increasing positions whose category matches, every such
    position included.
   */
  lemma {:induction false} GroupIsOrderedSelection(skills: seq<Skill>, category: string)
    ensures var g, idx := Group(skills, category), GroupIndices(skills, category);
            && |idx| == |g|
            && (forall i :: 0 <= i < |idx| ==> idx[i] < |skills| && g[i] == skills[idx[i]] && g[i].category == category)
            && (forall i, j :: 0 <= i < j < |idx| ==> idx[i] < idx[j])
            && (forall k :: 0 <= k < |skills| && skills[k].category == category ==> k in idx)
  {
    GroupSelects(skills, category);
    GroupIndicesComplete(skills, category);
  }

  lemma {:induction false} GroupSelects(skills: seq<Skill>, category: string)
    ensures var g, idx := Group(skills, category), GroupIndices(skills, category);
            && |idx| == |g|
            && (forall i :: 0 <= i < |idx| ==> idx[i] < |skills| && g[i] == skills[idx[i]] && g[i].category == category)
            && (forall i, j :: 0 <= i < j < |idx| ==> idx[i] < idx[j])
  {
    if skills != [] {
      var init, last := skills[..|skills| - 1], skills[|skills| - 1];
      GroupSelects(init, category);
      var g0, idx0 := Group(init, category), GroupIndices(init, category);
      forall i | 0 <= i < |idx0| ensures skills[idx0[i]] == init[idx0[i]] { }
      if last.category == category {
        assert Group(skills, category) == g0 + [last];
        assert GroupIndices(skills, category) == idx0 + [|init|];
      } else {
        assert Group(skills, category) == g0;
        assert GroupIndices(skills, category) == idx0;
      }
    }
  }

  lemma {:induction false} GroupIndicesComplete(skills: seq<Skill>, category: string)
    ensures forall k :: 0 <= k < |skills| && skills[k].category == category ==> k in GroupIndices(skills, category)
  {
    if skills != [] {
      var init := skills[..|skills| - 1];
      GroupIndicesComplete(init, category);
      forall k | 0 <= k < |init| ensures init[k] == skills[k] { }
    }
  }

  lemma GroupAppend(skills: seq<Skill>, x: Skill, category: string)
    ensures Group(skills + [x], category) == Group(skills, category) + if x.category == category then [x] else []
  {
    assert (skills + [x])[..|skills + [x]| - 1] == skills;
  }

  lemma {:induction false} GroupOfAbsentCategory(skills: seq<Skill>, category: string)
    requires category !in CategoryList(skills)
    ensures Group(skills, category) == []
  {
    if skills != [] {
      var init := skills[..|skills| - 1];
      assert CategoryList(init) == CategoryList(skills)[..|skills| - 1];
      GroupOfAbsentCategory(init, category);
    }
  }

  /** One group per category, in the order of `cats`. */
  function GroupsFor(cats: seq<string>, skills: seq<Skill>): (gs: seq<seq<Skill>>)
    ensures |gs| == |cats|
    ensures forall i :: 0 <= i < |cats| ==> gs[i] == Group(skills, cats[i])
  {
    if cats == [] then [] else [Group(skills, cats[0])] + GroupsFor(cats[1..], skills)
  }

  /** The groups the component renders. */
  function Groups(skills: seq<Skill>): seq<seq<Skill>>
  {
    GroupsFor(Categories(skills), skills)
  }

  function Flatten(gs: seq<seq<Skill>>): seq<Skill>
  {
    if gs == [] then [] else gs[0] + Flatten(gs[1..])
  }

  lemma {:induction false} FlattenAppendToOne(cats: seq<string>, skills: seq<Skill>, x: Skill)
    requires NoDuplicates(cats)
    ensures multiset(Flatten(GroupsFor(cats, skills + [x])))
         == multiset(Flatten(GroupsFor(cats, skills))) + if x.category in cats then multiset{x} else multiset{}
  {
    if cats != [] {
      var c, more := cats[0], cats[1..];
      NoDuplicatesTail(cats);
      FlattenAppendToOne(more, skills, x);
      GroupAppendMultiset(skills, x, c);
      FlattenCons(cats, skills);
      FlattenCons(cats, skills + [x]);
      assert x.category in cats <==> x.category == c || x.category in more;
      AddToOneOfTwo(multiset(Group(skills, c)), multiset(Group(skills + [x], c)),
                    multiset(Flatten(GroupsFor(more, skills))), multiset(Flatten(GroupsFor(more, skills + [x]))),
                    x, x.category == c, x.category in more);
    }
  }

  /** Adding `x` to at most one of two parts adds it to their union at most once. */
  lemma AddToOneOfTwo(m0: multiset<Skill>, m1: multiset<Skill>, r0: multiset<Skill>, r1: multiset<Skill>,
                      x: Skill, inHead: bool, inTail: bool)
    requires !(inHead && inTail)
    requires m1 == m0 + if inHead then multiset{x} else multiset{}
    requires r1 == r0 + if inTail then multiset{x} else multiset{}
    ensures m1 + r1 == m0 + r0 + if inHead || inTail then multiset{x} else multiset{}
  {
  }

  lemma NoDuplicatesTail(xs: seq<string>)
    requires xs != [] && NoDuplicates(xs)
    ensures NoDuplicates(xs[1..]) && xs[0] !in xs[1..]
  {
    forall i, j | 0 <= i < j < |xs[1..]| ensures xs[1..][i] != xs[1..][j] {
      assert xs[1..][i] == xs[i + 1] && xs[1..][j] == xs[j + 1];
    }
  }

  lemma GroupAppendMultiset(skills: seq<Skill>, x: Skill, c: string)
    ensures multiset(Group(skills + [x], c)) == multiset(Group(skills, c)) + if x.category == c then multiset{x} else multiset{}
  {
    GroupAppend(skills, x, c);
  }

  lemma FlattenCons(cats: seq<string>, skills: seq<Skill>)
    requires cats != []
    ensures multiset(Flatten(GroupsFor(cats, skills)))
         == multiset(Group(skills, cats[0])) + multiset(Flatten(GroupsFor(cats[1..], skills)))
  {
    assert GroupsFor(cats, skills)[1..] == GroupsFor(cats[1..], skills);
  }

  lemma {:induction false} FlattenNewCategory(cats: seq<string>, c: string, skills: seq<Skill>)
    ensures Flatten(GroupsFor(cats + [c], skills)) == Flatten(GroupsFor(cats, skills)) + Group(skills, c)
  {
    if cats == [] {
      assert GroupsFor([c], skills) == [Group(skills, c)];
    } else {
      assert (cats + [c])[1..] == cats[1..] + [c];
      FlattenNewCategory(cats[1..], c, skills);
    }
  }

  /** Every skill lands in exactly one group: the groups together are a permutation of the skills. */
  lemma {:induction false} GroupsPartitionSkills(skills: seq<Skill>)
    ensures multiset(Flatten(Groups(skills))) == multiset(skills)
    ensures |Flatten(Groups(skills))| == |skills|
  {
    if skills != [] {
      var init, x := skills[..|skills| - 1], skills[|skills| - 1];
      assert skills == init + [x];
      GroupsPartitionSkills(init);
      var cats0 := Categories(init);
      assert CategoryList(skills) == CategoryList(init) + [x.category];
      assert CategoryList(skills)[..|skills| - 1] == CategoryList(init);
      if x.category in cats0 {
        assert Categories(skills) == cats0;
        FlattenAppendToOne(cats0, init, x);
      } else {
        assert Categories(skills) == cats0 + [x.category];
        FlattenNewCategory(cats0, x.category, skills);
        FlattenAppendToOne(cats0, init, x);
        GroupAppend(init, x, x.category);
        GroupOfAbsentCategory(init, x.category);
      }
    }
    assert |multiset(Flatten(Groups(skills)))| == |multiset(skills)|;
  }

  /** Each skill belongs to the group of its own category and to no other. */
  lemma ExactlyOneGroup(skills: seq<Skill>, k: nat)
    requires k < |skills|
    ensures var cats := Categories(skills);
            && skills[k].category in cats
            && forall i :: 0 <= i < |cats| ==> (skills[k] in Group(skills, cats[i]) <==> cats[i] == skills[k].category)
  {
    var cats := Categories(skills);
    var x := skills[k];
    forall i | 0 <= i < |cats|
      ensures x in Group(skills, cats[i]) <==> cats[i] == x.category
    {
      GroupIsOrderedSelection(skills, cats[i]);
      var idx := GroupIndices(skills, cats[i]);
      if cats[i] == x.category {
        assert k in idx;
        var m :| 0 <= m < |idx| && idx[m] == k;
        assert Group(skills, cats[i])[m] == x;
      }
    }
  }

  // ---------------------------------------------------------------- order of categories

  predicate StrictlyAscending(cs: seq<string>)
  {
    forall i, j :: 0 <= i < j < |cs| ==> LexLess(cs[i], cs[j])
  }

  /** A list sorted by category, as `GET /api/skills` returns it, yields its categories in ascending order. */
  lemma {:induction false} SortedSkillsGiveAscendingCategories(skills: seq<Skill>)
    requires SortedBy(skills, SkillsRoute.SkillOrder)
    ensures StrictlyAscending(Categories(skills))
  {
    if skills != [] {
      var init, x := skills[..|skills| - 1], skills[|skills| - 1];
      SortedInit(skills);
      SortedSkillsGiveAscendingCategories(init);
      var cats0 := Categories(init);
      assert CategoryList(skills)[..|skills| - 1] == CategoryList(init);
      if x.category !in cats0 {
        assert Categories(skills) == cats0 + [x.category];
        NewCategoryComesLast(skills, cats0);
        AscendingAppend(cats0, x.category);
      } else {
        assert Categories(skills) == cats0;
      }
    }
  }

  lemma SortedInit(skills: seq<Skill>)
    requires skills != [] && SortedBy(skills, SkillsRoute.SkillOrder)
    ensures SortedBy(skills[..|skills| - 1], SkillsRoute.SkillOrder)
  {
    var init := skills[..|skills| - 1];
    forall i, j | 0 <= i < j < |init| ensures SkillsRoute.SkillOrder(init[i], init[j]) {
      assert init[i] == skills[i] && init[j] == skills[j];
    }
  }

  lemma AscendingAppend(cs: seq<string>, c: string)
    requires StrictlyAscending(cs)
    requires forall i :: 0 <= i < |cs| ==> LexLess(cs[i], c)
    ensures StrictlyAscending(cs + [c])
  {
    var r := cs + [c];
    forall i, j | 0 <= i < j < |r| ensures LexLess(r[i], r[j]) {
      assert r[i] == cs[i];
      if j < |cs| { assert r[j] == cs[j]; } else { assert r[j] == c; }
    }
  }

  lemma NewCategoryComesLast(skills: seq<Skill>, cats0: seq<string>)
    requires skills != [] && SortedBy(skills, SkillsRoute.SkillOrder)
    requires cats0 == Categories(skills[..|skills| - 1])
    requires skills[|skills| - 1].category !in cats0
    ensures forall i :: 0 <= i < |cats0| ==> LexLess(cats0[i], skills[|skills| - 1].category)
  {
    var init, x := skills[..|skills| - 1], skills[|skills| - 1];
    forall i | 0 <= i < |cats0|
      ensures LexLess(cats0[i], x.category)
    {
      assert cats0[i] in cats0;
      var k :| 0 <= k < |init| && init[k].category == cats0[i];
      assert SkillsRoute.SkillOrder(skills[k], skills[|skills| - 1]);
    }
  }

  /** The categories of a successful `GET /api/skills` response come out ascending. */
  lemma ApiOrderGivesAscendingCategories(docs: seq<Skill>)
    ensures StrictlyAscending(Categories(SkillsRoute.Get(docs, Http.NoFault).body.skills))
  {
    SortedSkillsGiveAscendingCategories(SkillsRoute.Get(docs, Http.NoFault).body.skills);
  }

  // ---------------------------------------------------------------- icons

  datatype Icon = Code | Database | Brain | Cpu

  /** The name under which `lucide-react` exports the icon, as stored in `Skill.icon`. */
  function IconValue(icon: Icon): string
  {
    match icon
    case Code => "Code"
    case Database => "Database"
    case Brain => "Brain"
    case Cpu => "Cpu"
  }

  /** `categoryIcons[category] || Code`, reading only the four own keys of `categoryIcons`. */
  function IconFor(category: string): (icon: Icon)
    ensures category == "Frontend" ==> icon == Code
    ensures category == "Backend" ==> icon == Database
    ensures category == "AI" ==> icon == Brain
    ensures category == "DevOps" ==> icon == Cpu
    ensures category !in {"Frontend", "Backend", "AI", "DevOps"} ==> icon == Code
  {
    if category == "Backend" then Database
    else if category == "AI" then Brain
    else if category == "DevOps" then Cpu
    else Code
  }

  /** The properties every plain object literal inherits from `Object.prototype`; all are truthy. */
  const PrototypeProperties: set<string> := {
    "constructor", "hasOwnProperty", "isPrototypeOf", "propertyIsEnumerable", "toLocaleString",
    "toString", "valueOf", "__proto__", "__defineGetter__", "__defineSetter__",
    "__lookupGetter__", "__lookupSetter__"
  }

  /** What the property read finds: one of the four icons, or an inherited non-icon value. */
  datatype IconLookup = Own(icon: Icon) | Inherited(property: string)

  /** `categoryIcons[category] || Code` as written: the read also reaches `Object.prototype`. */
  function IconLookupAsWritten(category: string): (r: IconLookup)
    ensures category !in PrototypeProperties ==> r == Own(IconFor(category))
    ensures category in PrototypeProperties ==> r == Inherited(category)
  {
    if category in {"Frontend", "Backend", "AI", "DevOps"} then Own(IconFor(category))
    else if category in PrototypeProperties then Inherited(category)
    else Own(Code)
  }

  /** A skill saved with the category "constructor" makes the component render `Object` as an icon. */
  lemma InheritedIconCounterexample()
    ensures IconLookupAsWritten("constructor") == Inherited("constructor")
    ensures IconFor("constructor") == Code
  {
  }
}
