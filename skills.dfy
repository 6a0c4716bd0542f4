/**
  The skills section: the fixed skill list and its categories, the category filter behind the
  chip row, the chip labels, the per-skill heading id, and the small badge shown beside each
  skill's name.
*/
module Skills {
  import opened Text
  import opened Lists

  datatype Skill = Skill(name: string, level: int, category: string, desc: string)

  /** The skill list, in display order: frontend, then backend, then tools. */
  const Skills: seq<Skill> := FrontendSkills + BackendSkills + ToolSkills

  const FrontendSkills: seq<Skill> := [
    Skill("HTML/CSS", 96, "frontend", "Semantic, responsive CSS, modern layouts"),
    Skill("JavaScript (ES6+)", 93, "frontend", "Modern patterns, async, DOM"),
    Skill("React", 92, "frontend", "Hooks, context, perf, testing"),
    Skill("Next.js", 82, "frontend", "SSR / SSG, routing, image optimization"),
    Skill("TypeScript", 86, "frontend", "Types-first frontends and safer refactors"),
    Skill("Tailwind CSS", 90, "frontend", "Utility-first, rapid UI creation")
  ]

  const BackendSkills: seq<Skill> := [
    Skill("Node.js", 85, "backend", "Event-driven servers and tooling"),
    Skill("Express", 80, "backend", "REST APIs, middleware patterns"),
    Skill("MongoDB", 80, "backend", "Schema design, Mongoose, replica sets"),
    Skill("Mongoose", 78, "backend", "ODM patterns and validation"),
    Skill("PostgreSQL", 72, "backend", "Relational modeling, indexes, queries"),
    Skill("Django", 82, "backend", "DRF, ORM, admin, rapid APIs"),
    Skill("GraphQL", 68, "backend", "Apollo / schema design")
  ]

  const ToolSkills: seq<Skill> := [
    Skill("Docker", 78, "tools", "Containerizing apps and CI builds"),
    Skill("Git / GitHub", 94, "tools", "Branching, PRs, code reviews"),
    Skill("CI/CD (GitHub Actions)", 75, "tools", "Automated builds & deployments"),
    Skill("AWS / GCP (basics)", 70, "tools", "Cloud deployments and storage"),
    Skill("VS Code", 96, "tools", "Daily driver, extensions & debugging"),
    Skill("Figma", 85, "tools", "Design handoff, prototypes, components")
  ]

  /** The chip row, in order; "all" selects everything. */
  const Categories: seq<string> := ["all", "frontend", "backend", "tools"]

  // ---------------------------------------------------------------------------------------
  // Data invariants

  ghost predicate LevelsFit(skills: seq<Skill>) {
    forall i :: 0 <= i < |skills| ==> 0 <= skills[i].level <= 100
  }

  ghost predicate AllInCategory(skills: seq<Skill>, cat: string) {
    forall i :: 0 <= i < |skills| ==> skills[i].category == cat
  }

  ghost predicate DistinctNames(skills: seq<Skill>) {
    forall i, j :: 0 <= i < j < |skills| ==> skills[i].name != skills[j].name
  }

  ghost predicate NamesDisjoint(a: seq<Skill>, b: seq<Skill>) {
    forall i, j :: 0 <= i < |a| && 0 <= j < |b| ==> a[i].name != b[j].name
  }

  lemma {:induction false} FrontendFacts()
    ensures LevelsFit(FrontendSkills) && AllInCategory(FrontendSkills, "frontend")
  {
  }

  lemma {:induction false} BackendFacts()
    ensures LevelsFit(BackendSkills) && AllInCategory(BackendSkills, "backend")
  {
  }

  lemma {:induction false} ToolFacts()
    ensures LevelsFit(ToolSkills) && AllInCategory(ToolSkills, "tools")
  {
  }

  lemma {:induction false} FrontendNamesDistinct()
    ensures DistinctNames(FrontendSkills)
  {
  }

  lemma {:induction false} BackendNamesDistinct()
    ensures DistinctNames(BackendSkills)
  {
  }

  lemma {:induction false} ToolNamesDistinct()
    ensures DistinctNames(ToolSkills)
  {
  }

  lemma {:induction false} FrontendBackendDisjoint()
    ensures NamesDisjoint(FrontendSkills, BackendSkills)
  {
  }

  lemma {:induction false} FrontendToolDisjoint()
    ensures NamesDisjoint(FrontendSkills, ToolSkills)
  {
  }

  lemma {:induction false} BackendToolDisjoint()
    ensures NamesDisjoint(BackendSkills, ToolSkills)
  {
  }

  lemma {:induction false} ConcatDistinctNames(a: seq<Skill>, b: seq<Skill>)
    requires DistinctNames(a) && DistinctNames(b) && NamesDisjoint(a, b)
    ensures DistinctNames(a + b)
  {
    forall i, j | 0 <= i < j < |a + b| ensures (a + b)[i].name != (a + b)[j].name {
      if j < |a| {
        assert (a + b)[i] == a[i] && (a + b)[j] == a[j];
      } else if i < |a| {
        assert (a + b)[i] == a[i] && (a + b)[j] == b[j - |a|];
      } else {
        assert (a + b)[i] == b[i - |a|] && (a + b)[j] == b[j - |a|];
      }
    }
  }

  lemma {:induction false} ConcatNamesDisjoint(a: seq<Skill>, b: seq<Skill>, c: seq<Skill>)
    requires NamesDisjoint(a, c) && NamesDisjoint(b, c)
    ensures NamesDisjoint(a + b, c)
  {
    forall i, j | 0 <= i < |a + b| && 0 <= j < |c| ensures (a + b)[i].name != c[j].name {
      if i < |a| {
        assert (a + b)[i] == a[i];
      } else {
        assert (a + b)[i] == b[i - |a|];
      }
    }
  }

  /** Every level fits the progress bar's 0..100 range, and every skill belongs to one of the
      selectable categories other than "all". */
  lemma {:induction false} SkillsWellFormed()
    ensures forall s :: s in Skills ==> 0 <= s.level <= 100
    ensures forall s :: s in Skills ==> s.category in Categories[1..]
  {
    FrontendFacts();
    BackendFacts();
    ToolFacts();
    assert Categories[1..] == ["frontend", "backend", "tools"];
    forall s | s in Skills ensures 0 <= s.level <= 100 && s.category in Categories[1..] {
      if s in FrontendSkills {
        var i :| 0 <= i < |FrontendSkills| && FrontendSkills[i] == s;
      } else if s in BackendSkills {
        var i :| 0 <= i < |BackendSkills| && BackendSkills[i] == s;
      } else {
        var i :| 0 <= i < |ToolSkills| && ToolSkills[i] == s;
      }
    }
  }

  /** Skill names are the grid's render keys, and no two skills share one. */
  lemma {:induction false} NamesDistinct()
    ensures forall i, j :: 0 <= i < j < |Skills| ==> Skills[i].name != Skills[j].name
  {
    FrontendNamesDistinct();
    BackendNamesDistinct();
    ToolNamesDistinct();
    FrontendBackendDisjoint();
    FrontendToolDisjoint();
    BackendToolDisjoint();
    ConcatDistinctNames(FrontendSkills, BackendSkills);
    ConcatNamesDisjoint(FrontendSkills, BackendSkills, ToolSkills);
    ConcatDistinctNames(FrontendSkills + BackendSkills, ToolSkills);
  }

  // ---------------------------------------------------------------------------------------
  // Category filter

  /** The skills shown while `active` is the selected chip. */
  function Shown(skills: seq<Skill>, active: string): (r: seq<Skill>)
    ensures forall s :: s in r <==> s in skills && (active == "all" || s.category == active)
    ensures forall s :: multiset(r)[s] ==
                        if active == "all" || s.category == active then multiset(skills)[s] else 0
  {
    Filter(skills, (s: Skill) => active == "all" || s.category == active)
  }

  /** The "all" chip shows the list unchanged. */
  lemma {:induction false} ShownAll(skills: seq<Skill>)
    ensures Shown(skills, "all") == skills
  {
    FilterKeepAll(skills, (s: Skill) => "all" == "all" || s.category == "all");
  }

  /** Any other chip shows exactly the skills of that category, in their original order. */
  lemma {:induction false} ShownCategory(skills: seq<Skill>, active: string)
    requires active != "all"
    ensures forall s :: s in Shown(skills, active) <==> s in skills && s.category == active
    ensures forall s :: multiset(Shown(skills, active))[s] ==
                        if s.category == active then multiset(skills)[s] else 0
    ensures IsSubsequence(Shown(skills, active), skills)
  {
    FilterIsSubsequence(skills, (s: Skill) => active == "all" || s.category == active);
  }

  /** When every item has one of three distinct categories, the three filters together
      show each item exactly once. */
  lemma {:induction false} ThreeWayPartition(skills: seq<Skill>, a: string, b: string, c: string)
    requires a != "all" && b != "all" && c != "all"
    requires a != b && b != c && a != c
    requires forall s :: s in skills ==> s.category == a || s.category == b || s.category == c
    ensures |Shown(skills, a)| + |Shown(skills, b)| + |Shown(skills, c)| == |skills|
    decreases |skills|
  {
    if skills != [] {
      assert forall s :: s in skills[1..] ==> s in skills;
      ThreeWayPartition(skills[1..], a, b, c);
      ShownLengthCons(skills, a);
      ShownLengthCons(skills, b);
      ShownLengthCons(skills, c);
    }
  }

  lemma {:induction false} ShownLengthCons(skills: seq<Skill>, active: string)
    requires skills != [] && active != "all"
    ensures |Shown(skills, active)| ==
            (if skills[0].category == active then 1 else 0) + |Shown(skills[1..], active)|
  {
  }

  /** The frontend, backend and tools chips split the skill list between them. */
  lemma {:induction false} CategoriesPartitionSkills()
    ensures |Shown(Skills, "frontend")| + |Shown(Skills, "backend")| + |Shown(Skills, "tools")|
      == |Skills|
    ensures forall s :: s in Skills ==>
      s in Shown(Skills, "frontend") || s in Shown(Skills, "backend") || s in Shown(Skills, "tools")
  {
    SkillsWellFormed();
    assert Categories[1..] == ["frontend", "backend", "tools"];
    ThreeWayPartition(Skills, "frontend", "backend", "tools");
  }

  // ---------------------------------------------------------------------------------------
  // Labels, ids and badges

  /** A chip's caption: "All" for "all", otherwise the category with its first letter
      upper-cased (`charAt(0)` of an empty string is empty). */
  function CategoryLabel(cat: string): (r: string)
  {
    if cat == "all" then "All"
    else if cat == "" then ""
    else [UpperChar(cat[0])] + cat[1..]
  }

  /** Apart from "all", a label is its category with at most the first letter's case
      changed: same length, same text after the first character, and equal once lower-cased
      when the category is lower-case. */
  lemma {:induction false} CategoryLabelShape(cat: string)
    requires cat != "all"
    ensures |CategoryLabel(cat)| == |cat|
    ensures cat != "" ==> CategoryLabel(cat)[1..] == cat[1..]
    ensures Lower(cat) == cat ==> Lower(CategoryLabel(cat)) == cat
    ensures cat != "" ==> !('a' <= CategoryLabel(cat)[0] <= 'z')
  {
    if cat != "" {
      var r := CategoryLabel(cat);
      if Lower(cat) == cat {
        assert LowerChar(cat[0]) == cat[0];
        forall i | 0 <= i < |r| ensures Lower(r)[i] == cat[i] {
          if i > 0 {
            assert r[i] == cat[i];
            assert Lower(cat)[i] == LowerChar(cat[i]);
          }
        }
      }
    }
  }

  /** The chip row reads "All", "Frontend", "Backend", "Tools". */
  lemma {:induction false} ChipLabels()
    ensures CategoryLabel(Categories[0]) == "All"
    ensures CategoryLabel(Categories[1]) == "Frontend"
    ensures CategoryLabel(Categories[2]) == "Backend"
    ensures CategoryLabel(Categories[3]) == "Tools"
  {
    assert "frontend"[1..] == "rontend";
    assert "backend"[1..] == "ackend";
    assert "tools"[1..] == "ools";
  }

  /** The id of a skill's heading: "skill-" and the lower-cased name with every whitespace
      run replaced by one "-". */
  function HeadingId(name: string): string {
    "skill-" + Lower(ReplaceSpaceRuns(name, '-'))
  }

  /** A heading id starts with "skill-" and, being used as an HTML id, holds no whitespace. */
  lemma {:induction false} HeadingIdShape(name: string)
    ensures HeadingId(name)[..6] == "skill-"
    ensures NoSpace(HeadingId(name))
  {
    var slug := ReplaceSpaceRuns(name, '-');
    ReplaceSpaceRunsNoSpace(name, '-');
    LowerKeepsNoSpace(slug);
    var r := HeadingId(name);
    forall i | 0 <= i < |r| ensures !IsSpace(r[i]) {
      if i >= 6 {
        assert r[i] == Lower(slug)[i - 6];
      }
    }
  }

  /** A name without whitespace only loses its capitals. */
  lemma {:induction false} HeadingIdOfWord(name: string)
    requires NoSpace(name)
    ensures HeadingId(name) == "skill-" + Lower(name)
  {
    ReplaceSpaceRunsIdentity(name, '-');
  }

  lemma {:induction false} SlugOfWords(a: string, w: string, b: string)
    requires NoSpace(a) && NoSpace(b)
    requires w != [] && AllSpace(w)
    ensures ReplaceSpaceRuns(a + (w + b), '-') == a + ['-'] + b
  {
    assert a == [] || !IsSpace(a[|a| - 1]);
    assert b == [] || !IsSpace(b[0]);
    ReplaceSpaceRunsAt(a, w, b, '-');
    ReplaceSpaceRunsIdentity(a, '-');
    ReplaceSpaceRunsIdentity(b, '-');
  }

  lemma {:induction false} LowerAroundDash(a: string, b: string)
    ensures Lower(a + ['-'] + b) == Lower(a) + ['-'] + Lower(b)
  {
    LowerConcat(a + ['-'], b);
    LowerConcat(a, ['-']);
    assert Lower(['-']) == ['-'];
  }

  /** Two words with any whitespace run between them are joined by exactly one "-". */
  lemma {:induction false} HeadingIdOfWords(a: string, w: string, b: string)
    requires NoSpace(a) && NoSpace(b)
    requires w != [] && AllSpace(w)
    ensures HeadingId(a + (w + b)) == "skill-" + Lower(a) + "-" + Lower(b)
  {
    SlugOfWords(a, w, b);
    LowerAroundDash(a, b);
  }

  lemma {:induction false} TailwindWords()
    ensures NoSpace("Tailwind") && NoSpace("CSS")
    ensures Lower("Tailwind") == "tailwind" && Lower("CSS") == "css"
  {
  }

  /** The heading id of the skill "Tailwind CSS". */
  lemma {:induction false} TailwindHeadingId(name: string)
    requires name == "Tailwind CSS"
    ensures HeadingId(name) == "skill-tailwind-css"
  {
    TailwindWords();
    assert "Tailwind" + (" " + "CSS") == name;
    HeadingIdOfWords("Tailwind", " ", "CSS");
  }

  /** A doubled space gives the same id: the run becomes one "-". */
  lemma {:induction false} TailwindDoubleSpaceHeadingId(name: string)
    requires name == "Tailwind  CSS"
    ensures HeadingId(name) == "skill-tailwind-css"
  {
    TailwindWords();
    assert "Tailwind" + ("  " + "CSS") == name;
    HeadingIdOfWords("Tailwind", "  ", "CSS");
  }

  /** The small mark beside a skill's name. */
  datatype Badge = CodeIcon | WrenchIcon | DatabaseIcon | FigmaMark | Dot

  /** The first keyword group found in the lower-cased name decides the badge. */
  function SkillBadge(name: string): Badge {
    var k := Lower(name);
    if Includes(k, "react") then CodeIcon
    else if Includes(k, "node") then WrenchIcon
    else if Includes(k, "mongo") || Includes(k, "postgre") || Includes(k, "django") then DatabaseIcon
    else if Includes(k, "figma") then FigmaMark
    else Dot
  }

  /** The badge, stated by keyword position in the lower-cased name: each badge is chosen
      exactly when its keywords occur and no keyword of an earlier group does. */
  lemma {:induction false} SkillBadgePriority(name: string)
    ensures SkillBadge(name) == CodeIcon <==> Appears(Lower(name), "react")
    ensures SkillBadge(name) == WrenchIcon <==>
      !Appears(Lower(name), "react") && Appears(Lower(name), "node")
    ensures SkillBadge(name) == DatabaseIcon <==>
      !Appears(Lower(name), "react") && !Appears(Lower(name), "node")
      && (Appears(Lower(name), "mongo") || Appears(Lower(name), "postgre")
          || Appears(Lower(name), "django"))
    ensures SkillBadge(name) == FigmaMark <==>
      !Appears(Lower(name), "react") && !Appears(Lower(name), "node")
      && !Appears(Lower(name), "mongo") && !Appears(Lower(name), "postgre")
      && !Appears(Lower(name), "django") && Appears(Lower(name), "figma")
  {
    var k := Lower(name);
    IncludesIff(k, "react");
    IncludesIff(k, "node");
    IncludesIff(k, "mongo");
    IncludesIff(k, "postgre");
    IncludesIff(k, "django");
    IncludesIff(k, "figma");
  }

  /** Names that differ only in letter case get the same badge. */
  lemma {:induction false} SkillBadgeIgnoresCase(a: string, b: string)
    requires Lower(a) == Lower(b)
    ensures SkillBadge(a) == SkillBadge(b)
    ensures SkillBadge(Upper(a)) == SkillBadge(a)
  {
    LowerOfUpper(a);
  }
}
