/**
  The project search of the portfolio's projects section: the live, case-insensitive filter
  over the fixed project list, and the row of tag chips shown above the grid.
*/
module Projects {
  import opened Text
  import opened Lists

  datatype Project = Project(
    id: string,
    title: string,
    description: string,
    image: string,
    tags: seq<string>,
    demoUrl: string,
    githubUrl: string)

  /** The three featured repositories, in display order. */
  const Catalog: seq<Project> := [
    Project(
      "ecommerce-mern-2",
      "E-Commerce (MERN)",
      "Full-stack e-commerce demo built with the MERN stack: product catalog, cart, auth and checkout flows \U{2014} useful to demonstrate real-world full-stack skills.",
      "/projects/e-commerce-mern-stack-2.png",
      ["MERN", "React", "Node.js", "MongoDB", "Stripe"],
      "#",
      "https://github.com/tadikev/e-commerce-mern-stack-2"),
    Project(
      "ecommerce-js",
      "Ecommerce (JS)",
      "A focused e-commerce frontend & lightweight backend demo showcasing product pages, cart UX, and payment integration.",
      "/projects/ecommerce.png",
      ["JavaScript", "Node", "Express", "Payments"],
      "#",
      "https://github.com/tadikev/Ecommerce"),
    Project(
      "talent-verify",
      "talent-verify",
      "An online talent verification service \U{2014} demonstrates backend work, data modelling, and integration logic (useful for SaaS/marketplace roles).",
      "/projects/talent-verify.png",
      ["Python", "Django/Flask?", "APIs"],
      "#",
      "https://github.com/tadikev/talent-verify")
  ]

  // ---------------------------------------------------------------------------------------
  // Search

  /** The query as the filter compares it: trimmed, then lower-cased. */
  function Normalize(query: string): string {
    Lower(Trim(query))
  }

  /** The filter's test for one project: a blank query keeps everything; otherwise the
      normalised query must occur in the lower-cased title, description or space-joined tags. */
  predicate Matches(p: Project, query: string) {
    var q := Normalize(query);
    q == ""
    || Includes(Lower(p.title), q)
    || Includes(Lower(p.description), q)
    || Includes(Lower(Join(p.tags, " ")), q)
  }

  /** The projects the grid shows for `query`. */
  function Search(ps: seq<Project>, query: string): (r: seq<Project>)
    ensures |r| <= |ps|
    ensures forall p :: p in r <==> p in ps && Matches(p, query)
    ensures forall p :: multiset(r)[p] == if Matches(p, query) then multiset(ps)[p] else 0
  {
    Filter(ps, p => Matches(p, query))
  }

  /** A project is shown iff the normalised query occurs, as a contiguous run, in its
      lower-cased title, description or tags joined by single spaces. */
  lemma {:induction false} SearchKeepsExactly(ps: seq<Project>, query: string)
    ensures forall p :: p in Search(ps, query) <==>
      p in ps
      && (Appears(Lower(p.title), Normalize(query))
          || Appears(Lower(p.description), Normalize(query))
          || Appears(Lower(Join(p.tags, " ")), Normalize(query)))
  {
    var q := Normalize(query);
    forall p: Project
      ensures Matches(p, query) <==>
        Appears(Lower(p.title), q) || Appears(Lower(p.description), q)
        || Appears(Lower(Join(p.tags, " ")), q)
    {
      IncludesIff(Lower(p.title), q);
      IncludesIff(Lower(p.description), q);
      IncludesIff(Lower(Join(p.tags, " ")), q);
      if q == "" {
        IncludesEmpty(Lower(p.title));
      }
    }
  }

  /** The result keeps the catalogue's order. */
  lemma {:induction false} SearchKeepsOrder(ps: seq<Project>, query: string)
    ensures IsSubsequence(Search(ps, query), ps)
  {
    FilterIsSubsequence(ps, p => Matches(p, query));
  }

  /** An empty or whitespace-only query shows every project, in order. */
  lemma {:induction false} BlankQueryShowsAll(ps: seq<Project>, query: string)
    requires AllSpace(query)
    ensures Search(ps, query) == ps
  {
    TrimEmptyIff(query);
    assert Normalize(query) == "";
    FilterKeepAll(ps, p => Matches(p, query));
  }

  /** Queries that normalise alike show the same projects. */
  lemma {:induction false} SameNormalFormSameResult(ps: seq<Project>, q1: string, q2: string)
    requires Normalize(q1) == Normalize(q2)
    ensures Search(ps, q1) == Search(ps, q2)
  {
    FilterSameTest(ps, p => Matches(p, q1), p => Matches(p, q2));
  }

  /** Normalisation forgets letter case and surrounding whitespace. */
  lemma {:induction false} NormalizeIgnoresCaseAndPadding(q1: string, q2: string, w1: string, w2: string)
    requires Lower(q1) == Lower(q2)
    requires AllSpace(w1) && AllSpace(w2)
    ensures Normalize(w1 + q1 + w2) == Normalize(q2)
  {
    TrimIgnoresPadding(w1, q1, w2);
    TrimLowerCommute(q1);
    TrimLowerCommute(q2);
  }

  /** Queries that differ only in letter case or in surrounding whitespace show the same
      projects. */
  lemma {:induction false} SearchIgnoresCaseAndPadding(
    ps: seq<Project>, q1: string, q2: string, w1: string, w2: string)
    requires Lower(q1) == Lower(q2)
    requires AllSpace(w1) && AllSpace(w2)
    ensures Search(ps, w1 + q1 + w2) == Search(ps, q2)
  {
    NormalizeIgnoresCaseAndPadding(q1, q2, w1, w2);
    SameNormalFormSameResult(ps, w1 + q1 + w2, q2);
  }

  lemma {:induction false} IncludesNonEmptyNeedle(hay: string, needle: string)
    requires needle != "" && Includes(hay, needle)
    ensures hay != ""
  {
  }

  /** Typing more narrows the result: when the normalised `shorter` occurs in the normalised
      `longer`, every project `longer` shows is also shown by `shorter`, in the same order. */
  lemma {:induction false} LongerQueryNarrows(ps: seq<Project>, shorter: string, longer: string)
    requires Includes(Normalize(longer), Normalize(shorter))
    ensures IsSubsequence(Search(ps, longer), Search(ps, shorter))
    ensures forall p :: p in Search(ps, longer) ==> p in Search(ps, shorter)
  {
    var a, b := Normalize(shorter), Normalize(longer);
    forall p | p in ps && Matches(p, longer) ensures Matches(p, shorter) {
      if a != "" {
        if b == "" {
          IncludesNonEmptyNeedle(b, a);
        } else if Includes(Lower(p.title), b) {
          IncludesTransitive(a, b, Lower(p.title));
        } else if Includes(Lower(p.description), b) {
          IncludesTransitive(a, b, Lower(p.description));
        } else {
          IncludesTransitive(a, b, Lower(Join(p.tags, " ")));
        }
      }
    }
    FilterStricter(ps, p => Matches(p, longer), p => Matches(p, shorter));
    SubsequenceMembers(Search(ps, longer), Search(ps, shorter));
  }

  // ---------------------------------------------------------------------------------------
  // Tag chips

  /** Every project's tags, one project after another. */
  function AllTags(ps: seq<Project>): seq<string>
    decreases |ps|
  {
    if ps == [] then [] else AllTags(ps[..|ps| - 1]) + ps[|ps| - 1].tags
  }

  /** The chip row: "All", then each distinct tag once, in first-occurrence order. */
  function Chips(ps: seq<Project>): seq<string> {
    ["All"] + Distinct(AllTags(ps))
  }

  /** Builds the chip row the way the component does: walk every project and every tag,
      adding each tag to an insertion-ordered set, then put "All" in front. */
  method BuildChips(ps: seq<Project>) returns (chips: seq<string>)
    ensures chips == Chips(ps)
  {
    var seen: seq<string> := [];
    var i := 0;
    while i < |ps|
      invariant 0 <= i <= |ps|
      invariant seen == Distinct(AllTags(ps[..i]))
    {
      var tags := ps[i].tags;
      var j := 0;
      assert AllTags(ps[..i]) + tags[..0] == AllTags(ps[..i]);
      while j < |tags|
        invariant 0 <= j <= |tags|
        invariant seen == Distinct(AllTags(ps[..i]) + tags[..j])
      {
        var t := tags[j];
        assert (AllTags(ps[..i]) + tags[..j + 1])[..|AllTags(ps[..i])| + j] == AllTags(ps[..i]) + tags[..j];
        if t !in seen {
          seen := seen + [t];
        }
        j := j + 1;
      }
      assert ps[..i + 1][..i] == ps[..i];
      assert tags[..j] == tags;
      i := i + 1;
    }
    assert ps[..i] == ps;
    chips := ["All"] + seen;
  }

  lemma {:induction false} TagInAllTags(ps: seq<Project>, k: nat, t: string)
    requires k < |ps| && t in ps[k].tags
    ensures t in AllTags(ps)
    decreases |ps|
  {
    if k < |ps| - 1 {
      assert ps[..|ps| - 1][k] == ps[k];
      TagInAllTags(ps[..|ps| - 1], k, t);
    }
  }

  lemma {:induction false} AllTagsFromProjects(ps: seq<Project>, t: string)
    requires t in AllTags(ps)
    ensures exists k :: 0 <= k < |ps| && t in ps[k].tags
    decreases |ps|
  {
    var init := ps[..|ps| - 1];
    if t in AllTags(init) {
      AllTagsFromProjects(init, t);
      var k :| 0 <= k < |init| && t in init[k].tags;
      assert ps[k] == init[k];
    } else {
      assert t in ps[|ps| - 1].tags;
    }
  }

  /** The chip row starts with "All" and then holds every tag of every project exactly once,
      no other text, in order of first occurrence across projects and their tags. */
  lemma {:induction false} ChipsSpec(ps: seq<Project>)
    ensures Chips(ps)[0] == "All"
    ensures forall t :: t in Chips(ps)[1..] <==> exists k :: 0 <= k < |ps| && t in ps[k].tags
    ensures NoDuplicates(Chips(ps)[1..])
    ensures forall i, j :: 1 <= i < j < |Chips(ps)| ==>
      FirstIndex(AllTags(ps), Chips(ps)[i]) < FirstIndex(AllTags(ps), Chips(ps)[j])
  {
    var d := Distinct(AllTags(ps));
    assert Chips(ps)[1..] == d;
    DistinctSpec(AllTags(ps));
    forall t ensures t in d <==> exists k :: 0 <= k < |ps| && t in ps[k].tags {
      if t in d {
        AllTagsFromProjects(ps, t);
      }
      if k :| 0 <= k < |ps| && t in ps[k].tags {
        TagInAllTags(ps, k, t);
      }
    }
    forall i, j | 1 <= i < j < |Chips(ps)|
      ensures FirstIndex(AllTags(ps), Chips(ps)[i]) < FirstIndex(AllTags(ps), Chips(ps)[j])
    {
      assert Chips(ps)[i] == d[i - 1] && Chips(ps)[j] == d[j - 1];
    }
  }

  /** Every tag of every project has a chip. */
  lemma {:induction false} EveryTagHasChip(ps: seq<Project>, p: Project, t: string)
    requires p in ps && t in p.tags
    ensures t in Chips(ps)
  {
    var k :| 0 <= k < |ps| && ps[k] == p;
    TagInAllTags(ps, k, t);
    DistinctSpec(AllTags(ps));
  }

  /** The tags of the catalogue, in order. */
  const CatalogTags: seq<string> := ["MERN", "React", "Node.js", "MongoDB", "Stripe",
    "JavaScript", "Node", "Express", "Payments", "Python", "Django/Flask?", "APIs"]

  lemma {:induction false} AllCatalogTags()
    ensures AllTags(Catalog) == CatalogTags
  {
    assert Catalog[..1][..0] == [];
    assert AllTags(Catalog[..1]) == Catalog[0].tags;
    assert Catalog[..2][..1] == Catalog[..1];
    assert AllTags(Catalog[..2]) == Catalog[0].tags + Catalog[1].tags;
    assert Catalog[..2] == Catalog[..|Catalog| - 1];
  }

  lemma {:induction false} CatalogTagsDistinct()
    ensures NoDuplicates(CatalogTags)
  {
  }

  /** The catalogue's chip row: "Node.js" and "Node" are different tags, and no tag repeats
      across the three projects, so the row is "All" followed by every tag. */
  lemma {:induction false} CatalogChips()
    ensures Chips(Catalog) == ["All"] + CatalogTags
  {
    AllCatalogTags();
    CatalogTagsDistinct();
    DistinctOfDistinctElements(CatalogTags);
  }
}
