/** The skills universe's DOM overlay: the per-category skill lists and the
    per-frame update that fades the category card in after a 6-frame
    cooldown whenever the active category switches. */
module SkillsOverlay {
  import opened Numeric
  import opened OrbitalMath
  import opened OverlayState

  /* ───── Skill lists ───── */

  datatype Skill = Skill(name: string, category: string)

  /** The site's skill list, in declaration order: four blocks, one per
      category that has skills. */
  const FrontendSkills: seq<Skill> := [
    Skill("React", "frontend"),
    Skill("Next.js", "frontend"),
    Skill("TypeScript", "frontend"),
    Skill("JavaScript", "frontend"),
    Skill("Tailwind CSS", "frontend"),
    Skill("HTML5", "frontend"),
    Skill("CSS3", "frontend"),
    Skill("Framer Motion", "frontend")
  ]
  const BackendSkills: seq<Skill> := [
    Skill("Node.js", "backend"),
    Skill("Express", "backend"),
    Skill("NestJS", "backend"),
    Skill("REST APIs", "backend"),
    Skill("GraphQL", "backend")
  ]
  const DatabaseSkills: seq<Skill> := [
    Skill("PostgreSQL", "database"),
    Skill("MongoDB", "database"),
    Skill("Redis", "database"),
    Skill("Prisma", "database")
  ]
  const ToolsSkills: seq<Skill> := [
    Skill("Git", "tools"),
    Skill("Docker", "tools"),
    Skill("AWS", "tools"),
    Skill("Vercel", "tools"),
    Skill("GitHub Actions", "tools"),
    Skill("Figma", "tools")
  ]
  const Skills: seq<Skill> := FrontendSkills + BackendSkills + DatabaseSkills + ToolsSkills

  const CategoryKeys: seq<string> := ["frontend", "mobile", "backend", "database", "tools"]

  /** `skills.filter((s) => s.category === key)` */
  function OfCategory(skills: seq<Skill>, key: string): seq<Skill>
  {
    if skills == [] then []
    else (if skills[0].category == key then [skills[0]] else []) + OfCategory(skills[1..], key)
  }

  /** `.map((s) => s.name)` */
  function Names(skills: seq<Skill>): (names: seq<string>)
    ensures |names| == |skills|
    ensures forall i :: 0 <= i < |skills| ==> names[i] == skills[i].name
  {
    if skills == [] then [] else [skills[0].name] + Names(skills[1..])
  }

  /** The number of skills of one category. */
  function CountOf(skills: seq<Skill>, key: string): nat
  {
    if skills == [] then 0 else (if skills[0].category == key then 1 else 0) + CountOf(skills[1..], key)
  }

  /** The filter keeps exactly the skills of the category, and as many as
      there are. */
  lemma {:induction false} OfCategorySpec(skills: seq<Skill>, key: string)
    ensures forall s :: s in OfCategory(skills, key) <==> s in skills && s.category == key
    ensures |OfCategory(skills, key)| == CountOf(skills, key)
  {
    if skills != [] {
      OfCategorySpec(skills[1..], key);
      forall s ensures s in OfCategory(skills, key) <==> s in skills && s.category == key {
        assert s in skills <==> s == skills[0] || s in skills[1..];
      }
    }
  }

  lemma {:induction false} CountOfAppend(a: seq<Skill>, b: seq<Skill>, key: string)
    ensures CountOf(a + b, key) == CountOf(a, key) + CountOf(b, key)
  {
    if a == [] {
      assert a + b == b;
    } else {
      assert (a + b)[1..] == a[1..] + b;
      CountOfAppend(a[1..], b, key);
    }
  }

  lemma {:induction false} CountOfUniform(block: seq<Skill>, c: string, key: string)
    requires forall i :: 0 <= i < |block| ==> block[i].category == c
    ensures CountOf(block, key) == if key == c then |block| else 0
  {
    if block != [] {
      CountOfUniform(block[1..], c, key);
    }
  }

  /** Each block of the list holds skills of one category only. */
  lemma BlocksUniform()
    ensures |FrontendSkills| == 8 && |BackendSkills| == 5 && |DatabaseSkills| == 4 && |ToolsSkills| == 6
    ensures forall i :: 0 <= i < |FrontendSkills| ==> FrontendSkills[i].category == "frontend"
    ensures forall i :: 0 <= i < |BackendSkills| ==> BackendSkills[i].category == "backend"
    ensures forall i :: 0 <= i < |DatabaseSkills| ==> DatabaseSkills[i].category == "database"
    ensures forall i :: 0 <= i < |ToolsSkills| ==> ToolsSkills[i].category == "tools"
  {
  }

  /** How many skills each category key has in the site's list. */
  lemma SkillCounts(key: string)
    ensures CountOf(Skills, key) ==
      (if key == "frontend" then 8 else 0) + (if key == "backend" then 5 else 0)
      + (if key == "database" then 4 else 0) + (if key == "tools" then 6 else 0)
  {
    BlocksUniform();
    CountOfAppend(FrontendSkills + BackendSkills + DatabaseSkills, ToolsSkills, key);
    CountOfAppend(FrontendSkills + BackendSkills, DatabaseSkills, key);
    CountOfAppend(FrontendSkills, BackendSkills, key);
    CountOfUniform(FrontendSkills, "frontend", key);
    CountOfUniform(BackendSkills, "backend", key);
    CountOfUniform(DatabaseSkills, "database", key);
    CountOfUniform(ToolsSkills, "tools", key);
  }

  /** skillsByCategory: for each category key, the names of its skills. */
  function SkillsByCategory(): (lists: seq<seq<string>>)
    ensures |lists| == |CategoryKeys|
  {
    seq(|CategoryKeys|, k requires 0 <= k < |CategoryKeys| => Names(OfCategory(Skills, CategoryKeys[k])))
  }

  /** No skill is filed under "mobile", so its list is empty; the other four
      lists hold 8, 5, 4 and 6 names. */
  lemma SkillsByCategoryCounts()
    ensures SkillsByCategory()[1] == []
    ensures |SkillsByCategory()[0]| == 8 && |SkillsByCategory()[2]| == 5
    ensures |SkillsByCategory()[3]| == 4 && |SkillsByCategory()[4]| == 6
  {
    var lists := SkillsByCategory();
    forall k | 0 <= k < |CategoryKeys|
      ensures |lists[k]| == CountOf(Skills, CategoryKeys[k])
    {
      OfCategorySpec(Skills, CategoryKeys[k]);
    }
    SkillCounts("frontend");
    SkillCounts("mobile");
    SkillCounts("backend");
    SkillCounts("database");
    SkillCounts("tools");
  }

  /* ───── Per-frame update ───── */

  /** The overlay's refs: the smoothed opacity, the index seen last frame
      and the frames left in the post-switch cooldown. */
  datatype OverlayRefs = OverlayRefs(smoothed: real, prevIndex: int, cooldown: int)

  const InitialRefs: OverlayRefs := OverlayRefs(0.0, -1, 0)

  /** The opacity the card fades toward when the cooldown is over. */
  function CardTarget(p: real, idx: int): real
  {
    if idx >= 0 then Min(1.0, GetCategoryFocus(p, idx) * 1.5) else 0.0
  }

  /** The refs after one frame at progress `p`. */
  function StepRefs(s: OverlayRefs, p: real): OverlayRefs
  {
    var idx := ActiveCategoryIndex(p);
    var s1 := if idx != s.prevIndex then OverlayRefs(0.0, idx, 6) else s;
    if s1.cooldown > 0 then OverlayRefs(0.0, s1.prevIndex, s1.cooldown - 1)
    else OverlayRefs(Lerp(s1.smoothed, CardTarget(p, idx), 0.18), s1.prevIndex, s1.cooldown)
  }

  predicate RefsOk(s: OverlayRefs)
  {
    0 <= s.cooldown <= 6 && 0.0 <= s.smoothed <= 1.0
  }

  /** One frame keeps the cooldown within [0, 5] (it never goes negative) and
      the smoothed opacity within [0, 1]; it always records the live index. */
  lemma StepRefsOk(s: OverlayRefs, p: real)
    requires RefsOk(s)
    ensures RefsOk(StepRefs(s, p))
    ensures StepRefs(s, p).cooldown <= 5
    ensures StepRefs(s, p).prevIndex == ActiveCategoryIndex(p)
  {
    var idx := ActiveCategoryIndex(p);
    var s1 := if idx != s.prevIndex then OverlayRefs(0.0, idx, 6) else s;
    if s1.cooldown <= 0 {
      assert 0.0 <= CardTarget(p, idx) <= 1.0;
      LerpStaysIn(s1.smoothed, CardTarget(p, idx), 0.18, 0.0, 1.0);
    }
  }

  /** The refs after the frames at progress values `ps`, in order. */
  function Run(s: OverlayRefs, ps: seq<real>): OverlayRefs
    decreases |ps|
  {
    if ps == [] then s else Run(StepRefs(s, ps[0]), ps[1..])
  }

  predicate SameCategory(ps: seq<real>, idx: int)
  {
    forall k :: 0 <= k < |ps| ==> ActiveCategoryIndex(ps[k]) == idx
  }

  /** While the category does not change, each frame of the cooldown counts
      it down by one and holds the opacity at 0. */
  lemma {:induction false} CooldownHoldsDark(s: OverlayRefs, ps: seq<real>)
    requires SameCategory(ps, s.prevIndex)
    requires |ps| <= s.cooldown
    ensures Run(s, ps) == OverlayRefs(0.0, s.prevIndex, s.cooldown - |ps|) || ps == []
    ensures ps == [] ==> Run(s, ps) == s
    decreases |ps|
  {
    if ps != [] {
      var s' := StepRefs(s, ps[0]);
      assert s' == OverlayRefs(0.0, s.prevIndex, s.cooldown - 1);
      CooldownHoldsDark(s', ps[1..]);
    }
  }

  /** A category switch blanks the card for exactly six frames: the switch
      frame and the five after it leave the opacity at 0, and (if the
      category holds) the seventh frame is the first to move it, by 18% of
      the way to its target. */
  lemma SwitchBlanksSixFrames(s: OverlayRefs, ps: seq<real>)
    requires |ps| == 7
    requires ActiveCategoryIndex(ps[0]) != s.prevIndex
    requires SameCategory(ps, ActiveCategoryIndex(ps[0]))
    ensures forall k :: 1 <= k <= 6 ==> Run(s, ps[..k]).smoothed == 0.0
    ensures Run(s, ps).smoothed == 0.18 * CardTarget(ps[6], ActiveCategoryIndex(ps[0]))
  {
    var idx := ActiveCategoryIndex(ps[0]);
    var s1 := StepRefs(s, ps[0]);
    assert s1 == OverlayRefs(0.0, idx, 5);
    forall k | 1 <= k <= 6 ensures Run(s, ps[..k]).smoothed == 0.0 {
      var rest := ps[..k][1..];
      assert SameCategory(rest, idx);
      CooldownHoldsDark(s1, rest);
      assert Run(s, ps[..k]) == Run(s1, rest);
    }
    var rest := ps[1..6];
    assert SameCategory(rest, idx);
    CooldownHoldsDark(s1, rest);
    var s6 := Run(s1, rest);
    assert s6 == OverlayRefs(0.0, idx, 0);
    RunSplit(s1, ps[1..], 5);
    assert ps[1..][..5] == rest;
    assert ps[1..][5..] == [ps[6]];
    assert Run(s, ps) == Run(s6, [ps[6]]) == StepRefs(s6, ps[6]);
  }

  /** Running a sequence of frames is running its prefix, then the rest. */
  lemma {:induction false} RunSplit(s: OverlayRefs, ps: seq<real>, n: nat)
    requires n <= |ps|
    ensures Run(s, ps) == Run(Run(s, ps[..n]), ps[n..])
    decreases n
  {
    if n > 0 {
      RunSplit(StepRefs(s, ps[0]), ps[1..], n - 1);
      assert ps[..n][1..] == ps[1..][..n - 1];
      assert ps[1..][n - 1..] == ps[n..];
    }
  }

  /** The CategoryOverlay component: its three refs and its React state. */
  class CategoryOverlay {
    var prevSmoothed: real
    var prevIndex: int
    var transitionCooldown: int
    var state: View

    function Refs(): OverlayRefs
      reads this
    {
      OverlayRefs(prevSmoothed, prevIndex, transitionCooldown)
    }

    ghost predicate Valid()
      reads this
    {
      RefsOk(Refs()) && 0.0 <= state.opacity <= 1.0
    }

    constructor ()
      ensures Valid()
      ensures Refs() == InitialRefs
      ensures state == View(-1, 0.0, 0.0)
    {
      prevSmoothed := 0.0;
      prevIndex := -1;
      transitionCooldown := 0;
      state := View(-1, 0.0, 0.0);
    }

    /** `update`, run once per animation frame with the current progress. */
    method Update(p: real)
      requires Valid()
      modifies this
      ensures Valid()
      ensures Refs() == StepRefs(old(Refs()), p)
      ensures state == NextView(old(state), ActiveCategoryIndex(p), Round2(prevSmoothed), p)
    {
      var idx := GetActiveCategoryIndex(p);

      if idx != prevIndex {
        prevIndex := idx;
        prevSmoothed := 0.0;
        transitionCooldown := 6;
      }

      if transitionCooldown > 0 {
        transitionCooldown := transitionCooldown - 1;
        prevSmoothed := 0.0;
      } else if idx >= 0 {
        var focus := GetCategoryFocus(p, idx);
        var targetOpacity := Min(1.0, focus * 1.5);
        prevSmoothed := prevSmoothed + (targetOpacity - prevSmoothed) * 0.18;
      } else {
        prevSmoothed := prevSmoothed + (0.0 - prevSmoothed) * 0.18;
      }

      var rounded := Round2(prevSmoothed);
      state := NextView(state, idx, rounded, p);

      StepRefsOk(old(Refs()), p);
      Round2Close(prevSmoothed);
    }
  }

  /* ───── Rendered panels ───── */

  /** What the overlay shows for a published index: the category key (which
      also selects the icon) and the skills of the badge panel. */
  datatype Panels = Panels(categoryKey: Option<string>, skills: seq<string>, badgesShown: bool)

  function PanelsFor(index: int): Panels
    requires -1 <= index < |CategoryKeys|
  {
    var key := if index >= 0 then Some(CategoryKeys[index]) else None;
    var skills := if index >= 0 then SkillsByCategory()[index] else [];
    Panels(key, skills, |skills| > 0)
  }

  /** In the overview (index -1) there is no key, no icon and no skill
      list; the badge panel shows exactly for the categories with skills,
      which are all of them but "mobile". */
  lemma PanelsForSpec(index: int)
    requires -1 <= index < |CategoryKeys|
    ensures index == -1 ==> PanelsFor(index) == Panels(None, [], false)
    ensures index >= 0 ==> PanelsFor(index).categoryKey == Some(CategoryKeys[index])
    ensures PanelsFor(index).badgesShown <==> index != -1 && index != 1
  {
    SkillsByCategoryCounts();
  }
}
