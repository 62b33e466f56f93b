/** The skill nodes of the skills universe: the flat slot-to-ring map built
    once from the ring layout, and the per-frame rule that sizes and colours
    each node from the focus of its ring. */
module SkillNodes {
  import opened Numeric
  import opened OrbitalMath

  datatype SkillMapping = SkillMapping(
    ringIndex: int,
    angleIndex: nat,
    totalInRing: nat,
    radius: real,
    tiltRad: real,
    rotSpeed: real)

  /** `rings.indexOf(ring)`: the first position holding an equal ring, or -1. */
  function IndexOf(rings: seq<RingConfig>, ring: RingConfig): int
  {
    if rings == [] then -1
    else if rings[0] == ring then 0
    else
      var k := IndexOf(rings[1..], ring);
      if k < 0 then -1 else k + 1
  }

  /** The ring keys are distinct, so indexOf finds every ring at its own
      position. */
  lemma IndexOfRing(r: int)
    requires 0 <= r < |RingConfigs|
    ensures IndexOf(RingConfigs, RingConfigs[r]) == r
  {
    var rs := RingConfigs;
    assert forall j :: 0 <= j < r ==> rs[j].key != rs[r].key;
    IndexOfFirst(rs, r);
  }

  lemma {:induction false} IndexOfFirst(rs: seq<RingConfig>, r: nat)
    requires r < |rs|
    requires forall j :: 0 <= j < r ==> rs[j] != rs[r]
    ensures IndexOf(rs, rs[r]) == r
  {
    if r > 0 {
      assert rs[1..][r - 1] == rs[r];
      IndexOfFirst(rs[1..], r - 1);
    }
  }

  /** The entry for angle slot `k` of ring `r`. */
  function Entry(r: int, k: nat): SkillMapping
    requires 0 <= r < |RingConfigs|
  {
    var ring := RingConfigs[r];
    SkillMapping(r, k, ring.skillCount, ring.radius, ring.tiltRad, ring.rotSpeed)
  }

  /** Slot `k` of ring `r` is at its prefix-sum position in `m`. */
  predicate At(m: seq<SkillMapping>, r: int, k: nat)
    requires 0 <= r < |RingConfigs|
  {
    SlotsBefore(RingConfigs, r) + k < |m| && m[SlotsBefore(RingConfigs, r) + k] == Entry(r, k)
  }

  /** Entry `i` of `m` names a real slot of a real ring, and sits at that
      slot's prefix-sum position. */
  predicate SlotOf(m: seq<SkillMapping>, i: int)
    requires 0 <= i < |m|
  {
    var e := m[i];
    && 0 <= e.ringIndex < |RingConfigs|
    && e.angleIndex < RingConfigs[e.ringIndex].skillCount
    && e == Entry(e.ringIndex, e.angleIndex)
    && SlotsBefore(RingConfigs, e.ringIndex) + e.angleIndex == i
  }

  /** Extending a map keeps the slots it already placed. */
  lemma AtExtend(m: seq<SkillMapping>, m2: seq<SkillMapping>, r: int, k: nat)
    requires 0 <= r < |RingConfigs|
    requires |m| <= |m2| && m2[..|m|] == m
    requires At(m, r, k)
    ensures At(m2, r, k)
  {
    var j := SlotsBefore(RingConfigs, r) + k;
    assert m2[j] == m2[..|m|][j];
  }

  lemma SlotOfExtend(m: seq<SkillMapping>, m2: seq<SkillMapping>, i: int)
    requires 0 <= i < |m| <= |m2| && m2[..|m|] == m
    requires SlotOf(m, i)
    ensures SlotOf(m2, i) && m2[i] == m[i]
  {
    assert m2[i] == m2[..|m|][i];
  }

  /** skillMap: one entry per slot, ring by ring, with the angle index
      running through the ring's slots; the entry at startIndex + k is slot
      k of that ring, and every entry is such a slot. */
  method BuildSkillMap() returns (m: seq<SkillMapping>)
    ensures |m| == TotalSkills
    ensures forall r, k :: 0 <= r < |RingConfigs| && 0 <= k < RingConfigs[r].skillCount ==>
              RingConfigs[r].startIndex + k < |m| && m[RingConfigs[r].startIndex + k] == Entry(r, k)
    ensures forall i :: 0 <= i < |m| ==>
              && 0 <= m[i].ringIndex < |RingConfigs|
              && m[i].angleIndex < m[i].totalInRing
              && RingConfigs[m[i].ringIndex].startIndex + m[i].angleIndex == i
              && m[i] == Entry(m[i].ringIndex, m[i].angleIndex)
  {
    m := [];
    var r := 0;
    while r < |RingConfigs|
      invariant 0 <= r <= |RingConfigs|
      invariant |m| == SlotsBefore(RingConfigs, r)
      invariant forall r', k :: 0 <= r' < r && 0 <= k < RingConfigs[r'].skillCount ==> At(m, r', k)
      invariant forall i :: 0 <= i < |m| ==> SlotOf(m, i) && m[i].ringIndex < r
    {
      var ring := RingConfigs[r];
      ghost var m0 := m;
      var i := 0;
      while i < ring.skillCount
        invariant 0 <= i <= ring.skillCount
        invariant |m| == |m0| + i && m[..|m0|] == m0
        invariant forall k :: 0 <= k < i ==> At(m, r, k)
        invariant forall j :: |m0| <= j < |m| ==> SlotOf(m, j) && m[j].ringIndex == r
      {
        IndexOfRing(r);
        var entry := SkillMapping(IndexOf(RingConfigs, ring), i, ring.skillCount, ring.radius, ring.tiltRad, ring.rotSpeed);
        PushSlot(m, m0, r, i);
        m := m + [entry];
        i := i + 1;
      }
      forall r', k | 0 <= r' < r && 0 <= k < RingConfigs[r'].skillCount
        ensures At(m, r', k)
      {
        AtExtend(m0, m, r', k);
      }
      forall j | 0 <= j < |m0|
        ensures SlotOf(m, j) && m[j].ringIndex < r + 1
      {
        SlotOfExtend(m0, m, j);
      }
      r := r + 1;
    }
    CompleteMap(m);
  }

  /** Appending slot i of ring r keeps the inner loop's invariants. */
  lemma PushSlot(before: seq<SkillMapping>, m0: seq<SkillMapping>, r: int, i: nat)
    requires 0 <= r < |RingConfigs| && i < RingConfigs[r].skillCount
    requires |m0| == SlotsBefore(RingConfigs, r)
    requires |before| == |m0| + i && before[..|m0|] == m0
    requires forall k :: 0 <= k < i ==> At(before, r, k)
    requires forall j :: |m0| <= j < |before| ==> SlotOf(before, j) && before[j].ringIndex == r
    ensures var m := before + [Entry(r, i)];
            && m[..|m0|] == m0
            && (forall k :: 0 <= k < i + 1 ==> At(m, r, k))
            && (forall j :: |m0| <= j < |m| ==> SlotOf(m, j) && m[j].ringIndex == r)
  {
    var m := before + [Entry(r, i)];
    assert m[..|before|] == before;
    forall k | 0 <= k < i
      ensures At(m, r, k)
    {
      AtExtend(before, m, r, k);
    }
    forall j | |m0| <= j < |before|
      ensures SlotOf(m, j) && m[j].ringIndex == r
    {
      SlotOfExtend(before, m, j);
    }
    assert m[..|m0|] == before[..|m0|];
  }

  /** A map holding every slot at its prefix-sum position, and only such
      slots, meets the layout's start indices. */
  lemma CompleteMap(m: seq<SkillMapping>)
    requires |m| == SlotsBefore(RingConfigs, |RingConfigs|)
    requires forall r, k :: 0 <= r < |RingConfigs| && 0 <= k < RingConfigs[r].skillCount ==> At(m, r, k)
    requires forall i :: 0 <= i < |m| ==> SlotOf(m, i)
    ensures |m| == TotalSkills
    ensures forall r, k :: 0 <= r < |RingConfigs| && 0 <= k < RingConfigs[r].skillCount ==>
              RingConfigs[r].startIndex + k < |m| && m[RingConfigs[r].startIndex + k] == Entry(r, k)
    ensures forall i :: 0 <= i < |m| ==>
              && 0 <= m[i].ringIndex < |RingConfigs|
              && m[i].angleIndex < m[i].totalInRing
              && RingConfigs[m[i].ringIndex].startIndex + m[i].angleIndex == i
              && m[i] == Entry(m[i].ringIndex, m[i].angleIndex)
  {
    RingLayoutIsPrefixSum();
    forall r, k | 0 <= r < |RingConfigs| && 0 <= k < RingConfigs[r].skillCount
      ensures RingConfigs[r].startIndex + k < |m| && m[RingConfigs[r].startIndex + k] == Entry(r, k)
    {
      assert At(m, r, k);
    }
    forall i | 0 <= i < |m|
      ensures && 0 <= m[i].ringIndex < |RingConfigs|
              && m[i].angleIndex < m[i].totalInRing
              && RingConfigs[m[i].ringIndex].startIndex + m[i].angleIndex == i
              && m[i] == Entry(m[i].ringIndex, m[i].angleIndex)
    {
      assert SlotOf(m, i);
    }
  }

  /* ───── Per-frame node look ───── */

  /** Some category is active and this ring is out of focus. */
  predicate Dimmed(p: real, ringIndex: int)
  {
    ActiveCategoryIndex(p) >= 0 && GetCategoryFocus(p, ringIndex) == 0.0
  }

  /** A ring is dimmed exactly when a category is active and the ring is
      another one, or the progress sits on the very first point of the
      ring's own range (where its focus is still 0). */
  lemma DimmedSpec(p: real, i: int)
    requires 0 <= i < |CategoryRanges|
    ensures Dimmed(p, i) <==>
              ActiveCategoryIndex(p) >= 0 && (ActiveCategoryIndex(p) != i || p == CategoryRanges[i].start)
  {
    ActiveCategoryIndexSpec(p);
    FocusShape(p, i);
    RangeShape(i);
    if GetCategoryFocus(p, i) > 0.0 {
      FocusImpliesActive(p, i);
    }
  }

  /** The size factor: 0.6 when dimmed, 1 + focus otherwise. */
  function FocusScale(p: real, ringIndex: int): real
  {
    if Dimmed(p, ringIndex) then 0.6 else 1.0 + GetCategoryFocus(p, ringIndex) * 1.0
  }

  const BaseSize: real := 0.18

  /** A dimmed node is shrunk to 0.6; any other node is scaled by a factor
      in [1, 2] that grows with its ring's focus, so every node's size lies
      in [0.108, 0.36]. */
  lemma FocusScaleSpec(p: real, ringIndex: int)
    ensures Dimmed(p, ringIndex) ==> FocusScale(p, ringIndex) == 0.6
    ensures !Dimmed(p, ringIndex) ==> 1.0 <= FocusScale(p, ringIndex) <= 2.0
    ensures 0.108 <= BaseSize * FocusScale(p, ringIndex) <= 0.36
  {
  }

  /** The three colour branches of a node. */
  datatype ColorRule = Highlight(towardWhite: real) | Greyed | Plain

  function NodeColorRule(p: real, ringIndex: int): ColorRule
  {
    var focus := GetCategoryFocus(p, ringIndex);
    if focus > 0.0 then Highlight(focus * 0.5)
    else if Dimmed(p, ringIndex) then Greyed
    else Plain
  }

  /** The branches are exclusive and exhaustive: a node is highlighted
      exactly when its ring is in focus (by at most half-way to white),
      greyed exactly when it is dimmed, and plain otherwise. Only the active
      ring can be highlighted. */
  lemma NodeColorRuleSpec(p: real, ringIndex: int)
    ensures NodeColorRule(p, ringIndex).Highlight? <==> GetCategoryFocus(p, ringIndex) > 0.0
    ensures NodeColorRule(p, ringIndex).Greyed? <==> Dimmed(p, ringIndex)
    ensures NodeColorRule(p, ringIndex).Plain? <==> !Dimmed(p, ringIndex) && GetCategoryFocus(p, ringIndex) == 0.0
    ensures NodeColorRule(p, ringIndex).Highlight? ==>
              0.0 < NodeColorRule(p, ringIndex).towardWhite <= 0.5 && ActiveCategoryIndex(p) == ringIndex
  {
    if GetCategoryFocus(p, ringIndex) > 0.0 {
      FocusImpliesActive(p, ringIndex);
    }
  }

  const White: Rgb := Rgb(1.0, 1.0, 1.0)
  /** "#333333" */
  const DarkGrey: Rgb := Rgb(51.0 / 255.0, 51.0 / 255.0, 51.0 / 255.0)

  function NodeColor(p: real, ringIndex: int, colors: ThemeColors): Rgb
  {
    var base := GetCategoryColor(ringIndex, colors);
    match NodeColorRule(p, ringIndex)
    case Highlight(a) => ColorLerp(base, White, a)
    case Greyed => ColorLerp(DarkGrey, base, 0.2)
    case Plain => base
  }

  /** The frame callback: for every slot, write the node's size and colour
      into the instanced mesh's buffers (positions are left out). */
  method Frame(skillMap: seq<SkillMapping>, progress: real, colors: ThemeColors,
               meshPresent: bool, scales: array<real>, nodeColors: array<Rgb>)
    requires |skillMap| == TotalSkills
    requires scales.Length == TotalSkills && nodeColors.Length == TotalSkills
    modifies scales, nodeColors
    ensures !meshPresent ==> scales[..] == old(scales[..]) && nodeColors[..] == old(nodeColors[..])
    ensures meshPresent ==> forall i :: 0 <= i < TotalSkills ==>
              && scales[i] == BaseSize * FocusScale(progress, skillMap[i].ringIndex)
              && nodeColors[i] == NodeColor(progress, skillMap[i].ringIndex, colors)
  {
    if !meshPresent {
      return;
    }
    var i := 0;
    while i < TotalSkills
      invariant 0 <= i <= TotalSkills
      invariant forall j :: 0 <= j < i ==>
                  && scales[j] == BaseSize * FocusScale(progress, skillMap[j].ringIndex)
                  && nodeColors[j] == NodeColor(progress, skillMap[j].ringIndex, colors)
    {
      var ringIndex := skillMap[i].ringIndex;
      var focus := GetCategoryFocus(progress, ringIndex);
      var activeIndex := GetActiveCategoryIndex(progress);
      var anyActive := activeIndex >= 0;
      var dimmed := anyActive && focus == 0.0;
      var focusScale := if dimmed then 0.6 else 1.0 + focus * 1.0;
      scales[i] := BaseSize * focusScale;

      var base := GetCategoryColor(ringIndex, colors);
      var color;
      if focus > 0.0 {
        color := ColorLerp(base, White, focus * 0.5);
      } else if dimmed {
        color := ColorLerp(DarkGrey, base, 0.2);
      } else {
        color := base;
      }
      nodeColors[i] := color;
      i := i + 1;
    }
  }
}
