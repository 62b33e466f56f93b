/** The skills universe's ring layout and its scroll-to-category mapping:
    five orbital rings, each owning a 0.16-wide slice of scroll progress. */
module OrbitalMath {
  import opened Numeric

  datatype RingConfig = RingConfig(
    key: string,
    radius: real,
    tiltDeg: real,
    tiltRad: real,
    skillCount: nat,
    startIndex: nat,   // offset of the ring's first slot in the flat skill array
    rotSpeed: real)

  /** Math.PI as the double literal JavaScript prints for it. */
  const Pi: real := 3.141592653589793
  const Deg: real := Pi / 180.0

  const RingConfigs: seq<RingConfig> := [
    RingConfig("frontend", 4.0, 5.0, 5.0 * Deg, 27, 0, 0.03),
    RingConfig("mobile", 6.5, 8.0, 8.0 * Deg, 7, 27, 0.05),
    RingConfig("backend", 9.0, -6.0, -6.0 * Deg, 12, 34, 0.04),
    RingConfig("database", 11.5, 10.0, 10.0 * Deg, 9, 46, 0.06),
    RingConfig("tools", 14.0, -4.0, -4.0 * Deg, 18, 55, 0.035)
  ]

  const TotalSkills: nat := 73

  /** Number of skill slots in the first `n` rings. */
  function SlotsBefore(rings: seq<RingConfig>, n: nat): nat
    requires n <= |rings|
  {
    if n == 0 then 0 else SlotsBefore(rings, n - 1) + rings[n - 1].skillCount
  }

  /** Each ring starts where the rings before it end, and TotalSkills is the
      number of slots of all rings together. */
  lemma RingLayoutIsPrefixSum()
    ensures |RingConfigs| == 5
    ensures forall r :: 0 <= r < |RingConfigs| ==>
              RingConfigs[r].startIndex == SlotsBefore(RingConfigs, r)
    ensures TotalSkills == SlotsBefore(RingConfigs, |RingConfigs|)
  {
    assert SlotsBefore(RingConfigs, 1) == 27;
    assert SlotsBefore(RingConfigs, 2) == 34;
    assert SlotsBefore(RingConfigs, 3) == 46;
    assert SlotsBefore(RingConfigs, 4) == 55;
    assert SlotsBefore(RingConfigs, 5) == 73;
  }

  /* ───── Scroll → category mapping ───── */

  datatype CategoryRange = CategoryRange(center: real, start: real, end: real)

  const CategoryRanges: seq<CategoryRange> := [
    CategoryRange(0.16, 0.08, 0.24),  // frontend
    CategoryRange(0.32, 0.24, 0.40),  // mobile
    CategoryRange(0.48, 0.40, 0.56),  // backend
    CategoryRange(0.64, 0.56, 0.72),  // database
    CategoryRange(0.80, 0.72, 0.88)   // tools
  ]

  predicate InRange(p: real, i: int)
  {
    0 <= i < |CategoryRanges| && CategoryRanges[i].start <= p < CategoryRanges[i].end
  }

  /** Every centre is the midpoint of its range and every half-width is 0.08. */
  lemma RangeShape(i: int)
    requires 0 <= i < |CategoryRanges|
    ensures CategoryRanges[i].center == (CategoryRanges[i].start + CategoryRanges[i].end) / 2.0
    ensures (CategoryRanges[i].end - CategoryRanges[i].start) / 2.0 == 0.08
    ensures CategoryRanges[i].start == 0.08 + 0.16 * i as real
  {
  }

  /** The first range at index `i` or later that holds `p`, or -1. */
  function ActiveIndexFrom(p: real, i: nat): int
    decreases |CategoryRanges| - i
  {
    if i >= |CategoryRanges| then -1
    else if InRange(p, i) then i
    else ActiveIndexFrom(p, i + 1)
  }

  /** getActiveCategoryIndex, as the value its search loop returns. */
  function ActiveCategoryIndex(p: real): int
  {
    ActiveIndexFrom(p, 0)
  }

  /** The ranges tile [0.08, 0.88) without overlap. */
  lemma RangesDisjoint(p: real, i: int, j: int)
    requires InRange(p, i) && InRange(p, j)
    ensures i == j
  {
    RangeShape(i);
    RangeShape(j);
  }

  lemma {:induction false} ActiveIndexFromSpec(p: real, i: nat)
    requires i <= |CategoryRanges|
    ensures var r := ActiveIndexFrom(p, i);
            (r == -1 && forall j :: i <= j < |CategoryRanges| ==> !InRange(p, j))
            || (i <= r && InRange(p, r))
    decreases |CategoryRanges| - i
  {
    if i < |CategoryRanges| && !InRange(p, i) {
      ActiveIndexFromSpec(p, i + 1);
    }
  }

  /** The active index is i exactly when p lies in range i, and -1 exactly
      when p is outside [0.08, 0.88). */
  lemma ActiveCategoryIndexSpec(p: real)
    ensures -1 <= ActiveCategoryIndex(p) < |CategoryRanges|
    ensures forall i :: 0 <= i < |CategoryRanges| ==> (ActiveCategoryIndex(p) == i <==> InRange(p, i))
    ensures ActiveCategoryIndex(p) == -1 <==> p < 0.08 || 0.88 <= p
  {
    ActiveIndexFromSpec(p, 0);
    var r := ActiveCategoryIndex(p);
    forall i | 0 <= i < |CategoryRanges| && InRange(p, i)
      ensures r == i
    {
      RangesDisjoint(p, r, i);
    }
    if 0.08 <= p < 0.88 {
      var k := ((p - 0.08) / 0.16).Floor;
      assert 0 <= k < 5;
      assert InRange(p, k);
    }
  }

  /** getActiveCategoryIndex: scan the ranges in order, returning the first
      that holds `p`, or -1 for the overview. */
  method GetActiveCategoryIndex(p: real) returns (r: int)
    ensures -1 <= r < |CategoryRanges|
    ensures r >= 0 ==> InRange(p, r)
    ensures r == -1 <==> forall i :: 0 <= i < |CategoryRanges| ==> !InRange(p, i)
    ensures r == ActiveCategoryIndex(p)
  {
    var i := 0;
    while i < |CategoryRanges|
      invariant 0 <= i <= |CategoryRanges|
      invariant forall j :: 0 <= j < i ==> !InRange(p, j)
      invariant ActiveIndexFrom(p, i) == ActiveCategoryIndex(p)
    {
      if CategoryRanges[i].start <= p < CategoryRanges[i].end {
        return i;
      }
      i := i + 1;
    }
    return -1;
  }

  /** getCategoryFocus: 1 at a range's centre, falling linearly to 0 at the
      range's edges; 0 for a ring index with no range. */
  function GetCategoryFocus(p: real, ringIndex: int): (f: real)
    ensures 0.0 <= f <= 1.0
    ensures !(0 <= ringIndex < |CategoryRanges|) ==> f == 0.0
  {
    if !(0 <= ringIndex < |CategoryRanges|) then 0.0
    else
      var range := CategoryRanges[ringIndex];
      var dist := Abs(p - range.center);
      var halfWidth := (range.end - range.start) / 2.0;
      if dist > halfWidth then 0.0 else 1.0 - dist / halfWidth
  }

  /** Focus is positive exactly within 0.08 of the centre, and equals 1
      exactly at the centre. */
  lemma FocusShape(p: real, i: int)
    requires 0 <= i < |CategoryRanges|
    ensures GetCategoryFocus(p, i) > 0.0 <==> Abs(p - CategoryRanges[i].center) < 0.08
    ensures GetCategoryFocus(p, i) == 1.0 <==> p == CategoryRanges[i].center
    ensures Abs(p - CategoryRanges[i].center) >= 0.08 ==> GetCategoryFocus(p, i) == 0.0
  {
    RangeShape(i);
  }

  /** A ring in focus is the active category: the focus window of a ring is
      inside its range. */
  lemma FocusImpliesActive(p: real, i: int)
    requires GetCategoryFocus(p, i) > 0.0
    ensures ActiveCategoryIndex(p) == i
  {
    FocusShape(p, i);
    RangeShape(i);
    assert InRange(p, i);
    ActiveCategoryIndexSpec(p);
  }

  /** getCameraTarget: the look-at point is the centre of the orbital
      system, whichever category is active. */
  function GetCameraTarget(p: real): (target: Vec3)
    ensures target == Origin
  {
    var idx := ActiveCategoryIndex(p);
    if idx < 0 then Origin
    else
      var ring := RingConfigs[idx];  // looked up but unused, as in the source
      Origin
  }

  /* ───── Category colors ───── */

  datatype Rgb = Rgb(r: real, g: real, b: real)

  /** The three gradient stops of the current theme, already parsed. */
  datatype ThemeColors = ThemeColors(gradientFrom: Rgb, gradientVia: Rgb, gradientTo: Rgb)

  datatype Stop = From | Via | To

  /** Which two gradient stops a ring's colour mixes, and by how much. */
  datatype ColorBlend = ColorBlend(first: Stop, second: Stop, factor: real)

  /** Color.lerp: each channel moves `alpha` of the way toward `to`. */
  function ColorLerp(c: Rgb, to: Rgb, alpha: real): Rgb
  {
    Rgb(Lerp(c.r, to.r, alpha), Lerp(c.g, to.g, alpha), Lerp(c.b, to.b, alpha))
  }

  /** The position t = ringIndex / (rings - 1) of a ring along the gradient. */
  function ColorParameter(ringIndex: int): real
  {
    if |RingConfigs| > 1 then ringIndex as real / (|RingConfigs| - 1) as real else 0.0
  }

  function CategoryColorBlend(ringIndex: int): ColorBlend
  {
    var t := ColorParameter(ringIndex);
    if t < 0.5 then ColorBlend(From, Via, t * 2.0) else ColorBlend(Via, To, (t - 0.5) * 2.0)
  }

  function StopColor(s: Stop, colors: ThemeColors): Rgb
  {
    match s
    case From => colors.gradientFrom
    case Via => colors.gradientVia
    case To => colors.gradientTo
  }

  /** getCategoryColor */
  function GetCategoryColor(ringIndex: int, colors: ThemeColors): Rgb
  {
    var blend := CategoryColorBlend(ringIndex);
    ColorLerp(StopColor(blend.first, colors), StopColor(blend.second, colors), blend.factor)
  }

  /** For a valid ring, t = ringIndex / 4 is in [0, 1]; the first half of
      the rings mixes from→via with factor 2t, the rest via→to with factor
      2(t - 0.5), and the factor is always in [0, 1]. */
  lemma CategoryColorBlendSpec(ringIndex: int)
    requires 0 <= ringIndex < |RingConfigs|
    ensures var t := ColorParameter(ringIndex);
            && t == ringIndex as real / 4.0
            && 0.0 <= t <= 1.0
            && (t < 0.5 ==> CategoryColorBlend(ringIndex) == ColorBlend(From, Via, 2.0 * t))
            && (t >= 0.5 ==> CategoryColorBlend(ringIndex) == ColorBlend(Via, To, 2.0 * (t - 0.5)))
    ensures 0.0 <= CategoryColorBlend(ringIndex).factor <= 1.0
  {
  }

  predicate UnitRgb(c: Rgb)
  {
    0.0 <= c.r <= 1.0 && 0.0 <= c.g <= 1.0 && 0.0 <= c.b <= 1.0
  }

  lemma ColorLerpUnit(c: Rgb, to: Rgb, alpha: real)
    requires UnitRgb(c) && UnitRgb(to) && 0.0 <= alpha <= 1.0
    ensures UnitRgb(ColorLerp(c, to, alpha))
  {
    LerpStaysIn(c.r, to.r, alpha, 0.0, 1.0);
    LerpStaysIn(c.g, to.g, alpha, 0.0, 1.0);
    LerpStaysIn(c.b, to.b, alpha, 0.0, 1.0);
  }

  /** The innermost ring takes the gradient's first stop, the middle ring its
      middle stop, the outermost its last stop. */
  lemma CategoryColorEndpoints(colors: ThemeColors)
    ensures GetCategoryColor(0, colors) == colors.gradientFrom
    ensures GetCategoryColor(2, colors) == colors.gradientVia
    ensures GetCategoryColor(4, colors) == colors.gradientTo
  {
    assert CategoryColorBlend(0) == ColorBlend(From, Via, 0.0);
    assert CategoryColorBlend(2) == ColorBlend(Via, To, 0.0);
    assert CategoryColorBlend(4) == ColorBlend(Via, To, 1.0);
  }

  /** Every ring colour is a valid colour when the theme's stops are. */
  lemma CategoryColorUnit(colors: ThemeColors, ringIndex: int)
    requires 0 <= ringIndex < |RingConfigs|
    requires UnitRgb(colors.gradientFrom) && UnitRgb(colors.gradientVia) && UnitRgb(colors.gradientTo)
    ensures UnitRgb(GetCategoryColor(ringIndex, colors))
  {
    CategoryColorBlendSpec(ringIndex);
    var blend := CategoryColorBlend(ringIndex);
    ColorLerpUnit(StopColor(blend.first, colors), StopColor(blend.second, colors), blend.factor);
  }
}
