/** The 3D variant of the photo gallery: six frames spaced along a camera
    curve, each lit up by its proximity to the scroll progress, the
    constellation of lines and dots between the frames, and the lights that
    travel along those lines. */
module GalleryScene3D {
  import opened Numeric
  import OrbitalMath
  import PhotoCard

  /** PHOTO_POSITIONS and PHOTO_ROTATIONS: six slots, 9 units apart in depth. */
  const Positions: seq<Vec3> := [
    Vec3(2.2, 0.3, -5.0),
    Vec3(-2.0, -0.4, -14.0),
    Vec3(1.8, 0.6, -23.0),
    Vec3(-1.5, -0.2, -32.0),
    Vec3(2.0, 0.4, -41.0),
    Vec3(-1.8, -0.3, -50.0)
  ]

  const Rotations: seq<Vec3> := [
    Vec3(0.0, -0.15, 0.02),
    Vec3(0.0, 0.18, -0.03),
    Vec3(0.0, -0.12, 0.04),
    Vec3(0.0, 0.14, -0.02),
    Vec3(0.0, -0.16, 0.03),
    Vec3(0.0, 0.13, -0.02)
  ]

  /** `PHOTO_POSITIONS[i] ?? PHOTO_POSITIONS[i % length]`, and the same for
      the rotations. */
  function PlacementFor(i: nat): (Vec3, Vec3)
  {
    var pos := if i < |Positions| then Positions[i] else Positions[i % |Positions|];
    var rot := if i < |Rotations| then Rotations[i] else Rotations[i % |Rotations|];
    (pos, rot)
  }

  /** Item i takes the slot i mod 6: the layout repeats every six items. */
  lemma PlacementCycles(i: nat)
    ensures PlacementFor(i) == (Positions[i % 6], Rotations[i % 6])
    ensures PlacementFor(i + 6) == PlacementFor(i)
  {
  }

  /** The scroll progress at which item `index` of `total` is centred. */
  function ProgressTarget(index: nat, total: nat): real
  {
    (index as real + 1.0) / (total as real + 1.0)
  }

  /** Every item's target lies strictly inside (0, 1), a lone item's
      included. */
  lemma ProgressTargetIn(i: nat, total: nat)
    requires i < total
    ensures 0.0 < ProgressTarget(i, total) < 1.0
  {
    var n := total as real + 1.0;
    assert ProgressTarget(i, total) * n == i as real + 1.0;
    if ProgressTarget(i, total) >= 1.0 {
      MulNonNegative(ProgressTarget(i, total) - 1.0, n);
      assert false;
    }
  }

  /** Every item's target lies strictly inside (0, 1), and later items come
      strictly later. */
  lemma ProgressTargetSpec(i: nat, j: nat, total: nat)
    requires i < j < total
    ensures 0.0 < ProgressTarget(i, total) < 1.0
    ensures 0.0 < ProgressTarget(j, total) < 1.0
    ensures ProgressTarget(i, total) < ProgressTarget(j, total)
  {
    var n := total as real + 1.0;
    assert ProgressTarget(i, total) * n == i as real + 1.0;
    assert ProgressTarget(j, total) * n == j as real + 1.0;
    if ProgressTarget(j, total) <= ProgressTarget(i, total) {
      MulNonNegative(ProgressTarget(i, total) - ProgressTarget(j, total), n);
      assert false;
    }
  }

  /** `x ** 2` */
  function Square(x: real): real
  {
    x * x
  }

  /** Squaring is positive off zero and monotone on [0, 1], where it stays
      below 1. */
  lemma SquareFacts(x: real, y: real)
    requires 0.0 <= x <= y
    ensures 0.0 <= Square(x) <= Square(y)
    ensures Square(x) == 0.0 <==> x == 0.0
    ensures y < 1.0 ==> Square(y) < 1.0
  {
    calc {
      Square(x);
    ==
      x * x;
    >= { MulNonNegative(x, x); }
      0.0;
    }
    calc {
      Square(y) - Square(x);
    ==
      (y - x) * (y + x);
    >= { MulNonNegative(y - x, y + x); }
      0.0;
    }
    if x > 0.0 {
      calc {
        Square(x);
      ==
        x * x;
      > { MulPositive(x, x); }
        0.0;
      }
    }
    if y < 1.0 {
      calc {
        Square(y);
      ==
        y - y * (1.0 - y);
      <= { MulNonNegative(y, 1.0 - y); }
        y;
      }
    }
  }

  /** How close the progress is to an item: a downward parabola of width 0.1. */
  function Proximity(dist: real): real
  {
    if dist < 0.1 then 1.0 - Square(dist / 0.1) else 0.0
  }

  /** For a distance d >= 0, proximity lies in [0, 1], is 1 exactly at d = 0,
      positive exactly while d < 0.1, and never grows with distance. */
  lemma ProximitySpec(dist: real, further: real)
    requires 0.0 <= dist <= further
    ensures 0.0 <= Proximity(dist) <= 1.0
    ensures Proximity(dist) == 1.0 <==> dist == 0.0
    ensures Proximity(dist) > 0.0 <==> dist < 0.1
    ensures Proximity(further) <= Proximity(dist)
  {
    if further < 0.1 {
      SquareFacts(dist / 0.1, further / 0.1);
    } else if dist < 0.1 {
      SquareFacts(dist / 0.1, dist / 0.1);
    }
  }

  lemma MulPositive(a: real, b: real)
    requires a > 0.0 && b > 0.0
    ensures a * b > 0.0
  {
  }

  /** What a frame shows for a given proximity. */
  datatype Look = Look(scale: real, glowOpacity: real, contentOpacity: real, captionOpacity: real)

  function LookFor(proximity: real): (l: Look)
  {
    Look(1.0 + proximity * 0.06, 0.04 + proximity * 0.25, Max(proximity, 0.3), proximity)
  }

  /** For a proximity in [0, 1]: scale in [1, 1.06], glow in [0.04, 0.29],
      video content never below 0.3, and the caption exactly as visible as
      the frame is close; all of them rise with proximity. */
  lemma LookForSpec(proximity: real, closer: real)
    requires 0.0 <= proximity <= closer <= 1.0
    ensures var l := LookFor(proximity);
            && 1.0 <= l.scale <= 1.06
            && 0.04 <= l.glowOpacity <= 0.29
            && 0.3 <= l.contentOpacity <= 1.0
            && l.captionOpacity == proximity
    ensures LookFor(proximity).scale <= LookFor(closer).scale
    ensures LookFor(proximity).glowOpacity <= LookFor(closer).glowOpacity
    ensures LookFor(proximity).contentOpacity <= LookFor(closer).contentOpacity
  {
  }

  /** The video flag's hysteresis: on above 0.3, off at or below 0.1,
      unchanged in between. */
  function NextPlaying(proximity: real, wasPlaying: bool): bool
  {
    if proximity > 0.3 then true else if proximity <= 0.1 then false else wasPlaying
  }

  function HysteresisCommand(proximity: real, wasPlaying: bool): PhotoCard.Command
  {
    if proximity > 0.3 && !wasPlaying then PhotoCard.Play
    else if proximity <= 0.1 && wasPlaying then PhotoCard.Pause
    else PhotoCard.NoCommand
  }

  /** A command is sent exactly when the flag flips; a proximity that stays
      inside the band (0.1, 0.3] never flips it, so a video near a threshold
      does not flicker. */
  lemma HysteresisSpec(proximity: real, wasPlaying: bool)
    ensures HysteresisCommand(proximity, wasPlaying) == PhotoCard.Play <==> !wasPlaying && NextPlaying(proximity, wasPlaying)
    ensures HysteresisCommand(proximity, wasPlaying) == PhotoCard.Pause <==> wasPlaying && !NextPlaying(proximity, wasPlaying)
    ensures 0.1 < proximity <= 0.3 ==> NextPlaying(proximity, wasPlaying) == wasPlaying
    ensures NextPlaying(proximity, wasPlaying) ==> proximity > 0.1
    ensures !NextPlaying(proximity, wasPlaying) ==> proximity <= 0.3
  {
  }

  /** VideoFrame: its look and the playing flag. */
  class VideoFrame {
    const progressTarget: real
    var wasPlaying: bool
    var scale: real
    var glowOpacity: real
    var contentOpacity: real

    /** The first render: unit scale, the glow material at 0.04 and the
        content at 0.3, before any frame has run. */
    constructor (index: nat, total: nat)
      ensures progressTarget == ProgressTarget(index, total)
      ensures !wasPlaying
      ensures scale == 1.0 && glowOpacity == 0.04 && contentOpacity == 0.3
      ensures var l := LookFor(0.0); scale == l.scale && glowOpacity == l.glowOpacity && contentOpacity == l.contentOpacity
    {
      progressTarget := (index as real + 1.0) / (total as real + 1.0);
      wasPlaying := false;
      scale := 1.0;
      glowOpacity := 0.04;
      contentOpacity := 0.3;
    }

    /** The frame callback; `videoPresent` says whether the video element
        is mounted. Returns the command sent to it. */
    method Frame(p: real, videoPresent: bool) returns (cmd: PhotoCard.Command)
      modifies this
      ensures var l := LookFor(Proximity(Abs(p - progressTarget)));
              scale == l.scale && glowOpacity == l.glowOpacity && contentOpacity == l.contentOpacity
      ensures cmd == if videoPresent then HysteresisCommand(Proximity(Abs(p - progressTarget)), old(wasPlaying)) else PhotoCard.NoCommand
      ensures wasPlaying == if videoPresent then NextPlaying(Proximity(Abs(p - progressTarget)), old(wasPlaying)) else old(wasPlaying)
    {
      var dist := Abs(p - progressTarget);
      var proximity := if dist < 0.1 then 1.0 - Square(dist / 0.1) else 0.0;

      scale := 1.0 + proximity * 0.06;
      glowOpacity := 0.04 + proximity * 0.25;
      contentOpacity := Max(proximity, 0.3);

      cmd := PhotoCard.NoCommand;
      if videoPresent {
        if proximity > 0.3 && !wasPlaying {
          cmd := PhotoCard.Play;
          wasPlaying := true;
        } else if proximity <= 0.1 && wasPlaying {
          cmd := PhotoCard.Pause;
          wasPlaying := false;
        }
      }
    }
  }

  /** PhotoFrame: its look, with the caption fading with proximity. */
  class PhotoFrame {
    const progressTarget: real
    var scale: real
    var glowOpacity: real
    var captionOpacity: real

    /** The first render: unit scale, the glow material at 0.04 and the
        caption hidden, which is the look of a frame far from its target. */
    constructor (index: nat, total: nat)
      ensures progressTarget == ProgressTarget(index, total)
      ensures scale == 1.0 && glowOpacity == 0.04 && captionOpacity == 0.0
      ensures var l := LookFor(0.0); scale == l.scale && glowOpacity == l.glowOpacity && captionOpacity == l.captionOpacity
    {
      progressTarget := (index as real + 1.0) / (total as real + 1.0);
      scale := 1.0;
      glowOpacity := 0.04;
      captionOpacity := 0.0;
    }

    method Frame(p: real)
      modifies this
      ensures var l := LookFor(Proximity(Abs(p - progressTarget)));
              scale == l.scale && glowOpacity == l.glowOpacity && captionOpacity == l.captionOpacity
    {
      var dist := Abs(p - progressTarget);
      var proximity := if dist < 0.1 then 1.0 - Square(dist / 0.1) else 0.0;
      scale := 1.0 + proximity * 0.06;
      glowOpacity := 0.04 + proximity * 0.25;
      captionOpacity := proximity;
    }
  }

  /* ───── Constellation ───── */

  /** The six coordinates `...from, ...to` of one line segment. */
  function SegmentCoords(from: Vec3, to: Vec3): seq<real>
  {
    [from.x, from.y, from.z, to.x, to.y, to.z]
  }

  /** Segment `a` of the line array joins positions a and a + 1. */
  predicate LineAt(positions: seq<real>, pts: seq<Vec3>, a: int)
    requires 0 <= a < |pts| - 1
  {
    6 * a + 6 <= |positions| && positions[6 * a..6 * a + 6] == SegmentCoords(pts[a], pts[a + 1])
  }

  /** Dot `b` of segment `a` sits (b + 1) quarters of the way along it. */
  predicate DotAt(dots: seq<Vec3>, pts: seq<Vec3>, a: int, b: int)
    requires 0 <= a < |pts| - 1 && 0 <= b
  {
    3 * a + b < |dots| && dots[3 * a + b] == LerpVec(pts[a], pts[a + 1], 0.25 * (b as real + 1.0))
  }

  /** The inner loop `for (t = 0.25; t <= 0.75; t += 0.25)`: three dots. */
  method SegmentDots(from: Vec3, to: Vec3) returns (ds: seq<Vec3>)
    ensures |ds| == 3
    ensures forall b :: 0 <= b < 3 ==> ds[b] == LerpVec(from, to, 0.25 * (b as real + 1.0))
  {
    ds := [];
    var t := 0.25;
    ghost var j := 0;
    while t <= 0.75
      invariant 0 <= j <= 3
      invariant t == 0.25 * (j as real + 1.0)
      invariant |ds| == j
      invariant forall b :: 0 <= b < j ==> ds[b] == LerpVec(from, to, 0.25 * (b as real + 1.0))
      decreases 3 - j
    {
      var dot := Vec3(from.x + (to.x - from.x) * t, from.y + (to.y - from.y) * t, from.z + (to.z - from.z) * t);
      assert dot == LerpVec(from, to, 0.25 * (j as real + 1.0));
      ds := ds + [dot];
      t := t + 0.25;
      j := j + 1;
    }
  }

  /** ConstellationLines: for each pair of consecutive positions, one line
      segment (six numbers) and three dots at a quarter, half and three
      quarters of the way. */
  method ConstellationLines(pts: seq<Vec3>) returns (positions: seq<real>, dots: seq<Vec3>)
    ensures |pts| == 0 ==> positions == [] && dots == []
    ensures |pts| > 0 ==> |positions| == 6 * (|pts| - 1) && |dots| == 3 * (|pts| - 1)
    ensures forall a :: 0 <= a < |pts| - 1 ==> LineAt(positions, pts, a)
    ensures forall a, b :: 0 <= a < |pts| - 1 && 0 <= b < 3 ==> DotAt(dots, pts, a, b)
  {
    positions := [];
    dots := [];
    var i := 0;
    while i < |pts| - 1
      invariant 0 <= i && (|pts| > 0 ==> i <= |pts| - 1)
      invariant |pts| == 0 ==> i == 0
      invariant |positions| == 6 * i && |dots| == 3 * i
      invariant forall a :: 0 <= a < i ==> LineAt(positions, pts, a)
      invariant forall a, b :: 0 <= a < i && 0 <= b < 3 ==> DotAt(dots, pts, a, b)
    {
      var from := pts[i];
      var to := pts[i + 1];
      var prevPositions := positions;
      positions := positions + [from.x, from.y, from.z, to.x, to.y, to.z];
      forall a | 0 <= a < i
        ensures LineAt(positions, pts, a)
      {
        assert LineAt(prevPositions, pts, a);
        assert positions[6 * a..6 * a + 6] == prevPositions[6 * a..6 * a + 6];
      }
      assert positions[6 * i..6 * i + 6] == SegmentCoords(from, to);

      var ds := SegmentDots(from, to);
      var prevDots := dots;
      dots := dots + ds;
      forall a, b | 0 <= a < i && 0 <= b < 3
        ensures DotAt(dots, pts, a, b)
      {
        assert DotAt(prevDots, pts, a, b);
      }
      forall b | 0 <= b < 3
        ensures DotAt(dots, pts, i, b)
      {
        assert dots[3 * i + b] == ds[b];
      }
      i := i + 1;
    }
  }

  /* ───── Traveling lights ───── */

  /** JavaScript's `x % 1` on a number: the remainder keeps the sign of x. */
  function JsRem1(x: real): real
  {
    if x >= 0.0 then x - x.Floor as real else x + (-x).Floor as real
  }

  /** `((x % 1) + 1) % 1`, the wrapped phase of a light. */
  function Phase(x: real): real
  {
    JsRem1(JsRem1(x) + 1.0)
  }

  /** The double remainder is the fractional part x - floor(x), so the
      phase always lies in [0, 1), also for negative x. */
  lemma PhaseSpec(x: real)
    ensures Phase(x) == x - x.Floor as real
    ensures 0.0 <= Phase(x) < 1.0
  {
    var r := JsRem1(x);
    assert -1.0 < r < 1.0;
    if x >= 0.0 {
      assert 0.0 <= r < 1.0;
      assert (r + 1.0).Floor == 1;
    } else {
      var m := (-x).Floor;
      assert r == x + m as real;
      if r == 0.0 {
        assert x.Floor == -m;
        assert (r + 1.0).Floor == 1;
      } else {
        assert x.Floor == -m - 1;
        assert 0.0 < r + 1.0 < 1.0;
        assert (r + 1.0).Floor == 0;
      }
    }
  }

  /** The segments the lights travel along: consecutive positions. */
  function Segments(): (segs: seq<(Vec3, Vec3)>)
    ensures |segs| == |Positions| - 1
  {
    seq(|Positions| - 1, i requires 0 <= i < |Positions| - 1 => (Positions[i], Positions[i + 1]))
  }

  /** Two lights are rendered per segment. */
  function LightCount(): (n: nat)
    ensures n == 2 * |Segments()| && n == 10
  {
    |Segments()| * 2
  }

  /** The speed of light i. */
  function LightSpeed(i: nat): real
  {
    0.12 + (i % 3) as real * 0.04
  }

  /** The start offset of light i: the lights are spread evenly around one
      turn. */
  function LightOffset(i: nat, count: nat): real
    requires i < count
  {
    (i as real / count as real) * OrbitalMath.Pi * 2.0
  }

  /** How far along its segment light i is at `time`: its speed times the
      time plus its offset, wrapped into one lap. */
  function LightParam(i: nat, count: nat, time: real): real
    requires i < count
  {
    Phase(time * LightSpeed(i) + LightOffset(i, count))
  }

  /** Where light i of `count` is at `time`: along segment i mod 5, at the
      wrapped phase of its speed and evenly spread start offset. */
  function LightPosition(i: nat, count: nat, time: real): Vec3
    requires i < count
  {
    var seg := Segments()[i % |Segments()|];
    LerpVec(seg.0, seg.1, LightParam(i, count, time))
  }

  /** Every light uses one of the five segments, at one of the three speeds
      0.12, 0.16, 0.2, and sits on that segment: its parameter is in [0, 1). */
  lemma LightPositionSpec(i: nat, count: nat, time: real)
    requires i < count
    ensures 0 <= i % |Segments()| < 5
    ensures LightSpeed(i) == 0.12 || LightSpeed(i) == 0.16 || LightSpeed(i) == 0.2
    ensures exists t :: 0.0 <= t < 1.0 &&
              LightPosition(i, count, time) == LerpVec(Segments()[i % 5].0, Segments()[i % 5].1, t)
  {
    var t := LightParam(i, count, time);
    PhaseSpec(time * LightSpeed(i) + LightOffset(i, count));
    assert |Segments()| == 5;
    assert 0.0 <= t < 1.0 &&
      LightPosition(i, count, time) == LerpVec(Segments()[i % 5].0, Segments()[i % 5].1, t);
  }

  /** TravelingLights' frame callback: place every light of the group. */
  method LightsFrame(time: real, lights: array<Vec3>)
    modifies lights
    ensures forall i :: 0 <= i < lights.Length ==> lights[i] == LightPosition(i, lights.Length, time)
  {
    var segments := Segments();
    var count := lights.Length;
    var i := 0;
    while i < count
      invariant 0 <= i <= count
      invariant forall j :: 0 <= j < i ==> lights[j] == LightPosition(j, count, time)
    {
      var seg := segments[i % |segments|];
      var t := LightParam(i, count, time);
      lights[i] := LerpVec(seg.0, seg.1, t);
      i := i + 1;
    }
  }

  /* ───── Camera rig ───── */

  /** The point slightly ahead on the curve the camera looks at. */
  function AheadParam(t: real): (a: real)
    requires 0.001 <= t <= 0.999
    ensures t <= a <= 0.999
    ensures t <= 0.974 ==> a == t + 0.025
  {
    Min(0.999, t + 0.025)
  }

  /** CameraRig: the camera position it eases along the curve, the point it
      looks at, and the fog band that follows it. */
  class CameraRig {
    var position: Vec3
    var lookTarget: Vec3
    var fogNear: real
    var fogFar: real

    constructor ()
      ensures position == Vec3(0.0, 0.0, 6.0)
      ensures fogNear == 10.0 && fogFar == 35.0
    {
      position := Vec3(0.0, 0.0, 6.0);
      lookTarget := Origin;
      fogNear := 10.0;
      fogFar := 35.0;
    }

    /** The frame callback, for the curve `curve` and a fog attached to the
        scene. */
    method Frame(progress: real, curve: real -> Vec3)
      modifies this
      ensures var t := Clamp(progress, 0.001, 0.999);
              && position == LerpVec(old(position), curve(t), 0.05)
              && lookTarget == curve(AheadParam(t))
      ensures fogNear == position.z - 3.0 && fogFar == position.z - 28.0
    {
      var t := Max(0.001, Min(0.999, progress));
      var pos := curve(t);
      var ahead := curve(Min(0.999, t + 0.025));
      position := Vec3(position.x + (pos.x - position.x) * 0.05,
                       position.y + (pos.y - position.y) * 0.05,
                       position.z + (pos.z - position.z) * 0.05);
      lookTarget := ahead;
      fogNear := position.z - 3.0;
      fogFar := position.z - 28.0;
    }
  }
}
