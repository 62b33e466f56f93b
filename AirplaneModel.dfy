/** The paper airplane of the airplane journey: its hand-built mesh, and
    the per-frame state that eases it along the flight curve, remembers
    which way the reader is scrolling and turns the plane to match. */
module AirplaneModel {
  import opened Numeric

  /** Seven vertices, three coordinates each: nose, left wing outer, left
      fold, right fold, right wing outer, tail top, tail bottom. */
  const Vertices: seq<real> := [
    0.0, 0.0, -1.0,
    -1.0, 0.0, 0.4,
    -0.12, 0.12, 0.3,
    0.12, 0.12, 0.3,
    1.0, 0.0, 0.4,
    0.0, 0.2, 0.7,
    0.0, -0.05, 0.7
  ]

  /** Ten triangles: wings and body, top and bottom, and the tail. */
  const Indices: seq<nat> := [
    0, 1, 2,
    0, 4, 3,
    0, 2, 5,
    0, 5, 3,
    0, 2, 1,
    0, 3, 4,
    0, 6, 2,
    0, 3, 6,
    2, 5, 3,
    2, 3, 6
  ]

  function VertexCount(): nat
  {
    |Vertices| / 3
  }

  /** The corners of triangle k. */
  function Triangle(k: nat): (nat, nat, nat)
    requires 3 * k + 2 < |Indices|
  {
    (Indices[3 * k], Indices[3 * k + 1], Indices[3 * k + 2])
  }

  /** The index buffer is well formed: 7 whole vertices, 10 whole
      triangles, every index names an existing vertex, and no triangle
      repeats a corner. */
  lemma MeshWellFormed()
    ensures |Vertices| == 21 && |Vertices| % 3 == 0 && VertexCount() == 7
    ensures |Indices| == 30 && |Indices| % 3 == 0
    ensures forall i :: 0 <= i < |Indices| ==> Indices[i] < VertexCount()
    ensures forall k :: 0 <= k < 10 ==>
              Triangle(k).0 != Triangle(k).1 && Triangle(k).1 != Triangle(k).2 && Triangle(k).0 != Triangle(k).2
  {
  }

  /** The curve parameter: the smoothed progress kept inside [0.001, 0.999]. */
  function CurveT(smooth: real): (t: real)
    ensures 0.001 <= t <= 0.999
    ensures 0.001 <= smooth <= 0.999 ==> t == smooth
  {
    Max(0.001, Min(0.999, smooth))
  }

  /** The direction estimate after the curve parameter moved by `delta`:
      8% of the way toward -1 or +1 for a real move, unchanged for a
      jitter of at most 0.0001. */
  function NextDirection(direction: real, delta: real): real
  {
    if Abs(delta) > 0.0001 then Lerp(direction, if delta < 0.0 then -1.0 else 1.0, 0.08) else direction
  }

  /** The direction stays within [-1, 1]; it rises on a forward move, falls
      on a backward one and ignores jitter. */
  lemma NextDirectionSpec(direction: real, delta: real)
    requires -1.0 <= direction <= 1.0
    ensures -1.0 <= NextDirection(direction, delta) <= 1.0
    ensures delta > 0.0001 ==> direction <= NextDirection(direction, delta)
    ensures delta < -0.0001 ==> NextDirection(direction, delta) <= direction
    ensures Abs(delta) <= 0.0001 ==> NextDirection(direction, delta) == direction
    ensures delta > 0.0001 && direction >= 0.0 ==> NextDirection(direction, delta) > 0.0
    ensures delta < -0.0001 && direction < 0.0 ==> NextDirection(direction, delta) < 0.0
  {
    var goal := if delta < 0.0 then -1.0 else 1.0;
    LerpBetween(direction, goal, 0.08);
  }

  /** The two parameters sampled for banking, half a hundredth either side. */
  function BankParams(t: real): (real, real)
  {
    (Max(0.0, t - 0.005), Min(1.0, t + 0.005))
  }

  /** For a curve parameter in [0, 1] both banking samples are valid curve
      parameters around it. */
  lemma BankParamsSpec(t: real)
    requires 0.0 <= t <= 1.0
    ensures 0.0 <= BankParams(t).0 <= t <= BankParams(t).1 <= 1.0
    ensures 0.005 <= t <= 0.995 ==> BankParams(t) == (t - 0.005, t + 0.005)
  {
  }

  function Negate(v: Vec3): Vec3
  {
    Vec3(-v.x, -v.y, -v.z)
  }

  /** The plane's heading: the curve tangent, reversed while scrolling back. */
  function Heading(tangent: Vec3, direction: real): Vec3
  {
    if direction < 0.0 then Negate(tangent) else tangent
  }

  /** The bank angle from the change of the tangent's x across the samples. */
  function BankAngle(curveTangent: real -> Vec3, t: real): real
  {
    var (tPrev, tNext) := BankParams(t);
    -(curveTangent(tNext).x - curveTangent(tPrev).x) * 1.5
  }

  /** The AirplaneModel component's refs, and what a frame writes into the
      mesh: position, heading and bank angle. The curve's points and
      tangents are parameters. */
  class Flight {
    var smoothProgress: real
    var prevT: real
    var direction: real
    var isFirstFrame: bool
    var position: Vec3
    var heading: Vec3
    var bankAngle: real

    ghost predicate Valid()
      reads this
    {
      -1.0 <= direction <= 1.0
    }

    constructor (initialProgress: real)
      ensures Valid()
      ensures smoothProgress == initialProgress && prevT == initialProgress
      ensures direction == 1.0 && isFirstFrame
    {
      smoothProgress := initialProgress;
      prevT := initialProgress;
      direction := 1.0;
      isFirstFrame := true;
      position := Origin;
      heading := Vec3(0.0, 0.0, -1.0);
      bankAngle := 0.0;
    }

    /** The frame callback. Without the mesh nothing happens; otherwise the
        first frame snaps to the target and later ones ease 6% toward it,
        the direction follows the move of the clamped parameter, and the
        mesh is placed, turned and banked at that parameter. */
    method Frame(target: real, meshPresent: bool, curvePoint: real -> Vec3, curveTangent: real -> Vec3)
      requires Valid()
      modifies this
      ensures Valid()
      ensures !meshPresent ==>
                && smoothProgress == old(smoothProgress) && prevT == old(prevT)
                && direction == old(direction) && isFirstFrame == old(isFirstFrame)
                && position == old(position) && heading == old(heading) && bankAngle == old(bankAngle)
      ensures meshPresent ==>
                && smoothProgress == (if old(isFirstFrame) then target else Lerp(old(smoothProgress), target, 0.06))
                && !isFirstFrame
                && prevT == CurveT(smoothProgress)
                && direction == NextDirection(old(direction), prevT - old(prevT))
                && position == curvePoint(prevT)
                && heading == Heading(curveTangent(prevT), direction)
                && bankAngle == BankAngle(curveTangent, prevT)
    {
      if !meshPresent {
        return;
      }
      if isFirstFrame {
        smoothProgress := target;
        isFirstFrame := false;
      } else {
        smoothProgress := smoothProgress + (target - smoothProgress) * 0.06;
      }
      var t := Max(0.001, Min(0.999, smoothProgress));

      var delta := t - prevT;
      NextDirectionSpec(direction, delta);
      if Abs(delta) > 0.0001 {
        direction := direction + ((if delta < 0.0 then -1.0 else 1.0) - direction) * 0.08;
      }
      prevT := t;

      position := curvePoint(t);
      var tangent := curveTangent(t);
      if direction < 0.0 {
        tangent := Negate(tangent);
      }
      heading := tangent;

      var tPrev := Max(0.0, t - 0.005);
      var tNext := Min(1.0, t + 0.005);
      var lateralChange := curveTangent(tNext).x - curveTangent(tPrev).x;
      bankAngle := -lateralChange * 1.5;
    }
  }
}
