/** The photo gallery's 3D scene: nine fixed photo slots along the depth
    axis, the scroll milestone of each slot, and the camera rig that eases
    along the camera curve. */
module GalleryScene {
  import opened Numeric

  datatype Layout = Layout(pos: Vec3, rot: Vec3)

  /** PHOTO_POSITIONS: the nine photo slots, 8 units apart in depth. */
  const PhotoPositions: seq<Layout> := [
    Layout(Vec3(0.0, 0.0, 0.0), Vec3(0.0, 0.04, 0.01)),
    Layout(Vec3(0.3, 0.1, -8.0), Vec3(0.0, -0.03, -0.01)),
    Layout(Vec3(-0.2, -0.05, -16.0), Vec3(0.0, 0.03, 0.01)),
    Layout(Vec3(0.15, 0.08, -24.0), Vec3(0.0, -0.04, -0.008)),
    Layout(Vec3(-0.1, 0.0, -32.0), Vec3(0.0, 0.03, 0.01)),
    Layout(Vec3(0.2, -0.06, -40.0), Vec3(0.0, -0.03, -0.01)),
    Layout(Vec3(-0.15, 0.1, -48.0), Vec3(0.0, 0.04, 0.008)),
    Layout(Vec3(0.1, 0.0, -56.0), Vec3(0.0, -0.03, -0.01)),
    Layout(Vec3(0.0, 0.05, -64.0), Vec3(0.0, 0.02, 0.005))
  ]

  /** milestoneTs: slot i is centred at scroll progress (i + 0.5) / 9. */
  function MilestoneTs(): (ts: seq<real>)
    ensures |ts| == |PhotoPositions|
  {
    seq(|PhotoPositions|, i => (i as real + 0.5) / |PhotoPositions| as real)
  }

  /** The milestones rise strictly from slot to slot and all lie strictly
      inside (0, 1); the slots themselves recede 8 units at a time. */
  lemma MilestonesIncreasing()
    ensures |PhotoPositions| == 9
    ensures forall i :: 0 <= i < 9 ==> MilestoneTs()[i] == (i as real + 0.5) / 9.0
    ensures forall i :: 0 <= i < 9 ==> 0.0 < MilestoneTs()[i] < 1.0
    ensures forall i, j :: 0 <= i < j < 9 ==> MilestoneTs()[i] < MilestoneTs()[j]
    ensures forall i :: 0 <= i < 9 ==> PhotoPositions[i].pos.z == -8.0 * i as real
  {
    var ts := MilestoneTs();
    forall i, j | 0 <= i < j < 9
      ensures ts[i] < ts[j]
    {
      assert ts[i] == (i as real + 0.5) / 9.0;
      assert ts[j] == (j as real + 0.5) / 9.0;
    }
  }

  /** `PHOTO_POSITIONS[i]`: a slot for the first nine items, none after. */
  function LayoutFor(i: nat): (l: Option<Layout>)
    ensures l.Some? <==> i < |PhotoPositions|
    ensures l.Some? ==> l.value == PhotoPositions[i]
  {
    if i < |PhotoPositions| then Some(PhotoPositions[i]) else None
  }

  /** A card the scene renders: the item's index, its slot and milestone. */
  datatype Card = Card(index: nat, layout: Layout, milestoneT: real)

  /** The cards rendered for `itemCount` items: items without a slot are
      skipped. */
  function Cards(itemCount: nat): seq<Card>
  {
    var shown := if itemCount < |PhotoPositions| then itemCount else |PhotoPositions|;
    seq(shown, i requires 0 <= i < shown => Card(i, PhotoPositions[i], MilestoneTs()[i]))
  }

  /** Exactly min(itemCount, 9) cards are rendered, item i in slot i at
      milestone (i + 0.5) / 9. */
  lemma CardsSpec(itemCount: nat)
    ensures |Cards(itemCount)| == if itemCount < 9 then itemCount else 9
    ensures forall i :: 0 <= i < |Cards(itemCount)| ==>
              && Cards(itemCount)[i].index == i
              && LayoutFor(i) == Some(Cards(itemCount)[i].layout)
              && Cards(itemCount)[i].milestoneT == (i as real + 0.5) / 9.0
  {
    MilestonesIncreasing();
  }

  /** The camera's curve parameter: progress kept inside [0.001, 0.999]. */
  function CurveParam(progress: real): (t: real)
    ensures 0.001 <= t <= 0.999
    ensures 0.001 <= progress <= 0.999 ==> t == progress
    ensures progress < 0.001 ==> t == 0.001
    ensures progress > 0.999 ==> t == 0.999
  {
    Max(0.001, Min(0.999, progress))
  }

  /** The point the camera looks at, derived from its position. */
  function LookTarget(position: Vec3): Vec3
  {
    Vec3(position.x * 0.3, position.y * 0.3, position.z - 10.0)
  }

  /** Where the camera heads this frame: the curve point plus sway on x and y. */
  function CameraGoal(curve: real -> Vec3, progress: real, swayX: real, swayY: real): Vec3
  {
    var camPos := curve(CurveParam(progress));
    Vec3(camPos.x + swayX, camPos.y + swayY, camPos.z)
  }

  /** Each frame closes 5% of the camera's distance to its goal, coordinate
      by coordinate, and never overshoots it. */
  lemma CameraStepContracts(position: Vec3, goal: Vec3)
    ensures var next := LerpVec(position, goal, 0.05);
            && Abs(goal.x - next.x) == 0.95 * Abs(goal.x - position.x)
            && Abs(goal.y - next.y) == 0.95 * Abs(goal.y - position.y)
            && Abs(goal.z - next.z) == 0.95 * Abs(goal.z - position.z)
  {
    LerpContracts(position.x, goal.x, 0.05);
    LerpContracts(position.y, goal.y, 0.05);
    LerpContracts(position.z, goal.z, 0.05);
  }

  /** CameraRig: the camera position it eases and the point it looks at.
      The camera curve and the time-based sway are parameters. */
  class CameraRig {
    var position: Vec3
    var lookTarget: Vec3

    constructor ()
      ensures position == Vec3(0.0, 0.0, 8.0)
      ensures lookTarget == Origin
    {
      position := Vec3(0.0, 0.0, 8.0);
      lookTarget := Origin;
    }

    method Frame(progress: real, curve: real -> Vec3, swayX: real, swayY: real)
      modifies this
      ensures position == LerpVec(old(position), CameraGoal(curve, progress, swayX, swayY), 0.05)
      ensures lookTarget == LookTarget(position)
    {
      var t := Max(0.001, Min(0.999, progress));
      var camPos := curve(t);
      var x := position.x + (camPos.x + swayX - position.x) * 0.05;
      var y := position.y + (camPos.y + swayY - position.y) * 0.05;
      var z := position.z + (camPos.z - position.z) * 0.05;
      position := Vec3(x, y, z);
      lookTarget := Vec3(position.x * 0.3, position.y * 0.3, position.z - 10.0);
    }
  }
}
