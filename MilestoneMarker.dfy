/** A milestone card of the airplane journey: where it is placed beside its
    waypoint, the progress at which the airplane passes that waypoint, and
    the opacity envelope that shows the card around that moment. */
module MilestoneMarker {
  import opened Numeric

  /** The card goes on the side opposite the waypoint. */
  predicate CardOnRight(waypoint: Vec3)
  {
    waypoint.x <= 0.0
  }

  /** The card's position: centred in compact mode, otherwise 1.5 units to
      the chosen side; always half a unit above the waypoint, at its depth. */
  function CardPosition(waypoint: Vec3, compact: bool): Vec3
  {
    if compact then Vec3(0.0, waypoint.y + 0.5, waypoint.z)
    else Vec3(if CardOnRight(waypoint) then 1.5 else -1.5, waypoint.y + 0.5, waypoint.z)
  }

  /** Outside compact mode the card sits on the other side of the axis from
      its waypoint (or right of a waypoint on the axis); in every mode it is
      half a unit above the waypoint and at its depth. */
  lemma CardPositionSpec(waypoint: Vec3, compact: bool)
    ensures var c := CardPosition(waypoint, compact);
            && c.y == waypoint.y + 0.5 && c.z == waypoint.z
            && (compact ==> c.x == 0.0)
            && (!compact ==> (c.x > 0.0 <==> waypoint.x <= 0.0))
            && (!compact ==> Abs(c.x) == 1.5)
  {
  }

  /** The sample parameters j / 100 for j = 0 .. 100. */
  function SampleT(j: nat): real
  {
    j as real / 100.0
  }

  /** The search state after samples 0 .. k-1, `dist(t)` being the distance
      from the curve point at t to the waypoint: a sample replaces the best
      so far only when strictly closer. */
  function BestSampleUpTo(dist: real -> real, k: nat): (nat, ExtReal)
  {
    if k == 0 then (0, Infinity)
    else
      var b := BestSampleUpTo(dist, k - 1);
      var d := dist(SampleT(k - 1));
      if b.1.Exceeds(d) then (k - 1, Finite(d)) else b
  }

  /** Once a sample has been seen, the best one is the first sample of
      minimal distance among those seen. */
  lemma {:induction false} BestSampleUpToSpec(dist: real -> real, k: nat)
    ensures k == 0 ==> BestSampleUpTo(dist, k) == (0, Infinity)
    ensures k > 0 ==> var b := BestSampleUpTo(dist, k);
              && b.0 < k
              && b.1 == Finite(dist(SampleT(b.0)))
              && (forall j :: 0 <= j < k ==> dist(SampleT(b.0)) <= dist(SampleT(j)))
              && (forall j :: 0 <= j < b.0 ==> dist(SampleT(j)) > dist(SampleT(b.0)))
  {
    if k > 0 {
      BestSampleUpToSpec(dist, k - 1);
    }
  }

  /** `milestoneT`: the first of the 101 samples t = j / 100 whose curve
      point is closest to the waypoint. The index / (total - 1) the search
      starts from is always replaced by the first sample; with a single
      milestone (total = 1) it would be a division by zero, taken as 0
      here. */
  method MilestoneT(index: nat, total: nat, dist: real -> real) returns (bestT: real)
    ensures 0.0 <= bestT <= 1.0
    ensures bestT == SampleT(BestSampleUpTo(dist, 101).0)
    ensures forall j :: 0 <= j <= 100 ==> dist(bestT) <= dist(SampleT(j))
  {
    bestT := if total > 1 then index as real / (total - 1) as real else 0.0;
    var bestDist := Infinity;
    var i := 0;
    while i <= 100
      invariant 0 <= i <= 101
      invariant i == 0 ==> bestDist == Infinity
      invariant i > 0 ==> bestT == SampleT(BestSampleUpTo(dist, i).0) && bestDist == BestSampleUpTo(dist, i).1
    {
      var t := i as real / 100.0;
      var d := dist(t);
      if bestDist.Exceeds(d) {
        bestDist := Finite(d);
        bestT := t;
      }
      i := i + 1;
    }
    BestSampleUpToSpec(dist, 101);
  }

  /** The card's target opacity for d = progress - milestoneT. */
  function TargetOpacity(d: real): real
  {
    if -0.06 < d < 0.12 then Min(1.0, (d + 0.06) / 0.05)
    else if d >= 0.12 then Max(0.0, 1.0 - (d - 0.12) / 0.06)
    else 0.0
  }

  /** The envelope lies in [0, 1]: hidden up to 0.06 before the milestone,
      fading in until 0.01 before it, fully shown until 0.12 after it,
      fading out until 0.18 after it, hidden from then on. */
  lemma TargetOpacitySpec(d: real)
    ensures 0.0 <= TargetOpacity(d) <= 1.0
    ensures TargetOpacity(d) == 1.0 <==> -0.01 <= d <= 0.12
    ensures TargetOpacity(d) == 0.0 <==> d <= -0.06 || d >= 0.18
    ensures -0.06 < d < -0.01 ==> TargetOpacity(d) == (d + 0.06) / 0.05
    ensures 0.12 <= d < 0.18 ==> TargetOpacity(d) == 1.0 - (d - 0.12) / 0.06
  {
  }

  /** The displayed opacity after a frame: replaced by the rounded value
      only when they differ by more than 0.01. */
  function NextDisplayed(displayed: real, rounded: real): real
  {
    if Abs(rounded - displayed) > 0.01 then rounded else displayed
  }

  /** After a frame the displayed opacity is within 0.01 of the rounded one,
      and it is left alone exactly when it already was. */
  lemma NextDisplayedSpec(displayed: real, rounded: real)
    ensures Abs(NextDisplayed(displayed, rounded) - rounded) <= 0.01
    ensures NextDisplayed(displayed, rounded) == displayed <==> Abs(rounded - displayed) <= 0.01 || rounded == displayed
  {
  }

  /** The MilestoneMarker component: the smoothed opacity ref and the
      opacity state the card renders with. */
  class Marker {
    const milestoneT: real
    var prevOpacity: real
    var opacity: real

    ghost predicate Valid()
      reads this
    {
      0.0 <= prevOpacity <= 1.0 && 0.0 <= opacity <= 1.0
    }

    constructor (milestoneT: real)
      ensures Valid()
      ensures this.milestoneT == milestoneT && prevOpacity == 0.0 && opacity == 0.0
    {
      this.milestoneT := milestoneT;
      prevOpacity := 0.0;
      opacity := 0.0;
    }

    /** The frame callback: move 8% toward the envelope, then publish the
        two-decimal value when it moved by more than 0.01. */
    method Frame(p: real)
      requires Valid()
      modifies this
      ensures Valid()
      ensures prevOpacity == Lerp(old(prevOpacity), TargetOpacity(p - milestoneT), 0.08)
      ensures opacity == NextDisplayed(old(opacity), Round2(prevOpacity))
    {
      var dist := p - milestoneT;
      var targetOpacity := 0.0;
      if dist > -0.06 && dist < 0.12 {
        targetOpacity := Min(1.0, (dist + 0.06) / 0.05);
      } else if dist >= 0.12 {
        targetOpacity := Max(0.0, 1.0 - (dist - 0.12) / 0.06);
      }

      var smoothed := prevOpacity + (targetOpacity - prevOpacity) * 0.08;
      prevOpacity := smoothed;

      var rounded := Round2(smoothed);
      if Abs(rounded - opacity) > 0.01 {
        opacity := rounded;
      }

      TargetOpacitySpec(dist);
      LerpStaysIn(old(prevOpacity), targetOpacity, 0.08, 0.0, 1.0);
      Round2Close(smoothed);
    }
  }
}
