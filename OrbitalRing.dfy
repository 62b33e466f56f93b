/** One orbital ring of the skills universe: its line fades toward a target
    opacity set by the ring's focus, and its connection line to the centre
    follows it. */
module OrbitalRing {
  import opened Numeric
  import opened OrbitalMath
  import opened SkillNodes

  /** The opacity the ring line fades toward. */
  function RingTargetOpacity(p: real, ringIndex: int): real
  {
    if Dimmed(p, ringIndex) then 0.04 else 0.1 + GetCategoryFocus(p, ringIndex) * 0.6
  }

  /** A dimmed ring aims at 0.04, any other at 0.1 plus 0.6 times its focus:
      always within [0.04, 0.7], and the ring in focus aims above 0.1. */
  lemma RingTargetOpacitySpec(p: real, ringIndex: int)
    ensures 0.04 <= RingTargetOpacity(p, ringIndex) <= 0.7
    ensures Dimmed(p, ringIndex) <==> RingTargetOpacity(p, ringIndex) == 0.04
    ensures GetCategoryFocus(p, ringIndex) > 0.0 ==> RingTargetOpacity(p, ringIndex) > 0.1
  {
  }

  /** The connection line: 0.01 when dimmed, 40% of the ring otherwise. */
  function ConnectionOpacity(dimmed: bool, ringOpacity: real): real
  {
    if dimmed then 0.01 else ringOpacity * 0.4
  }

  lemma ConnectionOpacityBounds(dimmed: bool, ringOpacity: real)
    requires 0.04 <= ringOpacity <= 0.7
    ensures 0.01 <= ConnectionOpacity(dimmed, ringOpacity) <= 0.28
    ensures !dimmed ==> ConnectionOpacity(dimmed, ringOpacity) < ringOpacity
  {
  }

  /** The OrbitalRing component: the opacity ref and the two line
      materials it drives. */
  class RingMaterial {
    const ringIndex: int
    var opacity: real            // opacityRef
    var lineOpacity: real        // the ring line's material
    var connectionOpacity: real  // the connection line's material

    ghost predicate Valid()
      reads this
    {
      0.04 <= opacity <= 0.7
    }

    constructor (ringIndex: int)
      ensures Valid()
      ensures this.ringIndex == ringIndex
      ensures opacity == 0.12 && lineOpacity == 0.12 && connectionOpacity == 0.05
    {
      this.ringIndex := ringIndex;
      opacity := 0.12;
      lineOpacity := 0.12;
      connectionOpacity := 0.05;
    }

    /** The frame callback: move 8% toward the target, then copy the result
        into both materials. The opacity stays within [0.04, 0.7]. */
    method Frame(p: real)
      requires Valid()
      modifies this
      ensures Valid()
      ensures opacity == Lerp(old(opacity), RingTargetOpacity(p, ringIndex), 0.08)
      ensures lineOpacity == opacity
      ensures connectionOpacity == ConnectionOpacity(Dimmed(p, ringIndex), opacity)
    {
      var focus := GetCategoryFocus(p, ringIndex);
      var activeIndex := GetActiveCategoryIndex(p);
      var anyActive := activeIndex >= 0;
      var dimmed := anyActive && focus == 0.0;

      var targetOpacity := if dimmed then 0.04 else 0.1 + focus * 0.6;
      opacity := opacity + (targetOpacity - opacity) * 0.08;

      lineOpacity := opacity;
      connectionOpacity := if dimmed then 0.01 else opacity * 0.4;

      RingTargetOpacitySpec(p, ringIndex);
      LerpStaysIn(old(opacity), targetOpacity, 0.08, 0.04, 0.7);
    }
  }
}
