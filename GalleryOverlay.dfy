/** The photo gallery's DOM overlay: it picks the photo whose milestone is
    nearest the scroll progress, fades the narrative card in around that
    milestone and shows a zero-padded "NN / NN" counter. */
module GalleryOverlay {
  import opened Numeric
  import opened OverlayState

  /** The scroll progress at which photo `i` of `n` is centred. */
  function Milestone(i: int, n: nat): real
    requires n > 0
  {
    (i as real + 0.5) / n as real
  }

  function DistTo(p: real, i: int, n: nat): real
    requires n > 0
  {
    Abs(p - Milestone(i, n))
  }

  datatype Best = Best(index: nat, dist: ExtReal)

  /** The search state after examining photos 0 .. k-1: a photo replaces
      the best so far only when strictly closer. */
  function NearestUpTo(p: real, n: nat, k: nat): Best
    requires k <= n
  {
    if k == 0 then Best(0, Infinity)
    else
      var b := NearestUpTo(p, n, k - 1);
      var d := DistTo(p, k - 1, n);
      if b.dist.Exceeds(d) then Best(k - 1, Finite(d)) else b
  }

  /** The nearest photo: with no photos, index 0 at infinite distance;
      otherwise a photo of minimal distance, the lowest such index, and its
      distance. */
  lemma {:induction false} NearestUpToSpec(p: real, n: nat, k: nat)
    requires k <= n
    ensures var b := NearestUpTo(p, n, k);
            && (k == 0 ==> b == Best(0, Infinity))
            && (k > 0 ==> b.index < k && b.dist == Finite(DistTo(p, b.index, n)))
            && (k > 0 ==> forall j :: 0 <= j < k ==> DistTo(p, b.index, n) <= DistTo(p, j, n))
            && (k > 0 ==> forall j :: 0 <= j < b.index ==> DistTo(p, j, n) > DistTo(p, b.index, n))
  {
    if k > 0 {
      NearestUpToSpec(p, n, k - 1);
    }
  }

  /** The argmin loop of `update`. */
  method FindNearest(p: real, n: nat) returns (bestIndex: nat, bestDist: ExtReal)
    ensures n == 0 ==> bestIndex == 0 && bestDist == Infinity
    ensures n > 0 ==> bestIndex < n && bestDist == Finite(DistTo(p, bestIndex, n))
    ensures n > 0 ==> forall j :: 0 <= j < n ==> DistTo(p, bestIndex, n) <= DistTo(p, j, n)
    ensures n > 0 ==> forall j :: 0 <= j < bestIndex ==> DistTo(p, j, n) > DistTo(p, bestIndex, n)
    ensures Best(bestIndex, bestDist) == NearestUpTo(p, n, n)
  {
    var milestoneTs := seq(n, i requires 0 <= i < n => (i as real + 0.5) / n as real);
    bestIndex := 0;
    bestDist := Infinity;
    var i := 0;
    while i < n
      invariant 0 <= i <= n
      invariant Best(bestIndex, bestDist) == NearestUpTo(p, n, i)
      invariant i == 0 ==> bestIndex == 0 && bestDist == Infinity
      invariant i > 0 ==> bestIndex < i && bestDist == Finite(DistTo(p, bestIndex, n))
      invariant forall j :: 0 <= j < i ==> DistTo(p, bestIndex, n) <= DistTo(p, j, n)
      invariant forall j :: 0 <= j < bestIndex ==> DistTo(p, j, n) > DistTo(p, bestIndex, n)
    {
      var d := Abs(p - milestoneTs[i]);
      if bestDist.Exceeds(d) {
        bestDist := Finite(d);
        bestIndex := i;
      }
      i := i + 1;
    }
  }

  /** The narrative card's target opacity for the nearest distance. */
  function NarrativeTarget(bestDist: ExtReal): real
  {
    match bestDist
    case Infinity => 0.0
    case Finite(d) =>
      if d < 0.07 then 1.0
      else if d < 0.11 then 1.0 - (d - 0.07) / 0.04
      else 0.0
  }

  /** The target lies in [0, 1]; for a distance d >= 0 it is fully on up to
      d = 0.07, fully off from d = 0.11 on (and with no photos), and falls
      linearly in between. */
  lemma NarrativeTargetSpec(bestDist: ExtReal)
    requires bestDist.Finite? ==> bestDist.value >= 0.0
    ensures 0.0 <= NarrativeTarget(bestDist) <= 1.0
    ensures NarrativeTarget(bestDist) == 1.0 <==> bestDist.Finite? && bestDist.value <= 0.07
    ensures NarrativeTarget(bestDist) == 0.0 <==> bestDist.Infinity? || bestDist.value >= 0.11
  {
  }

  /** The GalleryOverlay component for a fixed list of `itemCount` photos. */
  class Overlay {
    const itemCount: nat
    var prevSmoothed: real
    var state: View

    ghost predicate Valid()
      reads this
    {
      && 0.0 <= prevSmoothed <= 1.0
      && 0.0 <= state.opacity <= 1.0
      && 0 <= state.index
      && (state.index < itemCount || state.index == 0)
    }

    constructor (itemCount: nat)
      ensures Valid()
      ensures this.itemCount == itemCount
      ensures prevSmoothed == 0.0 && state == View(0, 0.0, 0.0)
    {
      this.itemCount := itemCount;
      prevSmoothed := 0.0;
      state := View(0, 0.0, 0.0);
    }

    /** `update`: find the nearest photo, move the smoothed opacity 8% of
        the way to its target, publish the rounded value under the change
        threshold. */
    method Update(p: real)
      requires Valid()
      modifies this
      ensures Valid()
      ensures prevSmoothed == Lerp(old(prevSmoothed), NarrativeTarget(NearestUpTo(p, itemCount, itemCount).dist), 0.08)
      ensures state == NextView(old(state), NearestUpTo(p, itemCount, itemCount).index, Round2(prevSmoothed), p)
    {
      var bestIndex, bestDist := FindNearest(p, itemCount);

      var targetOpacity := 0.0;
      if bestDist.Finite? && bestDist.value < 0.07 {
        targetOpacity := 1.0;
      } else if bestDist.Finite? && bestDist.value < 0.11 {
        targetOpacity := 1.0 - (bestDist.value - 0.07) / 0.04;
      }

      prevSmoothed := prevSmoothed + (targetOpacity - prevSmoothed) * 0.08;
      var rounded := Round2(prevSmoothed);
      state := NextView(state, bestIndex, rounded, p);

      NarrativeTargetSpec(bestDist);
      LerpStaysIn(old(prevSmoothed), targetOpacity, 0.08, 0.0, 1.0);
      Round2Close(prevSmoothed);
    }
  }

  /** `items[state.index]` exists: otherwise the overlay renders nothing. */
  predicate Rendered(index: int, itemCount: nat)
  {
    0 <= index < itemCount
  }

  /** With no items the overlay renders nothing; with items it always has a
      photo to show for any index the update can publish. */
  lemma RenderedSpec(index: int, itemCount: nat)
    requires 0 <= index && (index < itemCount || index == 0)
    ensures Rendered(index, itemCount) <==> itemCount > 0
  {
  }

  /* ───── Counter ───── */

  function DigitChar(d: nat): char
    requires d < 10
  {
    ('0' as int + d) as char
  }

  function DigitValue(c: char): nat
  {
    if '0' <= c <= '9' then (c as int - '0' as int) as nat else 0
  }

  /** `String(n)` for a non-negative integer. */
  function DecimalString(n: nat): (s: string)
    ensures |s| >= 1
    ensures forall i :: 0 <= i < |s| ==> '0' <= s[i] <= '9'
  {
    if n < 10 then [DigitChar(n)] else DecimalString(n / 10) + [DigitChar(n % 10)]
  }

  /** The number a string of decimal digits denotes. */
  function DecimalValue(s: string): nat
  {
    if s == [] then 0 else DecimalValue(s[..|s| - 1]) * 10 + DigitValue(s[|s| - 1])
  }

  /** `String(n)` reads back as n. */
  lemma {:induction false} DecimalRoundTrip(n: nat)
    ensures DecimalValue(DecimalString(n)) == n
  {
    if n < 10 {
      DecimalValueSnoc([], DigitChar(n));
      assert [] + [DigitChar(n)] == DecimalString(n);
    } else {
      DecimalRoundTrip(n / 10);
      DecimalValueSnoc(DecimalString(n / 10), DigitChar(n % 10));
    }
  }

  /** Appending a digit multiplies the value by ten and adds the digit. */
  lemma DecimalValueSnoc(s: string, c: char)
    ensures DecimalValue(s + [c]) == DecimalValue(s) * 10 + DigitValue(c)
  {
    assert (s + [c])[..|s + [c]| - 1] == s;
  }

  /** `s.padStart(width, fill)` with a one-character fill. */
  function PadStart(s: string, width: nat, fill: char): (r: string)
    ensures |r| == if |s| >= width then |s| else width
    ensures r[|r| - |s|..] == s
    ensures forall i :: 0 <= i < |r| - |s| ==> r[i] == fill
  {
    if |s| >= width then s else seq(width - |s|, _ => fill) + s
  }

  /** Leading zeros do not change the value a digit string denotes. */
  lemma {:induction false} LeadingZeros(z: nat, s: string)
    ensures DecimalValue(seq(z, _ => '0') + s) == DecimalValue(s)
    decreases |s|, z
  {
    var zs := seq(z, _ => '0');
    if s == [] {
      if z > 0 {
        assert zs + s == seq(z - 1, _ => '0') + ['0'];
        assert (zs + s)[..|zs + s| - 1] == seq(z - 1, _ => '0') + [];
        LeadingZeros(z - 1, []);
      }
    } else {
      assert (zs + s)[..|zs + s| - 1] == zs + s[..|s| - 1];
      LeadingZeros(z, s[..|s| - 1]);
    }
  }

  /** The two halves of the photo counter. */
  function Counter(index: nat, itemCount: nat): (string, string)
  {
    (PadStart(DecimalString(index + 1), 2, '0'), PadStart(DecimalString(itemCount), 2, '0'))
  }

  /** Each half of the counter has at least two characters, and reads back
      as the 1-based photo number and the photo count. */
  lemma CounterSpec(index: nat, itemCount: nat)
    ensures |Counter(index, itemCount).0| >= 2 && |Counter(index, itemCount).1| >= 2
    ensures DecimalValue(Counter(index, itemCount).0) == index + 1
    ensures DecimalValue(Counter(index, itemCount).1) == itemCount
    ensures index + 1 < 10 ==> Counter(index, itemCount).0 == ['0', DigitChar(index + 1)]
  {
    CounterHalf(index + 1);
    CounterHalf(itemCount);
    if index + 1 < 10 {
      OneDigitPadded(index + 1);
    }
  }

  /** A one-digit number is padded with a single leading zero. */
  lemma OneDigitPadded(n: nat)
    requires n < 10
    ensures PadStart(DecimalString(n), 2, '0') == ['0', DigitChar(n)]
  {
    assert DecimalString(n) == [DigitChar(n)];
    assert seq(1, _ => '0') == ['0'];
  }

  /** One half of the counter: at least two characters, reading back as n. */
  lemma CounterHalf(n: nat)
    ensures |PadStart(DecimalString(n), 2, '0')| >= 2
    ensures DecimalValue(PadStart(DecimalString(n), 2, '0')) == n
  {
    PadValue(DecimalString(n));
    DecimalRoundTrip(n);
  }

  lemma PadValue(s: string)
    ensures DecimalValue(PadStart(s, 2, '0')) == DecimalValue(s)
  {
    if |s| < 2 {
      LeadingZeros(2 - |s|, s);
    }
  }

  /** The counter never fades below 0.4. */
  function CounterOpacity(opacity: real): (r: real)
    ensures r >= 0.4
    ensures r >= opacity
  {
    Max(0.4, opacity)
  }
}
