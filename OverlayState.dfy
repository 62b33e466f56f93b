/** The published state of the two DOM overlays (skills universe and photo
    gallery): React state replaced only when the live values have moved far
    enough, so that the overlay re-renders at most when something visible
    changes. */
module OverlayState {
  import opened Numeric

  datatype View = View(index: int, opacity: real, progress: real)

  /** Whether the live values differ enough from the published ones. */
  predicate Changed(prev: View, idx: int, rounded: real, p: real)
  {
    prev.index != idx || Abs(prev.opacity - rounded) > 0.01 || Abs(prev.progress - p) > 0.005
  }

  /** The functional `setState` updater: a fresh state on a change, the
      previous state object otherwise. */
  function NextView(prev: View, idx: int, rounded: real, p: real): View
  {
    if Changed(prev, idx, rounded, p) then View(idx, rounded, p) else prev
  }

  /** Whatever the update does, the published index is the live one, the
      published opacity is within 0.01 of the live rounded opacity and the
      published progress within 0.005 of the live progress; and the state is
      left untouched exactly when nothing moved that far. */
  lemma NextViewTracksLive(prev: View, idx: int, rounded: real, p: real)
    ensures var v := NextView(prev, idx, rounded, p);
            && v.index == idx
            && Abs(v.opacity - rounded) <= 0.01
            && Abs(v.progress - p) <= 0.005
    ensures NextView(prev, idx, rounded, p) == prev <==> !Changed(prev, idx, rounded, p) || prev == View(idx, rounded, p)
  {
  }
}
