/** The airplane journey's scroll tracker: the share of a tall container
    that has been scrolled past, kept in a ref that scroll and resize events
    overwrite. The container's rectangle and the window height are
    parameters of each update. */
module FlightProgress {
  import opened Numeric

  /** The progress for a container whose top is at `rectTop` and whose
      scrollable range is `scrollRange`. */
  function ProgressFor(rectTop: real, scrollRange: real): real
    requires scrollRange > 0.0
  {
    Max(0.0, Min(1.0, -rectTop / scrollRange))
  }

  /** The progress lies in [0, 1]; it is 0 until the container's top
      reaches the viewport's top, 1 once the whole range has been scrolled,
      the scrolled share in between, and it never falls as the reader
      scrolls further down. */
  lemma ProgressForSpec(rectTop: real, laterTop: real, scrollRange: real)
    requires scrollRange > 0.0
    requires laterTop <= rectTop
    ensures 0.0 <= ProgressFor(rectTop, scrollRange) <= 1.0
    ensures rectTop >= 0.0 ==> ProgressFor(rectTop, scrollRange) == 0.0
    ensures -rectTop >= scrollRange ==> ProgressFor(rectTop, scrollRange) == 1.0
    ensures 0.0 <= -rectTop <= scrollRange ==> ProgressFor(rectTop, scrollRange) == -rectTop / scrollRange
    ensures ProgressFor(rectTop, scrollRange) <= ProgressFor(laterTop, scrollRange)
  {
    DivMonotone(-rectTop, -laterTop, scrollRange);
    if -rectTop >= scrollRange {
      DivMonotone(scrollRange, -rectTop, scrollRange);
    }
    if 0.0 <= -rectTop <= scrollRange {
      DivMonotone(0.0, -rectTop, scrollRange);
      DivMonotone(-rectTop, scrollRange, scrollRange);
    }
  }

  lemma DivMonotone(a: real, b: real, c: real)
    requires a <= b && c > 0.0
    ensures a / c <= b / c
  {
    assert b / c - a / c == (b - a) / c;
  }

  /** `useFlightProgress`'s ref. */
  class Tracker {
    var progress: real

    ghost predicate Valid()
      reads this
    {
      0.0 <= progress <= 1.0
    }

    constructor ()
      ensures Valid()
      ensures progress == 0.0
    {
      progress := 0.0;
    }

    /** `update`: without a container, or when the container is no taller
        than the window, the progress is left as it was. */
    method Update(containerPresent: bool, rectTop: real, offsetHeight: real, innerHeight: real)
      requires Valid()
      modifies this
      ensures Valid()
      ensures !containerPresent || offsetHeight - innerHeight <= 0.0 ==> progress == old(progress)
      ensures containerPresent && offsetHeight - innerHeight > 0.0 ==>
                progress == ProgressFor(rectTop, offsetHeight - innerHeight)
    {
      if !containerPresent {
        return;
      }
      var scrollRange := offsetHeight - innerHeight;
      if scrollRange <= 0.0 {
        return;
      }
      var scrolled := -rectTop;
      progress := Max(0.0, Min(1.0, scrolled / scrollRange));
    }
  }
}
