/**
  The timeline slider: a start and an end year the user drags within
  [minYear, maxYear]. A move that would put the start after the end (or the
  end before the start) is ignored; accepted moves and the reset button
  notify the parent, modelled as logs of the years each callback received.
*/
module TimelineSlider {

  /** The two local years. */
  datatype Range = Range(start: int, end: int)

  predicate Ordered(r: Range) {
    r.start <= r.end
  }

  /** handleStartChange on the years alone: accepted exactly when newStart <= end. */
  function StartChange(r: Range, newStart: int): (s: Range)
    ensures newStart <= r.end ==> s == Range(newStart, r.end)
    ensures newStart > r.end ==> s == r
  {
    if newStart <= r.end then Range(newStart, r.end) else r
  }

  /** handleEndChange on the years alone: accepted exactly when newEnd >= start. */
  function EndChange(r: Range, newEnd: int): (s: Range)
    ensures newEnd >= r.start ==> s == Range(r.start, newEnd)
    ensures newEnd < r.start ==> s == r
  {
    if newEnd >= r.start then Range(r.start, newEnd) else r
  }

  /** Both handlers keep the start no later than the end, whatever the requested year. */
  lemma HandlersKeepOrder(r: Range, year: int)
    requires Ordered(r)
    ensures Ordered(StartChange(r, year)) && Ordered(EndChange(r, year))
    ensures StartChange(r, year).end == r.end && EndChange(r, year).start == r.start
  {
  }

  class Slider {
    const minYear: int
    const maxYear: int
    var localStart: int
    var localEnd: int
    /** The years passed to onStartChange and onEndChange, oldest first. */
    var startNotified: seq<int>
    var endNotified: seq<int>

    function Local(): Range
      reads this
    {
      Range(localStart, localEnd)
    }

    /** The initial state takes the years from the props. */
    constructor(minYear: int, maxYear: int, startYear: int, endYear: int)
      ensures this.minYear == minYear && this.maxYear == maxYear
      ensures Local() == Range(startYear, endYear)
      ensures startNotified == [] && endNotified == []
    {
      this.minYear := minYear;
      this.maxYear := maxYear;
      localStart := startYear;
      localEnd := endYear;
      startNotified := [];
      endNotified := [];
    }

    /** New startYear/endYear props resync both local years. */
    method Resync(startYear: int, endYear: int)
      modifies this
      ensures Local() == Range(startYear, endYear)
      ensures startNotified == old(startNotified) && endNotified == old(endNotified)
    {
      localStart := startYear;
      localEnd := endYear;
    }

    method HandleStartChange(newStart: int)
      modifies this
      ensures Local() == StartChange(old(Local()), newStart)
      ensures startNotified == old(startNotified) + (if newStart <= old(localEnd) then [newStart] else [])
      ensures endNotified == old(endNotified)
    {
      if newStart <= localEnd {
        localStart := newStart;
        startNotified := startNotified + [newStart];
      }
    }

    method HandleEndChange(newEnd: int)
      modifies this
      ensures Local() == EndChange(old(Local()), newEnd)
      ensures endNotified == old(endNotified) + (if newEnd >= old(localStart) then [newEnd] else [])
      ensures startNotified == old(startNotified)
    {
      if newEnd >= localStart {
        localEnd := newEnd;
        endNotified := endNotified + [newEnd];
      }
    }

    /** Reset: the full range, and both callbacks told. */
    method Reset()
      modifies this
      ensures Local() == Range(minYear, maxYear)
      ensures Ordered(Local()) <==> minYear <= maxYear
      ensures startNotified == old(startNotified) + [minYear]
      ensures endNotified == old(endNotified) + [maxYear]
    {
      localStart := minYear;
      localEnd := maxYear;
      startNotified := startNotified + [minYear];
      endNotified := endNotified + [maxYear];
    }
  }
}
