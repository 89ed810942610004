/** Which day buckets a range query visits, against the day bucket an entry lies in. */
module DayCover {
  import opened Common
  import opened Index

  predicate IsOffset(o: int) {
    -DAY < o < DAY
  }

  /** A writer at UTC suits every reader; an eastern writer needs a reader that is not
      west of UTC, and a western writer one that is. */
  predicate Compatible(w: int, r: int) {
    w == 0 || ((w > 0) == (r >= 0))
  }

  /** The day labels that the loop of a query or deletion looks up, in loop order. */
  function VisitedDays(end: Time, d: Time): seq<int>
    decreases end.ns + 2 * DAY - d.ns
  {
    if d.ns > NextDay(TruncateDay(end)).ns then [] else [DayLabel(d)] + VisitedDays(end, NextDay(d))
  }

  /** On a UTC midnight the label is the UTC day, or the day before for a western offset. */
  lemma MidnightLabel(d: Time)
    requires d.ns % DAY == 0 && IsOffset(d.offset)
    ensures DayLabel(d) == d.ns / DAY - if d.offset < 0 then 1 else 0
    ensures NextDay(d).ns % DAY == 0 && DayLabel(NextDay(d)) == DayLabel(d) + 1
  {
  }

  lemma {:induction false} VisitedInterval(end: Time, d: Time)
    requires d.ns % DAY == 0 && IsOffset(d.offset)
    ensures forall l :: l in VisitedDays(end, d) <==>
                DayLabel(d) <= l <= end.ns / DAY + 1 - if d.offset < 0 then 1 else 0
    decreases end.ns + 2 * DAY - d.ns
  {
    MidnightLabel(d);
    if d.ns <= NextDay(TruncateDay(end)).ns {
      VisitedInterval(end, NextDay(d));
    }
  }

  /** The entry's day spills past the last day visited: an eastern writer, a western
      reader, and the writer's day of t is already the day after the query's last. */
  predicate SpillsAfter(t: int, w: int, start: Time, end: Time) {
    w >= 0 && start.offset < 0 && t / DAY == end.ns / DAY && t % DAY + w >= DAY
  }

  predicate SpillsBefore(t: int, w: int, start: Time, end: Time) {
    w < 0 && start.offset >= 0 && t / DAY == start.ns / DAY && t % DAY + w < 0
  }

  /** Exactly when a query over [start, end] looks into the day of an entry written with
      offset w at an instant t inside the range. */
  lemma CoverExact(t: int, w: int, start: Time, end: Time)
    requires IsOffset(w) && IsOffset(start.offset) && start.ns <= t <= end.ns
    ensures DayLabel(Time(t, w)) in VisitedDays(end, TruncateDay(start))
       <==> !SpillsAfter(t, w, start, end) && !SpillsBefore(t, w, start, end)
  {
    var d, l := TruncateDay(start), DayLabel(Time(t, w));
    var s, q, e, m := start.ns / DAY, t / DAY, end.ns / DAY, t % DAY;
    TruncatedDay(start);
    MidnightLabel(d);
    VisitedInterval(end, d);
    var west := if start.offset < 0 then 1 else 0;
    assert l in VisitedDays(end, d) <==> s - west <= l <= e + 1 - west;
    ShiftedDay(t, w);
    DaysMonotone(start.ns, t);
    DaysMonotone(t, end.ns);
    CoverDays(s, q, e, m, w, start.offset);
  }

  lemma TruncatedDay(t: Time)
    ensures TruncateDay(t).ns / DAY == t.ns / DAY && TruncateDay(t).ns % DAY == 0
  {
  }

  /** The same on day numbers: a query from day s to day e, an entry on day q with m
      nanoseconds into the day. */
  lemma CoverDays(s: int, q: int, e: int, m: int, w: int, r: int)
    requires s <= q <= e && 0 <= m < DAY && IsOffset(w)
    ensures var l := q + if m + w >= DAY then 1 else if m + w < 0 then -1 else 0;
            var west := if r < 0 then 1 else 0;
            (s - west <= l <= e + 1 - west) <==>
              !(w >= 0 && r < 0 && q == e && m + w >= DAY) && !(w < 0 && r >= 0 && q == s && m + w < 0)
  {
  }

  lemma ShiftedDay(t: int, w: int)
    requires IsOffset(w)
    ensures DayLabel(Time(t, w)) == t / DAY + if t % DAY + w >= DAY then 1 else if t % DAY + w < 0 then -1 else 0
  {
  }

  lemma DaysMonotone(s: int, t: int)
    requires s <= t
    ensures s / DAY <= t / DAY
  {
  }

  /** Compatible offsets never miss. */
  lemma Cover(t: int, w: int, start: Time, end: Time)
    requires IsOffset(w) && IsOffset(start.offset) && Compatible(w, start.offset)
    requires start.ns <= t <= end.ns
    ensures DayLabel(Time(t, w)) in VisitedDays(end, TruncateDay(start))
  {
    CoverExact(t, w, start, end);
  }

  /** Incompatible offsets always have an entry that some query misses. */
  lemma IncompatibleMiss(w: int, r: int) returns (t: int)
    requires IsOffset(w) && IsOffset(r) && !Compatible(w, r)
    ensures 0 <= t < DAY
    ensures DayLabel(Time(t, w)) !in VisitedDays(Time(t, r), TruncateDay(Time(t, r)))
  {
    t := if w > 0 then DAY - w else 0;
    CoverExact(t, w, Time(t, r), Time(t, r));
  }
}
