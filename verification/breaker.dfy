/** The circuit breaker in front of the control plane: a tumbling window of failures that
    sends traffic to the fallback store. */
module Breaker {
  import opened Common

  const WINDOW: int := 30 * SECOND
  const THRESHOLD: nat := 20
  const PROBE_DELAY: int := 5 * SECOND

  datatype Control = Control(failures: nat, windowStart: Option<int>, degraded: bool, nextProbe: Option<int>)

  const HEALTHY: Control := Control(0, None, false, None)

  function RecordFailure(c: Control, now: int): Control {
    var counted :=
      if c.windowStart.None? || now - c.windowStart.value > WINDOW
      then c.(windowStart := Some(now), failures := 1)
      else c.(failures := c.failures + 1);
    if counted.failures >= THRESHOLD then counted.(degraded := true, nextProbe := Some(now + PROBE_DELAY)) else counted
  }

  predicate ProbeDue(c: Control, now: int) {
    c.degraded && (c.nextProbe.None? || c.nextProbe.value <= now)
  }

  /** What happens to the breaker, in the order of its lock, which each of these takes once: a
      recorded failure, a clear after a successful call or probe, and the result of a failed
      probe. The lock is free while a probe runs, so that a probe which began when the
      breaker was tripped can fail in any state. */
  datatype Event = Failure(now: int) | Clear(now: int) | ProbeFailed(now: int)

  function Next(c: Control, e: Event): Control {
    match e
    case Failure(now) => RecordFailure(c, now)
    case Clear(_) => HEALTHY
    case ProbeFailed(now) => c.(degraded := true, nextProbe := Some(now + PROBE_DELAY))
  }

  /** The decision whether to use the fallback, with the outcome of the probe it may run, when
      nothing else happens in between. */
  function Check(c: Control, now: int, probeOk: bool): Control {
    if !ProbeDue(c, now) then c else Next(c, if probeOk then Clear(now) else ProbeFailed(now))
  }

  function Run(c: Control, es: seq<Event>): Control {
    if es == [] then c else Next(Run(c, es[..|es| - 1]), es[|es| - 1])
  }

  predicate NoClears(es: seq<Event>) {
    forall e | e in es :: !e.Clear?
  }

  /** The clock is read under the lock. */
  ghost predicate InOrder(es: seq<Event>) {
    forall i, j :: 0 <= i < j < |es| ==> es[i].now <= es[j].now
  }

  function Failures(es: seq<Event>): nat {
    if es == [] then 0 else Failures(es[..|es| - 1]) + if es[|es| - 1].Failure? then 1 else 0
  }

  /** Holds in every state that the events lead to. */
  ghost predicate Sound(c: Control) {
    && (c.windowStart.None? <==> c.failures == 0)
    && (!c.degraded ==> c.failures < THRESHOLD)
  }

  lemma {:induction false} RunSound(c: Control, es: seq<Event>)
    requires Sound(c)
    ensures Sound(Run(c, es))
  {
    if es != [] {
      RunSound(c, es[..|es| - 1]);
    }
  }

  // ---------------------------------------------------------------------------
  // How many failures trip it
  // ---------------------------------------------------------------------------

  /** The n failures of a span that began at f, as far as a closed breaker can have
      forgotten them: at most 18 were counted in the window before the present one. */
  ghost predicate Remembers(c: Control, n: nat, f: int) {
    || c.degraded
    || n == 0
    || (c.windowStart.Some? && n < c.failures)
    || (c.windowStart.Some? && c.windowStart.value >= f && n < c.failures + THRESHOLD - 1)
  }

  lemma {:induction false} SpanRemembered(c: Control, es: seq<Event>, f: int)
    requires Sound(c) && NoClears(es)
    requires forall i :: 0 <= i < |es| && es[i].Failure? ==> f <= es[i].now <= f + WINDOW
    ensures Remembers(Run(c, es), Failures(es), f)
  {
    if es != [] {
      var pre, e := es[..|es| - 1], es[|es| - 1];
      assert e in es && forall x :: x in pre ==> x in es;
      SpanRemembered(c, pre, f);
      RunSound(c, pre);
    }
  }

  /** 38 failures inside one 30-second span with no clear between them always trip it. */
  lemma ThirtyEightTrip(c: Control, es: seq<Event>, f: int)
    requires Sound(c) && NoClears(es) && Failures(es) >= 38
    requires forall i :: 0 <= i < |es| && es[i].Failure? ==> f <= es[i].now <= f + 30 * SECOND
    ensures Run(c, es).degraded
  {
    SpanRemembered(c, es, f);
    RunSound(c, es);
  }

  function Repeat(e: Event, n: nat): (r: seq<Event>)
    ensures |r| == n && forall i :: 0 <= i < n ==> r[i] == e
  {
    if n == 0 then [] else Repeat(e, n - 1) + [e]
  }

  lemma {:induction false} RunConcat(c: Control, a: seq<Event>, b: seq<Event>)
    ensures Run(c, a + b) == Run(Run(c, a), b)
    ensures Failures(a + b) == Failures(a) + Failures(b)
  {
    if b == [] {
      assert a + b == a;
    } else {
      var n := |b| - 1;
      assert (a + b)[..|a| + n] == a + b[..n] && (a + b)[|a| + n] == b[n];
      RunConcat(c, a, b[..n]);
    }
  }

  lemma LastEvent(c: Control, es: seq<Event>, e: Event)
    ensures Run(c, es + [e]) == Next(Run(c, es), e)
    ensures Failures(es + [e]) == Failures(es) + if e.Failure? then 1 else 0
  {
    hide Next;
    assert (es + [e])[..|es|] == es;
  }

  /** A burst of n failures that does not trip the breaker. */
  lemma {:induction false} Burst(c: Control, now: int, n: nat)
    requires c.windowStart.Some? && now - c.windowStart.value <= WINDOW && c.failures + n < THRESHOLD
    ensures Run(c, Repeat(Failure(now), n)) == c.(failures := c.failures + n)
    ensures Failures(Repeat(Failure(now), n)) == n
  {
    hide Run, Failures;
    if n > 0 {
      Burst(c, now, n - 1);
      LastEvent(c, Repeat(Failure(now), n - 1), Failure(now));
    } else {
      NoEvents(c);
    }
  }

  lemma NoEvents(c: Control)
    ensures Run(c, []) == c && Failures([]) == 0
  {
  }

  /** 37 need not: after one early failure, 18 failures at the end of its window and 19
      just after it, all within a nanosecond, are counted in two windows. */
  lemma ThirtySevenMayNot() returns (c: Control, es: seq<Event>)
    ensures c == Run(HEALTHY, [Failure(0)])
    ensures Failures(es) == |es| == 37
    ensures InOrder(es) && forall i :: 0 <= i < |es| ==> es[i].Failure? && WINDOW <= es[i].now <= WINDOW + 1
    ensures !Run(c, es).degraded
  {
    assert [Failure(0)][..0] == [];
    c := Run(HEALTHY, [Failure(0)]);
    var late, first, rest := Repeat(Failure(WINDOW), 18), [Failure(WINDOW + 1)], Repeat(Failure(WINDOW + 1), 18);
    Burst(c, WINDOW, 18);
    var c1 := Run(c, late);
    assert first[..0] == [];
    var c2 := Run(c1, first);
    assert c2 == Next(Run(c1, first[..0]), first[0]) == RecordFailure(c1, WINDOW + 1);
    Burst(c2, WINDOW + 1, 18);
    RunConcat(c, late, first);
    RunConcat(c, late + first, rest);
    es := late + first + rest;
  }

  /** At least n failures inside one 30-second span, with no clear between them, from a
      state the breaker can be in. */
  ghost predicate Crowd(c: Control, es: seq<Event>, n: int) {
    && Sound(c) && NoClears(es) && Failures(es) >= n
    && exists f :: InSpan(es, f)
  }

  ghost predicate InSpan(es: seq<Event>, f: int) {
    forall i :: 0 <= i < |es| && es[i].Failure? ==> f <= es[i].now <= f + 30 * SECOND
  }

  /** So n failures always trip the breaker if and only if n is at least 38. */
  lemma TripsExactly(n: int)
    ensures (forall c, es :: Crowd(c, es, n) ==> Run(c, es).degraded) <==> n >= 38
  {
    if n >= 38 {
      forall c, es | Crowd(c, es, n) ensures Run(c, es).degraded {
        var f :| InSpan(es, f);
        ThirtyEightTrip(c, es, f);
      }
    } else {
      var c, es := ThirtySevenMayNot();
      RunSound(HEALTHY, [Failure(0)]);
      assert InSpan(es, WINDOW);
      assert Crowd(c, es, n);
    }
  }

  // ---------------------------------------------------------------------------
  // What a tripped breaker has seen
  // ---------------------------------------------------------------------------

  /** Times of the failures since the last clear. */
  function SinceClear(es: seq<Event>): seq<int> {
    if es == [] then [] else
      match es[|es| - 1]
      case Clear(_) => []
      case Failure(now) => SinceClear(es[..|es| - 1]) + [now]
      case ProbeFailed(_) => SinceClear(es[..|es| - 1])
  }

  /** Since the last clear a failed probe has met a breaker that was not tripped. */
  predicate LateProbe(es: seq<Event>) {
    es != [] &&
    match es[|es| - 1]
    case Clear(_) => false
    case Failure(_) => LateProbe(es[..|es| - 1])
    case ProbeFailed(_) => LateProbe(es[..|es| - 1]) || !Run(HEALTHY, es[..|es| - 1]).degraded
  }

  /** Failures are counted in windows: the first failure opens one, and so does each failure
      more than thirty seconds after the one that opened the present window. This is the
      position of the failure that opened the last window. */
  function LastWindow(f: seq<int>): (i: nat)
    ensures f != [] ==> i < |f|
  {
    if |f| <= 1 then 0 else
      var i := LastWindow(f[..|f| - 1]);
      if f[|f| - 1] - f[i] > WINDOW then |f| - 1 else i
  }

  /** How many failures the last window has. */
  function InLastWindow(f: seq<int>): nat {
    |f| - LastWindow(f)
  }

  /** Some window has come to twenty failures. */
  ghost predicate Filled(f: seq<int>) {
    exists n :: 0 <= n <= |f| && InLastWindow(f[..n]) >= THRESHOLD
  }

  /** The breaker as the failures since the last clear determine it. */
  ghost predicate Counts(c: Control, f: seq<int>) {
    && c.failures == InLastWindow(f)
    && c.windowStart == if f == [] then None else Some(f[LastWindow(f)])
  }

  lemma FailureCounted(c: Control, f: seq<int>, now: int)
    requires Counts(c, f)
    ensures Counts(RecordFailure(c, now), f + [now])
    ensures RecordFailure(c, now).degraded <==> c.degraded || InLastWindow(f + [now]) >= THRESHOLD
  {
    hide LastWindow;
    NextWindow(f, now);
    var g := f + [now];
    assert g[|f|] == now && forall i :: 0 <= i < |f| ==> g[i] == f[i];
  }

  lemma NextWindow(f: seq<int>, now: int)
    ensures LastWindow(f + [now]) == if f == [] then 0 else if now - f[LastWindow(f)] > WINDOW then |f| else LastWindow(f)
  {
    var g := f + [now];
    assert g[..|f|] == f && g[|f|] == now;
  }

  lemma FilledStep(f: seq<int>, now: int)
    ensures Filled(f + [now]) <==> Filled(f) || InLastWindow(f + [now]) >= THRESHOLD
  {
    hide InLastWindow;
    var g := f + [now];
    assert forall n :: 0 <= n <= |f| ==> g[..n] == f[..n];
    assert g[..|g|] == g;
  }

  lemma {:induction false} RunCounts(es: seq<Event>)
    ensures Counts(Run(HEALTHY, es), SinceClear(es))
    ensures Run(HEALTHY, es).degraded <==> Filled(SinceClear(es)) || LateProbe(es)
  {
    hide Filled, Counts, RecordFailure;
    if es == [] {
      NothingCounted();
    } else {
      var pre := es[..|es| - 1];
      RunCounts(pre);
      match es[|es| - 1]
      case Clear(_) => NothingCounted();
      case Failure(now) =>
        FailureCounted(Run(HEALTHY, pre), SinceClear(pre), now);
        FilledStep(SinceClear(pre), now);
      case ProbeFailed(now) => ProbeCounted(Run(HEALTHY, pre), SinceClear(pre), now);
    }
  }

  lemma NothingCounted()
    ensures Counts(HEALTHY, []) && !Filled([])
  {
  }

  lemma ProbeCounted(c: Control, f: seq<int>, now: int)
    requires Counts(c, f)
    ensures Counts(Next(c, ProbeFailed(now)), f)
  {
  }

  /** The breaker is tripped if and only if, since the last clear, a window has come to twenty
      failures or a failed probe has met it untripped. */
  lemma TrippedExactly(es: seq<Event>)
    ensures Run(HEALTHY, es).degraded <==> Filled(SinceClear(es)) || LateProbe(es)
  {
    RunCounts(es);
  }

  /** Twenty consecutive failures within thirty seconds. */
  ghost predicate Crowded(f: seq<int>) {
    exists i :: CrowdedAt(f, i)
  }

  predicate CrowdedAt(f: seq<int>, i: int) {
    0 <= i && i + 20 <= |f| && f[i + 19] - f[i] <= 30 * SECOND
  }

  /** All failures of the last window are within thirty seconds of its first one. */
  lemma {:induction false} WindowSpan(f: seq<int>, j: nat)
    requires LastWindow(f) <= j < |f|
    ensures f[j] - f[LastWindow(f)] <= WINDOW
  {
    if |f| > 1 && j < |f| - 1 {
      WindowSpan(f[..|f| - 1], j);
    }
  }

  lemma FilledIsCrowded(f: seq<int>)
    requires Filled(f)
    ensures Crowded(f)
  {
    var n :| 0 <= n <= |f| && InLastWindow(f[..n]) >= THRESHOLD;
    var i := LastWindow(f[..n]);
    WindowSpan(f[..n], i + THRESHOLD - 1);
    assert CrowdedAt(f, i);
  }

  /** So unless a probe failed late, a tripped breaker has seen twenty failures within thirty
      seconds since it was last cleared, whatever its counter says now. */
  lemma TrippedWasCrowded(es: seq<Event>)
    requires Run(HEALTHY, es).degraded && !LateProbe(es)
    ensures Crowded(SinceClear(es))
  {
    RunCounts(es);
    FilledIsCrowded(SinceClear(es));
  }

  /** Twenty failures at once trip the breaker. */
  lemma Trip(now: int) returns (es: seq<Event>)
    ensures es == [Failure(now)] + Repeat(Failure(now), 18) + [Failure(now)]
    ensures Run(HEALTHY, es) == Control(20, Some(now), true, Some(now + PROBE_DELAY))
  {
    hide Run;
    es := [Failure(now)] + Repeat(Failure(now), 18) + [Failure(now)];
    LastEvent(HEALTHY, [], Failure(now));
    NoEvents(HEALTHY);
    assert [] + [Failure(now)] == [Failure(now)];
    Burst(Run(HEALTHY, [Failure(now)]), now, 18);
    RunConcat(HEALTHY, [Failure(now)], Repeat(Failure(now), 18));
    LastEvent(HEALTHY, [Failure(now)] + Repeat(Failure(now), 18), Failure(now));
  }

  /** The exception occurs: two callers probe a tripped breaker, the probe of one succeeds and
      clears it, and then that of the other fails. The breaker is tripped again without a
      failure since the clear. */
  lemma LateProbeTrips() returns (es: seq<Event>, i: nat)
    ensures InOrder(es) && i < |es| && ProbeDue(Run(HEALTHY, es[..i]), es[i].now)
    ensures es[i..] == [Clear(es[i].now), ProbeFailed(es[i].now)]
    ensures Run(HEALTHY, es).degraded && SinceClear(es) == []
  {
    hide Run;
    var trip := Trip(0);
    var t := PROBE_DELAY;
    LastEvent(HEALTHY, trip, Clear(t));
    LastEvent(HEALTHY, trip + [Clear(t)], ProbeFailed(t));
    es, i := trip + [Clear(t)] + [ProbeFailed(t)], |trip|;
    assert es[..i] == trip && es[..i + 1] == trip + [Clear(t)];
    assert es[..|es| - 1] == trip + [Clear(t)];
  }

  // ---------------------------------------------------------------------------
  // Probes
  // ---------------------------------------------------------------------------

  /** The event has just tripped the breaker, or found by a probe that it stays tripped. */
  predicate TripsAt(c: Control, e: Event) {
    e.ProbeFailed? || (e.Failure? && RecordFailure(c, e.now).failures >= 20)
  }

  /** From then on no call within five seconds probes, whatever happens in between: each finds
      the breaker tripped or not, and leaves it as it is. */
  lemma {:induction false} NoEarlyProbe(c: Control, e: Event, es: seq<Event>, now: int, probeOk: bool)
    requires TripsAt(c, e) && now < e.now + 5 * SECOND
    requires forall x :: x in es ==> e.now <= x.now
    ensures Check(Run(Next(c, e), es), now, probeOk) == Run(Next(c, e), es)
  {
    ProbesLater(Next(c, e), es, e.now);
  }

  lemma {:induction false} ProbesLater(c: Control, es: seq<Event>, t: int)
    requires c.degraded ==> c.nextProbe.Some? && c.nextProbe.value >= t + PROBE_DELAY
    requires forall x :: x in es ==> t <= x.now
    ensures var d := Run(c, es); d.degraded ==> d.nextProbe.Some? && d.nextProbe.value >= t + PROBE_DELAY
  {
    if es != [] {
      var pre := es[..|es| - 1];
      assert es[|es| - 1] in es && forall x :: x in pre ==> x in es;
      ProbesLater(c, pre, t);
    }
  }

  /** The first call after that probes, and only the outcome decides. */
  lemma ProbeAfterPause(c: Control, e: Event, now: int)
    requires TripsAt(c, e) && now >= e.now + 5 * SECOND
    ensures Next(c, e).degraded && Check(Next(c, e), now, true) == HEALTHY
    ensures Check(Next(c, e), now, false).degraded && TripsAt(Next(c, e), ProbeFailed(now))
  {
  }

  // ---------------------------------------------------------------------------
  // The counter
  // ---------------------------------------------------------------------------

  /** The counter is the number of failures in the last window since the last clear, tripped
      or not. */
  lemma CounterExactly(es: seq<Event>)
    ensures Run(HEALTHY, es).failures == InLastWindow(SinceClear(es))
  {
    RunCounts(es);
  }

  /** A counter that has reached the threshold starts over if and only if the next failure
      comes more than thirty seconds after the one that opened the window. */
  lemma CounterRestarts(es: seq<Event>, now: int)
    requires Run(HEALTHY, es).failures >= THRESHOLD
    ensures var f := SinceClear(es);
            && f != []
            && (Run(HEALTHY, es + [Failure(now)]).failures < THRESHOLD <==> now - f[LastWindow(f)] > WINDOW)
            && (Run(HEALTHY, es + [Failure(now)]).failures < THRESHOLD <==> Run(HEALTHY, es + [Failure(now)]).failures == 1)
  {
    hide Run;
    RunCounts(es);
    LastEvent(HEALTHY, es, Failure(now));
  }

  /** Such a run: tripped, with the counter at one. */
  lemma CounterMayRestart() returns (es: seq<Event>)
    ensures InOrder(es) && Run(HEALTHY, es).degraded && Run(HEALTHY, es).failures == 1
  {
    hide Run;
    var trip := Trip(0);
    LastEvent(HEALTHY, trip, Failure(WINDOW + 1));
    es := trip + [Failure(WINDOW + 1)];
  }
}
