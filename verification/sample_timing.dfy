/** Sample durations on the 90 kHz media clock, and the times a player rebuilds from them. */
module SampleTiming {
  import opened Common

  const TIMESCALE: int := 90000
  const DEFAULT_DURATION: nat := 3600

  /** int64 arithmetic wraps around. */
  function Wrap64(n: int): int {
    (n + TWO_63) % TWO_64 - TWO_63
  }

  /** Go's division truncates toward zero. */
  function TruncatedDiv(n: int, d: int): int
    requires d > 0
  {
    if n < 0 then -(-n / d) else n / d
  }

  /** Time.Sub saturates at the ends of the int64 range. */
  function Sub(t: int, s: int): int {
    if t - s >= TWO_63 then TWO_63 - 1 else if t - s < -TWO_63 then -TWO_63 else t - s
  }

  /** A positive time difference in ticks of the media clock, as a uint32. */
  function Ticks(delta: int): nat {
    TruncatedDiv(Wrap64(delta * TIMESCALE), SECOND) % TWO_32
  }

  /** The duration given to sample i of a fragment with these timestamps. */
  function Duration(ts: seq<int>, i: nat): (d: nat)
    requires i < |ts|
    ensures d >= 1
    decreases i
  {
    if |ts| == 1 then DEFAULT_DURATION
    else if i < |ts| - 1 then
      var delta := Sub(ts[i + 1], ts[i]);
      var d := if delta <= 0 then DEFAULT_DURATION else Ticks(delta);
      if d == 0 then 1 else d
    else Duration(ts, i - 1)
  }

  method ComputeSampleDurations(ts: seq<int>) returns (durations: seq<nat>)
    ensures |durations| == |ts| && forall i :: 0 <= i < |ts| ==> durations[i] == Duration(ts, i)
  {
    durations := [];
    for i := 0 to |ts|
      invariant |durations| == i && forall j :: 0 <= j < i ==> durations[j] == Duration(ts, j)
    {
      var d;
      if |ts| == 1 {
        d := DEFAULT_DURATION;
      } else if i < |ts| - 1 {
        var delta := Sub(ts[i + 1], ts[i]);
        d := if delta <= 0 then DEFAULT_DURATION else Ticks(delta);
      } else {
        d := durations[i - 1];
      }
      if d == 0 {
        d := 1;
      }
      durations := durations + [d];
    }
  }

  /** The decode time of sample i: the durations before it. */
  function DecodeTime(ts: seq<int>, i: nat): nat
    requires i <= |ts|
  {
    if i == 0 then 0 else DecodeTime(ts, i - 1) + Duration(ts, i - 1)
  }

  /** Ticks back to nanoseconds, as the reader of a fragment computes them. */
  function Nanoseconds(ticks: nat): int {
    TruncatedDiv(Wrap64(ticks * SECOND), TIMESCALE)
  }

  /** Decode times strictly increase, whatever the timestamps are. */
  lemma {:induction false} DecodeTimesIncrease(ts: seq<int>, i: nat, j: nat)
    requires i < j <= |ts|
    ensures DecodeTime(ts, i) < DecodeTime(ts, j)
  {
    if i < j - 1 {
      DecodeTimesIncrease(ts, i, j - 1);
    }
  }

  /** A sample lasts until the next one, in whole ticks as a 32-bit number and at least one;
      40 ms if the next one is not later or there is only one. The last of several lasts as long
      as the one before. */
  lemma DurationExactly(ts: seq<int>, i: nat)
    requires i < |ts|
    ensures |ts| == 1 ==> Duration(ts, i) == 40 * 90
    ensures i == |ts| - 1 > 0 ==> Duration(ts, i) == Duration(ts, i - 1)
    ensures i < |ts| - 1 && ts[i + 1] <= ts[i] ==> Duration(ts, i) == 40 * 90
    ensures i < |ts| - 1 && 0 < (ts[i + 1] - ts[i]) * 90000 < TWO_63 ==>
              var ticks := (ts[i + 1] - ts[i]) * 90000 / SECOND % TWO_32; Duration(ts, i) == if ticks == 0 then 1 else ticks
    ensures i < |ts| - 1 && GapOk(ts[i + 1] - ts[i]) ==>
              Duration(ts, i) * SECOND <= (ts[i + 1] - ts[i]) * 90000 < (Duration(ts, i) + 1) * SECOND
  {
    if i < |ts| - 1 && 0 < (ts[i + 1] - ts[i]) * 90000 < TWO_63 {
      WholeTicks(ts[i + 1] - ts[i]);
    }
    if i < |ts| - 1 && GapOk(ts[i + 1] - ts[i]) {
      GapsSmall(ts[i + 1] - ts[i]);
      GapTicks(ts[i + 1] - ts[i]);
    }
  }

  lemma WholeTicks(gap: int)
    requires 0 < gap * 90000 < TWO_63
    ensures 0 < gap < TWO_63 && Ticks(gap) == gap * 90000 / SECOND % TWO_32
  {
    assert Wrap64(gap * TIMESCALE) == gap * TIMESCALE;
  }

  // ---------------------------------------------------------------------------
  // Drift
  // ---------------------------------------------------------------------------

  const MIN_GAP: int := 11112
  const LAG_PER_SAMPLE: int := 11111

  /** A gap of at least one tick whose tick count is not truncated to 32 bits. */
  predicate GapOk(gap: int) {
    MIN_GAP <= gap && gap * 9 / 100000 < TWO_32
  }

  /** Ascending timestamps with such gaps, the whole span short enough for the
      multiplication in Nanoseconds. */
  ghost predicate Regular(ts: seq<int>) {
    && (forall i :: 0 <= i && i + 1 < |ts| ==> GapOk(ts[i + 1] - ts[i]))
    && (forall i :: 0 <= i < |ts| ==> (ts[i] - ts[0]) * 9 / 100000 < TWO_63 / SECOND)
  }

  /** One gap becomes its ticks rounded down: at most 99999/9 nanoseconds are lost. */
  lemma GapTicks(gap: int)
    requires GapOk(gap)
    ensures Ticks(gap) == gap * 9 / 100000
    ensures gap * 9 - 99999 <= Ticks(gap) * 100000 <= gap * 9
    ensures Ticks(gap) >= 1
  {
    assert gap * TIMESCALE / SECOND == gap * 9 / 100000;
    assert Wrap64(gap * TIMESCALE) == gap * TIMESCALE;
  }

  lemma {:induction false} TicksBehind(ts: seq<int>, i: nat)
    requires Regular(ts) && i < |ts|
    ensures (ts[i] - ts[0]) * 9 - 99999 * i <= DecodeTime(ts, i) * 100000 <= (ts[i] - ts[0]) * 9
  {
    if i > 0 {
      TicksBehind(ts, i - 1);
      GapsSmall(ts[i] - ts[i - 1]);
      GapTicks(ts[i] - ts[i - 1]);
    }
  }

  lemma GapsSmall(gap: int)
    requires GapOk(gap)
    ensures 0 < gap < TWO_63
  {
  }

  lemma NanosecondsExact(ticks: nat)
    requires ticks < TWO_63 / SECOND
    ensures Nanoseconds(ticks) == ticks * 100000 / 9
  {
    assert Wrap64(ticks * SECOND) == ticks * SECOND;
    assert ticks * SECOND / TIMESCALE == ticks * 100000 / 9;
  }

  /** The rebuilt time of sample i is never late and at most 11111 ns per sample early. */
  lemma DriftBound(ts: seq<int>, i: nat)
    requires Regular(ts) && i < |ts|
    ensures var lag := ts[i] - (ts[0] + Nanoseconds(DecodeTime(ts, i)));
            0 <= lag <= LAG_PER_SAMPLE * i
  {
    TicksBehind(ts, i);
    DriftStep(ts[i] - ts[0], DecodeTime(ts, i), i);
  }

  lemma DriftStep(elapsed: int, ticks: nat, i: nat)
    requires elapsed * 9 - 99999 * i <= ticks * 100000 <= elapsed * 9
    requires elapsed * 9 / 100000 < TWO_63 / SECOND
    ensures 0 <= elapsed - Nanoseconds(ticks) <= LAG_PER_SAMPLE * i
  {
    NanosecondsExact(ticks);
  }

  /** Evenly spaced timestamps, 111111 ns apart. */
  function Spaced(n: nat): (ts: seq<int>)
    ensures |ts| == n && forall i :: 0 <= i < n ==> ts[i] == 111111 * i
  {
    seq(n, i => 111111 * i)
  }

  /** Such timestamps are regular as long as the last of them is not too late. */
  lemma SpacedRegular(n: nat)
    requires n * 10 <= TWO_63 / SECOND
    ensures Regular(Spaced(n))
  {
    var ts := Spaced(n);
    forall i | 0 <= i && i + 1 < n ensures GapOk(ts[i + 1] - ts[i]) {
      assert ts[i + 1] - ts[i] == 111111;
    }
    forall i | 0 <= i < n ensures (ts[i] - ts[0]) * 9 / 100000 < TWO_63 / SECOND {
      SpacedTicks(i);
    }
  }

  lemma SpacedTicks(i: nat)
    ensures 111111 * i * 9 / 100000 < 10 * i + 1
  {
  }

  /** The bound is reached by every sample of an evenly spaced fragment. */
  lemma DriftReached(n: nat, i: nat)
    requires i < n && n * 10 <= TWO_63 / SECOND
    ensures Regular(Spaced(n))
    ensures Spaced(n)[i] - (Spaced(n)[0] + Nanoseconds(DecodeTime(Spaced(n), i))) == LAG_PER_SAMPLE * i
  {
    SpacedRegular(n);
    SpacedLag(n, i);
  }

  lemma {:induction false} SpacedLag(n: nat, i: nat)
    requires i < n && i * 10 < TWO_63 / SECOND
    ensures DecodeTime(Spaced(n), i) == 9 * i
    ensures Spaced(n)[i] - Nanoseconds(DecodeTime(Spaced(n), i)) == LAG_PER_SAMPLE * i
  {
    if i > 0 {
      SpacedLag(n, i - 1);
      GapTicks(111111);
    }
    NanosecondsExact(9 * i);
  }
}
