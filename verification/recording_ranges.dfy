/** Merging the GOPs of a day into continuous recording ranges. */
module RecordingRanges {
  import opened Common
  import opened Index

  datatype TimeRange = TimeRange(start: Time, end: Time)

  const MERGE_GAP: int := 5 * SECOND

  /** Time from the end of the GOP before position i to the start of the one at i. */
  function Gap(gops: seq<GOPMeta>, i: nat): int
    requires 0 < i < |gops|
  {
    gops[i].start.ns - gops[i - 1].end.ns
  }

  /** Positions at which a new range starts, among the first n GOPs. */
  function Starts(gops: seq<GOPMeta>, n: nat): (s: seq<nat>)
    requires n <= |gops|
    ensures n > 0 ==> s != [] && s[0] == 0
    ensures forall k :: 0 <= k < |s| ==> s[k] < n
  {
    if n == 0 then [] else
      Starts(gops, n - 1) + if n == 1 || Gap(gops, n - 1) >= MERGE_GAP then [n - 1] else []
  }

  /** One past the last GOP of group k. */
  function GroupEnd(s: seq<nat>, n: nat, k: nat): nat
    requires k < |s|
  {
    if k + 1 < |s| then s[k + 1] else n
  }

  /** From the start of a group's first GOP to the end of its last. */
  function RangeAt(gops: seq<GOPMeta>, s: seq<nat>, n: nat, k: nat): TimeRange
    requires n <= |gops| && k < |s| && s[k] < n && 0 < GroupEnd(s, n, k) <= n
  {
    TimeRange(gops[s[k]].start, gops[GroupEnd(s, n, k) - 1].end)
  }

  /** The ranges of a grouping of the first n GOPs, given by its group starts. */
  function RangesOf(gops: seq<GOPMeta>, s: seq<nat>, n: nat): (r: seq<TimeRange>)
    requires n <= |gops| && IsGrouping(s, n)
    ensures |r| == |s|
  {
    seq(|s|, k requires 0 <= k < |s| => assert s[0] <= s[k]; RangeAt(gops, s, n, k))
  }

  /** Group starts that split [0, n) into non-empty consecutive groups. */
  ghost predicate IsGrouping(s: seq<nat>, n: nat) {
    && (n > 0 <==> s != [])
    && (s != [] ==> s[0] == 0)
    && (forall i, j :: 0 <= i < j < |s| ==> s[i] < s[j])
    && (forall k :: 0 <= k < |s| ==> s[k] < n)
  }

  lemma {:induction false} StartsGroup(gops: seq<GOPMeta>, n: nat)
    requires n <= |gops|
    ensures IsGrouping(Starts(gops, n), n)
    ensures forall i :: 0 < i < n ==> (i in Starts(gops, n) <==> Gap(gops, i) >= MERGE_GAP)
  {
    if n > 0 {
      StartsGroup(gops, n - 1);
    }
  }

  /** One more GOP in the last group moves the end of the last range. */
  lemma RangesExtend(gops: seq<GOPMeta>, s: seq<nat>, n: nat)
    requires 0 < n < |gops| && IsGrouping(s, n) && IsGrouping(s, n + 1)
    ensures var r := RangesOf(gops, s, n);
            RangesOf(gops, s, n + 1) == r[|s| - 1 := r[|s| - 1].(end := gops[n].end)]
  {
    var r, r' := RangesOf(gops, s, n), RangesOf(gops, s, n + 1);
    forall k | 0 <= k < |s| - 1 ensures r'[k] == r[k] {
      assert RangeAt(gops, s, n + 1, k) == RangeAt(gops, s, n, k);
    }
  }

  /** One more GOP in a group of its own adds a range. */
  lemma RangesOpen(gops: seq<GOPMeta>, s: seq<nat>, n: nat)
    requires 0 < n < |gops| && IsGrouping(s, n) && IsGrouping(s + [n], n + 1)
    ensures RangesOf(gops, s + [n], n + 1) == RangesOf(gops, s, n) + [TimeRange(gops[n].start, gops[n].end)]
  {
    var r, r' := RangesOf(gops, s, n), RangesOf(gops, s + [n], n + 1);
    forall k | 0 <= k < |s| ensures r'[k] == r[k] {
      assert RangeAt(gops, s + [n], n + 1, k) == RangeAt(gops, s, n, k);
    }
  }

  /** How one more GOP changes the ranges: it extends the last one or opens its own. */
  lemma RangesStep(gops: seq<GOPMeta>, n: nat)
    requires 0 < n < |gops|
    requires IsGrouping(Starts(gops, n), n) && IsGrouping(Starts(gops, n + 1), n + 1)
    ensures var r, r' := RangesOf(gops, Starts(gops, n), n), RangesOf(gops, Starts(gops, n + 1), n + 1);
            && r != [] && r[|r| - 1].end == gops[n - 1].end
            && r' == if Gap(gops, n) < MERGE_GAP then r[|r| - 1 := r[|r| - 1].(end := gops[n].end)]
                     else r + [TimeRange(gops[n].start, gops[n].end)]
  {
    var s := Starts(gops, n);
    assert RangesOf(gops, s, n)[|s| - 1] == RangeAt(gops, s, n, |s| - 1);
    if Gap(gops, n) < MERGE_GAP {
      assert Starts(gops, n + 1) == s;
      RangesExtend(gops, s, n);
    } else {
      assert Starts(gops, n + 1) == s + [n];
      RangesOpen(gops, s, n);
    }
  }

  lemma FirstRange(gops: seq<GOPMeta>)
    requires gops != []
    ensures IsGrouping(Starts(gops, 1), 1)
    ensures RangesOf(gops, Starts(gops, 1), 1) == [TimeRange(gops[0].start, gops[0].end)]
  {
    assert Starts(gops, 1) == Starts(gops, 0) + [0];
  }

  /** The loop of GetRecordingRanges. */
  method MergeGOPs(gops: seq<GOPMeta>) returns (ranges: seq<TimeRange>)
    ensures IsGrouping(Starts(gops, |gops|), |gops|)
    ensures ranges == RangesOf(gops, Starts(gops, |gops|), |gops|)
  {
    hide Starts, RangesOf, IsGrouping;
    StartsGroup(gops, |gops|);
    if |gops| == 0 {
      return [];
    }
    ranges := [];
    var current := TimeRange(gops[0].start, gops[0].end);
    FirstRange(gops);
    for i := 1 to |gops|
      invariant IsGrouping(Starts(gops, i), i)
      invariant ranges + [current] == RangesOf(gops, Starts(gops, i), i)
    {
      StartsGroup(gops, i + 1);
      RangesStep(gops, i);
      ghost var before := ranges + [current];
      assert before[|before| - 1] == current;
      var gap := gops[i].start.ns - current.end.ns;
      assert gap == Gap(gops, i);
      if gap < MERGE_GAP {
        current := current.(end := gops[i].end);
        assert ranges + [current] == before[|before| - 1 := current];
      } else {
        ranges := ranges + [current];
        current := TimeRange(gops[i].start, gops[i].end);
      }
    }
    ranges := ranges + [current];
  }

  /** Local midnight of a date, in the date's own location. */
  function LocalMidnight(date: Time): Time {
    Time(DayLabel(date) * DAY - date.offset, date.offset)
  }

  /** An instant has the date's day in that location exactly when it lies in the 24 hours from
      that midnight. */
  lemma LocalDay(date: Time, t: Time)
    requires t.offset == date.offset
    ensures LocalMidnight(date).offset == date.offset
    ensures (t.ns + t.offset) / DAY == (date.ns + date.offset) / DAY
       <==> 0 <= t.ns - LocalMidnight(date).ns < 24 * 60 * 60 * SECOND
  {
  }

  method GetRecordingRanges(index: BoltIndex, camera: Bytes, date: Time) returns (ranges: seq<TimeRange>)
    requires index.Valid()
    ensures var gops := Query(index.State(), camera, LocalMidnight(date), NextDay(LocalMidnight(date)));
            && IsGrouping(Starts(gops, |gops|), |gops|)
            && ranges == RangesOf(gops, Starts(gops, |gops|), |gops|)
  {
    var start := LocalMidnight(date);
    var gops := index.QueryRange(camera, start, NextDay(start));
    ranges := MergeGOPs(gops);
  }

  // ---------------------------------------------------------------------------
  // What the merge promises
  // ---------------------------------------------------------------------------

  /** A grouping that starts a new group exactly at the gaps of five seconds or more. */
  ghost predicate SplitsAtGaps(gops: seq<GOPMeta>, s: seq<nat>) {
    forall i :: 0 < i < |gops| ==> (i in s <==> gops[i].start.ns - gops[i - 1].end.ns >= 5 * SECOND)
  }

  lemma {:induction false} SameGrouping(s: seq<nat>, t: seq<nat>, n: nat)
    requires IsGrouping(s, n) && IsGrouping(t, n)
    requires forall i :: 0 < i < n ==> (i in s <==> i in t)
    ensures s == t
  {
    if |s| > 1 || |t| > 1 {
      var u := if |s| > 1 then s[|s| - 1] else 0;
      var v := if |t| > 1 then t[|t| - 1] else 0;
      assert u > 0 ==> u in t;
      assert v > 0 ==> v in s;
      assert u == v;
      var s', t' := s[..|s| - 1], t[..|t| - 1];
      forall i | 0 < i < u ensures i in s' <==> i in t' {
        assert i in s <==> i in s';
        assert i in t <==> i in t';
      }
      SameGrouping(s', t', u);
      assert s == s' + [u] && t == t' + [v];
    }
  }

  /** It is the only grouping with no gap of five seconds inside a group and none
      smaller between groups. */
  lemma GroupingUnique(gops: seq<GOPMeta>, s: seq<nat>)
    requires IsGrouping(s, |gops|)
    ensures SplitsAtGaps(gops, s) <==> s == Starts(gops, |gops|)
  {
    StartsGroup(gops, |gops|);
    if SplitsAtGaps(gops, s) {
      SameGrouping(s, Starts(gops, |gops|), |gops|);
    }
  }

  lemma RangesApart(gops: seq<GOPMeta>, k: nat)
    requires IsGrouping(Starts(gops, |gops|), |gops|)
    requires k + 1 < |Starts(gops, |gops|)|
    ensures var r := RangesOf(gops, Starts(gops, |gops|), |gops|);
            r[k + 1].start.ns - r[k].end.ns >= 5 * SECOND
  {
    StartsGroup(gops, |gops|);
    var s := Starts(gops, |gops|);
    assert s[k + 1] in s && s[0] < s[k + 1];
  }

  /** Sorted by start, ends in the same order, no GOP ending before it starts. */
  ghost predicate Orderly(gops: seq<GOPMeta>) {
    && (forall i :: 0 <= i < |gops| ==> gops[i].start.ns <= gops[i].end.ns)
    && (forall i, j :: 0 <= i < j < |gops| ==> gops[i].start.ns <= gops[j].start.ns)
    && (forall i, j :: 0 <= i < j < |gops| ==> gops[i].end.ns <= gops[j].end.ns)
  }

  predicate Covers(r: TimeRange, g: GOPMeta) {
    r.start.ns <= g.start.ns && g.end.ns <= r.end.ns
  }

  /** The group that position i belongs to. */
  lemma {:induction false} GroupOf(s: seq<nat>, n: nat, i: nat) returns (k: nat)
    requires IsGrouping(s, n) && i < n
    ensures k < |s| && s[k] <= i && (k + 1 < |s| ==> i < s[k + 1])
  {
    k := |s| - 1;
    while s[k] > i
      invariant k < |s| && (k + 1 < |s| ==> i < s[k + 1])
    {
      k := k - 1;
    }
  }

  /** Every GOP lies in exactly one range. */
  lemma InOneRange(gops: seq<GOPMeta>, i: nat) returns (k: nat)
    requires Orderly(gops) && i < |gops| && IsGrouping(Starts(gops, |gops|), |gops|)
    ensures var r := RangesOf(gops, Starts(gops, |gops|), |gops|);
            && k < |r| && Covers(r[k], gops[i])
            && forall j :: 0 <= j < |r| && Covers(r[j], gops[i]) ==> j == k
  {
    hide Starts;
    StartsGroup(gops, |gops|);
    var s := Starts(gops, |gops|);
    var r := RangesOf(gops, s, |gops|);
    k := GroupOf(s, |gops|, i);
    forall j | 0 <= j < |r| && j != k ensures !Covers(r[j], gops[i]) {
      if j < k {
        assert s[j + 1] in s && s[0] < s[j + 1] <= s[k] <= i;
        assert r[j].end.ns + MERGE_GAP <= gops[s[j + 1]].start.ns;
      } else {
        assert s[j] in s && s[0] < s[j] && i < s[k + 1] <= s[j];
        assert gops[s[j] - 1].end.ns + MERGE_GAP <= r[j].start.ns;
      }
    }
  }

  function TotalDuration(r: seq<TimeRange>): int {
    if r == [] then 0 else
      TotalDuration(r[..|r| - 1]) + (r[|r| - 1].end.ns - r[|r| - 1].start.ns)
  }

  /** The gaps of five seconds or more among the first n GOPs. */
  function LongGaps(gops: seq<GOPMeta>, n: nat): int
    requires n <= |gops|
  {
    if n <= 1 then 0 else
      LongGaps(gops, n - 1) + if Gap(gops, n - 1) >= MERGE_GAP then Gap(gops, n - 1) else 0
  }

  /** Ranges whose last one grows, or to which one is added. */
  lemma DurationStep(r: seq<TimeRange>, x: TimeRange)
    ensures TotalDuration(r + [x]) == TotalDuration(r) + (x.end.ns - x.start.ns)
    ensures r != [] ==> TotalDuration(r[|r| - 1 := r[|r| - 1].(end := x.end)])
                        == TotalDuration(r) + (x.end.ns - r[|r| - 1].end.ns)
  {
    assert (r + [x])[..|r|] == r;
    if r != [] {
      assert r[|r| - 1 := r[|r| - 1].(end := x.end)][..|r| - 1] == r[..|r| - 1];
    }
  }

  /** The ranges add up to the whole extent without the long gaps. */
  lemma {:induction false} DurationConserved(gops: seq<GOPMeta>, n: nat)
    requires 0 < n <= |gops| && IsGrouping(Starts(gops, n), n)
    ensures TotalDuration(RangesOf(gops, Starts(gops, n), n))
         == gops[n - 1].end.ns - gops[0].start.ns - LongGaps(gops, n)
  {
    hide Starts, RangesOf, IsGrouping, TotalDuration;
    if n > 1 {
      StartsGroup(gops, n - 1);
      RangesStep(gops, n - 1);
      DurationConserved(gops, n - 1);
      DurationStep(RangesOf(gops, Starts(gops, n - 1), n - 1), TimeRange(gops[n - 1].start, gops[n - 1].end));
    } else {
      FirstRange(gops);
      DurationStep([], TimeRange(gops[0].start, gops[0].end));
      NoDuration();
      assert [] + [TimeRange(gops[0].start, gops[0].end)] == [TimeRange(gops[0].start, gops[0].end)];
    }
  }

  lemma NoDuration()
    ensures TotalDuration([]) == 0
  {
  }
}
