/** Playback of a time window: which GOPs are listed, which samples are sent, and how long
    the sender waits between them. */
module Playback {
  import opened Common
  import opened Samples
  import opened StreamRecorder
  import opened Index
  import opened IndexRefinement

  const LOOKAROUND: int := 2 * SECOND

  /** The window that ListGOPs queries. */
  function WindowStart(start: Time): Time {
    start.(ns := start.ns - LOOKAROUND)
  }

  function WindowEnd(start: Time, end: Option<Time>): Time {
    if end.Some? then end.value.(ns := end.value.ns + LOOKAROUND) else start.(ns := start.ns + DAY)
  }

  method ListGOPs(index: BoltIndex, camera: Bytes, start: Time, end: Option<Time>) returns (metas: seq<GOPMeta>)
    requires index.Valid()
    ensures var lo := Time(start.ns - 2 * SECOND, start.offset);
            var hi := if end.Some? then Time(end.value.ns + 2 * SECOND, end.value.offset)
                      else Time(start.ns + 24 * 60 * 60 * SECOND, start.offset);
            metas == Query(index.State(), camera, lo, hi)
  {
    hide Query;
    metas := index.QueryRange(camera, WindowStart(start), WindowEnd(start, end));
  }

  // ---------------------------------------------------------------------------
  // What to send
  // ---------------------------------------------------------------------------

  function Power2(k: nat): nat {
    if k == 0 then 1 else 2 * Power2(k - 1)
  }

  /** The scale of a trimmed header value. Every scale is a power of two from 1/8 to 16, so
      dividing by it in binary floating point is exact for the spans that occur. */
  function ParseScale(value: string): (r: Option<real>)
    ensures r.Some? ==> exists k: nat :: k <= 7 && r.value * 8.0 == Power2(k) as real
  {
    assert Power2(0) == 1 && Power2(1) == 2 && Power2(2) == 4 && Power2(3) == 8 && Power2(4) == 16;
    assert Power2(5) == 32 && Power2(6) == 64 && Power2(7) == 128;
    match value
    case "0.125" => Some(0.125)
    case "0.25" => Some(0.25)
    case "0.5" => Some(0.5)
    case "1" => Some(1.0)
    case "1.0" => Some(1.0)
    case "" => Some(1.0)
    case "2" => Some(2.0)
    case "2.0" => Some(2.0)
    case "4" => Some(4.0)
    case "4.0" => Some(4.0)
    case "8" => Some(8.0)
    case "8.0" => Some(8.0)
    case "16" => Some(16.0)
    case "16.0" => Some(16.0)
    case _ => None
  }

  /** The number that a text of digits denotes. */
  function Whole(digits: string): int {
    if digits == "" then 0 else
      10 * Whole(digits[..|digits| - 1]) + (digits[|digits| - 1] as int - '0' as int)
  }

  function Tens(k: nat): nat {
    if k == 0 then 1 else 10 * Tens(k - 1)
  }

  /** The text is a decimal numeral of the number. */
  predicate Denotes(text: string, x: real, whole: string, fraction: string) {
    && (text == whole + "." + fraction || (text == whole && fraction == ""))
    && x * Tens(|fraction|) as real == Whole(whole + fraction) as real
  }

  /** Every speed is what its text says. */
  lemma ScaleDenotes(value: string) returns (whole: string, fraction: string)
    requires ParseScale(value).Some? && value != ""
    ensures Denotes(value, ParseScale(value).value, whole, fraction)
  {
    hide Whole, Tens;
    WholeNumbers();
    Joined();
    match value
    case "0.125" => whole, fraction := "0", "125";
    case "0.25" => whole, fraction := "0", "25";
    case "0.5" => whole, fraction := "0", "5";
    case "1.0" => whole, fraction := "1", "0";
    case "2.0" => whole, fraction := "2", "0";
    case "4.0" => whole, fraction := "4", "0";
    case "8.0" => whole, fraction := "8", "0";
    case "16.0" => whole, fraction := "16", "0";
    case _ =>
      whole, fraction := value, "";
      assert value + "" == value;
  }

  lemma Joined()
    ensures "0" + "." + "125" == "0.125" && "0" + "." + "25" == "0.25" && "0" + "." + "5" == "0.5"
    ensures "1" + "." + "0" == "1.0" && "2" + "." + "0" == "2.0" && "4" + "." + "0" == "4.0" && "8" + "." + "0" == "8.0"
    ensures "16" + "." + "0" == "16.0"
    ensures "0" + "125" == "0125" && "0" + "25" == "025" && "0" + "5" == "05"
    ensures "1" + "0" == "10" && "2" + "0" == "20" && "4" + "0" == "40" && "8" + "0" == "80" && "16" + "0" == "160"
  {
  }

  /** Every power of two from an eighth to sixteen is accepted, and no text means one. */
  lemma ScaleAccepted(k: nat) returns (text: string)
    requires k <= 7
    ensures ParseScale(text) == Some(Power2(k) as real / 8.0) && ParseScale("") == Some(1.0)
  {
    text := ["0.125", "0.25", "0.5", "1", "2", "4", "8", "16"][k];
    assert Power2(0) == 1 && Power2(1) == 2 && Power2(2) == 4 && Power2(3) == 8 && Power2(4) == 16;
    assert Power2(5) == 32 && Power2(6) == 64 && Power2(7) == 128;
  }

  lemma WholeNumbers()
    ensures Tens(0) == 1 && Tens(1) == 10 && Tens(2) == 100 && Tens(3) == 1000
    ensures Whole("0125") == 125 && Whole("025") == 25 && Whole("05") == 5
    ensures Whole("1") == 1 && Whole("2") == 2 && Whole("4") == 4 && Whole("8") == 8 && Whole("16") == 16
    ensures Whole("10") == 10 && Whole("20") == 20 && Whole("40") == 40 && Whole("80") == 80 && Whole("160") == 160
  {
    assert "0125"[..3] == "012" && "012"[..2] == "01" && "01"[..1] == "0" && "0"[..0] == "";
  }

  predicate ShouldSend(s: Sample, scale: real) {
    if scale >= 8.0 then s.isKey
    else if scale >= 4.0 then s.frameType != B
    else true
  }

  predicate After(t: Time, end: Option<Time>) {
    end.Some? && t.ns > end.value.ns
  }

  /** A stored sample that belongs to the playback. */
  predicate Wanted(s: Sample, start: Time, end: Option<Time>, scale: real) {
    start.ns <= s.timestamp.ns && !After(s.timestamp, end) && ShouldSend(s, scale)
  }

  function Select(samples: seq<Sample>, start: Time, end: Option<Time>, scale: real): seq<Sample> {
    if samples == [] then [] else
      (if Wanted(samples[0], start, end, scale) then [samples[0]] else [])
      + Select(samples[1..], start, end, scale)
  }

  /** The stored GOPs as the reader gets them: nothing if the object cannot be read. */
  type Reader = Bytes -> Option<seq<Sample>>

  function SamplesOf(read: Reader, meta: GOPMeta): seq<Sample> {
    if read(meta.objectKey).Some? then read(meta.objectKey).value else []
  }

  /** All wanted samples of a list of GOPs, in order. */
  function Expected(metas: seq<GOPMeta>, read: Reader, start: Time, end: Option<Time>, scale: real): seq<Sample> {
    if metas == [] then [] else
      Select(SamplesOf(read, metas[0]), start, end, scale) + Expected(metas[1..], read, start, end, scale)
  }

  /** The delay before a sample, truncated to whole nanoseconds; none before the first. */
  function Delay(last: Option<Time>, t: Time, scale: real): int
    requires scale > 0.0
  {
    if last.None? || t.ns <= last.value.ns then 0 else ((t.ns - last.value.ns) as real / scale).Floor
  }

  function LastTime(sent: seq<Sample>): Option<Time> {
    if sent == [] then None else Some(sent[|sent| - 1].timestamp)
  }

  /** The delays of a sequence of sent samples. */
  function Delays(sent: seq<Sample>, scale: real): (d: seq<int>)
    requires scale > 0.0
    ensures |d| == |sent|
  {
    if sent == [] then [] else
      var n := |sent| - 1;
      Delays(sent[..n], scale) + [Delay(LastTime(sent[..n]), sent[n].timestamp, scale)]
  }

  // ---------------------------------------------------------------------------
  // Orderly recordings
  // ---------------------------------------------------------------------------

  ghost predicate AscendingTimes(samples: seq<Sample>) {
    forall i, j :: 0 <= i < j < |samples| ==> samples[i].timestamp.ns <= samples[j].timestamp.ns
  }

  /** A GOP whose timestamps, as far as it can be read, ascend within its interval. */
  ghost predicate OrderlyGOP(read: Reader, meta: GOPMeta) {
    var samples := SamplesOf(read, meta);
    && meta.start.ns <= meta.end.ns
    && AscendingTimes(samples)
    && (forall s :: s in samples ==> meta.start.ns <= s.timestamp.ns <= meta.end.ns)
  }

  /** GOPs in order that do not overlap. */
  ghost predicate Orderly(metas: seq<GOPMeta>, read: Reader) {
    && (forall m :: m in metas ==> OrderlyGOP(read, m))
    && (forall i, j :: 0 <= i < j < |metas| ==> metas[i].end.ns <= metas[j].start.ns)
  }

  lemma {:induction false} SelectConcat(a: seq<Sample>, b: seq<Sample>, start: Time, end: Option<Time>, scale: real)
    ensures Select(a + b, start, end, scale) == Select(a, start, end, scale) + Select(b, start, end, scale)
  {
    if a == [] {
      assert a + b == b;
    } else {
      assert (a + b)[1..] == a[1..] + b;
      SelectConcat(a[1..], b, start, end, scale);
    }
  }

  lemma SelectStep(samples: seq<Sample>, i: nat, start: Time, end: Option<Time>, scale: real)
    requires i < |samples|
    ensures Select(samples[..i + 1], start, end, scale)
         == Select(samples[..i], start, end, scale) + if Wanted(samples[i], start, end, scale) then [samples[i]] else []
  {
    assert samples[..i + 1] == samples[..i] + [samples[i]];
    SelectConcat(samples[..i], [samples[i]], start, end, scale);
    assert Select([samples[i]][1..], start, end, scale) == [];
  }

  lemma {:induction false} SelectNothing(samples: seq<Sample>, start: Time, end: Option<Time>, scale: real)
    ensures Select(samples, start, end, scale) == [] <==> forall s :: s in samples ==> !Wanted(s, start, end, scale)
    ensures forall s :: s in Select(samples, start, end, scale) <==> s in samples && Wanted(s, start, end, scale)
  {
    if samples != [] {
      SelectNothing(samples[1..], start, end, scale);
      assert samples == [samples[0]] + samples[1..];
    }
  }

  lemma {:induction false} ExpectedConcat(
      a: seq<GOPMeta>, b: seq<GOPMeta>, read: Reader, start: Time, end: Option<Time>, scale: real)
    ensures Expected(a + b, read, start, end, scale)
         == Expected(a, read, start, end, scale) + Expected(b, read, start, end, scale)
  {
    if a == [] {
      assert a + b == b;
    } else {
      assert (a + b)[1..] == a[1..] + b;
      ExpectedConcat(a[1..], b, read, start, end, scale);
    }
  }

  lemma ExpectedStep(metas: seq<GOPMeta>, i: nat, read: Reader, start: Time, end: Option<Time>, scale: real)
    requires i < |metas|
    ensures Expected(metas[..i + 1], read, start, end, scale)
         == Expected(metas[..i], read, start, end, scale) + Select(SamplesOf(read, metas[i]), start, end, scale)
  {
    hide Select;
    assert metas[..i + 1] == metas[..i] + [metas[i]];
    ExpectedConcat(metas[..i], [metas[i]], read, start, end, scale);
    assert Expected([metas[i]][1..], read, start, end, scale) == [];
  }

  lemma {:induction false} NothingExpected(metas: seq<GOPMeta>, read: Reader, start: Time, end: Option<Time>, scale: real)
    requires forall m, s :: m in metas && s in SamplesOf(read, m) ==> !Wanted(s, start, end, scale)
    ensures Expected(metas, read, start, end, scale) == []
  {
    if metas != [] {
      SelectNothing(SamplesOf(read, metas[0]), start, end, scale);
      NothingExpected(metas[1..], read, start, end, scale);
    }
  }

  /** The samples of a GOP are not before the start of it or of an earlier one. */
  lemma NotBefore(metas: seq<GOPMeta>, i: nat, j: nat, read: Reader, s: Sample)
    requires Orderly(metas, read) && i <= j < |metas| && s in SamplesOf(read, metas[j])
    ensures metas[i].start.ns <= s.timestamp.ns
    ensures i < j ==> metas[i].end.ns <= s.timestamp.ns
  {
    assert metas[i] in metas && metas[j] in metas;
    assert OrderlyGOP(read, metas[i]) && OrderlyGOP(read, metas[j]);
  }

  /** From a GOP on that starts past the playback's end, nothing is wanted. */
  lemma RestUnwanted(metas: seq<GOPMeta>, i: nat, read: Reader, start: Time, end: Option<Time>, scale: real)
    requires Orderly(metas, read) && i < |metas| && After(metas[i].start, end)
    ensures Expected(metas, read, start, end, scale) == Expected(metas[..i], read, start, end, scale)
  {
    hide Expected, SamplesOf;
    var rest := metas[i..];
    forall m, s | m in rest && s in SamplesOf(read, m) ensures !Wanted(s, start, end, scale) {
      var j :| 0 <= j < |rest| && rest[j] == m;
      NotBefore(metas, i, i + j, read, s);
    }
    NothingExpected(rest, read, start, end, scale);
    ExpectedConcat(metas[..i], rest, read, start, end, scale);
    assert metas == metas[..i] + rest;
  }

  /** A GOP that has a sample past the playback's end is the last one with wanted samples. */
  lemma LastWanted(metas: seq<GOPMeta>, i: nat, late: Sample, read: Reader, start: Time, end: Option<Time>, scale: real)
    requires Orderly(metas, read) && i < |metas| && late in SamplesOf(read, metas[i]) && After(late.timestamp, end)
    ensures Expected(metas, read, start, end, scale) == Expected(metas[..i + 1], read, start, end, scale)
  {
    hide Expected;
    assert metas[i] in metas && OrderlyGOP(read, metas[i]);
    if i + 1 < |metas| {
      assert metas[i].end.ns <= metas[i + 1].start.ns;
      RestUnwanted(metas, i + 1, read, start, end, scale);
    } else {
      assert metas[..i + 1] == metas;
    }
  }

  // ---------------------------------------------------------------------------
  // Which samples these are
  // ---------------------------------------------------------------------------

  /** All samples of a list of GOPs. */
  function Stored(metas: seq<GOPMeta>, read: Reader): seq<Sample> {
    if metas == [] then [] else SamplesOf(read, metas[0]) + Stored(metas[1..], read)
  }

  lemma {:induction false} SelectCounts(samples: seq<Sample>, start: Time, end: Option<Time>, scale: real, s: Sample)
    ensures multiset(Select(samples, start, end, scale))[s]
         == if Wanted(s, start, end, scale) then multiset(samples)[s] else 0
  {
    hide Wanted;
    if samples != [] {
      assert samples == [samples[0]] + samples[1..];
      SelectCounts(samples[1..], start, end, scale, s);
    }
  }

  lemma {:induction false} ExpectedCounts(
      metas: seq<GOPMeta>, read: Reader, start: Time, end: Option<Time>, scale: real, s: Sample)
    ensures multiset(Expected(metas, read, start, end, scale))[s]
         == if Wanted(s, start, end, scale) then multiset(Stored(metas, read))[s] else 0
  {
    hide Select, Wanted, SamplesOf;
    if metas != [] {
      SelectCounts(SamplesOf(read, metas[0]), start, end, scale, s);
      ExpectedCounts(metas[1..], read, start, end, scale, s);
    }
  }

  /** A stored sample is sent as often as it is stored, if it lies between start and end and
      its speed class allows it: below four times the speed every sample, below eight times
      all but B frames, from there on key frames only. Otherwise it is not sent. */
  lemma ExpectedExactly(metas: seq<GOPMeta>, read: Reader, start: Time, end: Option<Time>, scale: real, s: Sample)
    ensures multiset(Expected(metas, read, start, end, scale))[s] ==
              if && start.ns <= s.timestamp.ns && (end.Some? ==> s.timestamp.ns <= end.value.ns)
                 && (scale < 4.0 || (scale < 8.0 && (s.frameType == I || s.frameType == P)) || (scale >= 8.0 && s.isKey))
              then multiset(Stored(metas, read))[s]
              else 0
    ensures s in Stored(metas, read) <==> exists m :: m in metas && read(m.objectKey).Some? && s in read(m.objectKey).value
  {
    hide Expected, Stored;
    ExpectedCounts(metas, read, start, end, scale, s);
    StoredMembers(metas, read, s);
  }

  lemma {:induction false} StoredMembers(metas: seq<GOPMeta>, read: Reader, s: Sample)
    ensures s in Stored(metas, read) <==> exists m :: m in metas && read(m.objectKey).Some? && s in read(m.objectKey).value
  {
    if metas != [] {
      assert metas == [metas[0]] + metas[1..];
      StoredMembers(metas[1..], read, s);
    }
  }

  // ---------------------------------------------------------------------------
  // The playback loops
  // ---------------------------------------------------------------------------

  /** The GOP is to be played and cannot be read. */
  predicate Missing(m: GOPMeta, read: Reader, start: Time, end: Option<Time>) {
    start.ns <= m.end.ns && !After(m.start, end) && read(m.objectKey).None?
  }

  /** How many GOPs come before the first one that is missing. */
  function Reached(metas: seq<GOPMeta>, read: Reader, start: Time, end: Option<Time>): (n: nat)
    ensures n <= |metas| && (n < |metas| ==> Missing(metas[n], read, start, end))
    ensures forall i :: 0 <= i < n ==> !Missing(metas[i], read, start, end)
  {
    if metas == [] || Missing(metas[0], read, start, end) then 0 else 1 + Reached(metas[1..], read, start, end)
  }

  lemma DelayStep(sent: seq<Sample>, s: Sample, scale: real)
    requires scale > 0.0
    ensures Delays(sent + [s], scale) == Delays(sent, scale) + [Delay(LastTime(sent), s.timestamp, scale)]
    ensures LastTime(sent + [s]) == Some(s.timestamp)
  {
    assert (sent + [s])[..|sent|] == sent;
  }

  /** The samples of one GOP, after those sent before; `stop` when one lies past the end. */
  method SendGOP(samples: seq<Sample>, start: Time, end: Option<Time>, scale: real, lastSent: Option<Time>,
                 ghost before: seq<Sample>)
    returns (sent: seq<Sample>, delays: seq<int>, last: Option<Time>, stop: bool)
    requires scale > 0.0 && lastSent == LastTime(before)
    ensures AscendingTimes(samples) ==> sent == Select(samples, start, end, scale)
    ensures stop ==> exists s :: s in samples && After(s.timestamp, end)
    ensures last == LastTime(before + sent) && Delays(before + sent, scale) == Delays(before, scale) + delays
  {
    hide Select, Delays, Delay, LastTime, ShouldSend;
    sent, delays, last := [], [], lastSent;
    assert before + sent == before;
    assert samples[..0] == [];
    SelectNothing([], start, end, scale);
    for i := 0 to |samples|
      invariant sent == Select(samples[..i], start, end, scale)
      invariant last == LastTime(before + sent) && Delays(before + sent, scale) == Delays(before, scale) + delays
    {
      var s := samples[i];
      SelectStep(samples, i, start, end, scale);
      if s.timestamp.ns < start.ns {
        continue;
      }
      if After(s.timestamp, end) {
        StopSelect(samples, i, start, end, scale);
        assert s in samples;
        return sent, delays, last, true;
      }
      if !ShouldSend(s, scale) {
        continue;
      }
      var delay := Delay(last, s.timestamp, scale);
      DelayStep(before + sent, s, scale);
      assert before + sent + [s] == before + (sent + [s]);
      sent := sent + [s];
      delays := delays + [delay];
      last := Some(s.timestamp);
    }
    assert samples[..|samples|] == samples;
    stop := false;
  }

  /** After a sample past the end, an ascending GOP has nothing more to send. */
  lemma StopSelect(samples: seq<Sample>, i: nat, start: Time, end: Option<Time>, scale: real)
    requires i < |samples| && After(samples[i].timestamp, end)
    ensures AscendingTimes(samples) ==> Select(samples, start, end, scale) == Select(samples[..i], start, end, scale)
  {
    hide Select, ShouldSend;
    if AscendingTimes(samples) {
      var rest := samples[i..];
      forall s | s in rest ensures !Wanted(s, start, end, scale) {
        var j :| 0 <= j < |rest| && rest[j] == s;
        assert s == samples[i + j];
      }
      SelectNothing(rest, start, end, scale);
      SelectConcat(samples[..i], rest, start, end, scale);
      assert samples == samples[..i] + rest;
    }
  }

  /** Every init segment can be loaded and fits the session's codec. */
  ghost predicate Loadable(metas: seq<GOPMeta>, load: Bytes -> Option<Coding>, session: Coding) {
    forall m :: m in metas ==>
      m.initKey != [] && load(m.initKey).Some? && load(m.initKey).value.codec == session.codec
  }

  /** The sample belongs to a listed GOP whose init segment it is sent under. */
  ghost predicate SentUnderOwnInit(metas: seq<GOPMeta>, read: Reader, load: Bytes -> Option<Coding>, s: Sample, c: Coding) {
    exists m :: m in metas && s in SamplesOf(read, m) && load(m.initKey) == Some(c)
  }

  lemma LoadableAt(metas: seq<GOPMeta>, i: nat, load: Bytes -> Option<Coding>, session: Coding)
    requires i < |metas| && Loadable(metas, load, session)
    ensures metas[i].initKey != [] && load(metas[i].initKey).Some? && load(metas[i].initKey).value.codec == session.codec
  {
    assert metas[i] in metas;
  }

  lemma PartUnderOwnInit(metas: seq<GOPMeta>, i: nat, read: Reader, load: Bytes -> Option<Coding>, session: Coding,
                         start: Time, end: Option<Time>, scale: real, sender: Coding)
    requires i < |metas|
    ensures load(metas[i].initKey) == Some(sender) ==>
              forall s :: s in Select(SamplesOf(read, metas[i]), start, end, scale) ==>
                SentUnderOwnInit(metas, read, load, s, sender)
  {
    SelectNothing(SamplesOf(read, metas[i]), start, end, scale);
    assert metas[i] in metas;
  }

  /** `load` is the init segment behind a key, if it can be read; `session` is what the
      sender was set up with. `inits` are the init segments the samples are sent under. The
      playback stops at the first GOP that is missing. */
  method RunPlayback(metas: seq<GOPMeta>, read: Reader, load: Bytes -> Option<Coding>, session: Coding,
                     start: Time, end: Option<Time>, scale: real)
    returns (sent: seq<Sample>, delays: seq<int>, inits: seq<Coding>)
    requires scale > 0.0
    ensures var n := Reached(metas, read, start, end);
            Orderly(metas[..n], read) ==> sent == Expected(metas[..n], read, start, end, scale)
    ensures delays == Delays(sent, scale) && |inits| == |sent|
    ensures forall c :: c in inits ==> c == session || c.codec == session.codec
    ensures Orderly(metas, read) && Loadable(metas, load, session) ==>
              forall k :: 0 <= k < |sent| ==> SentUnderOwnInit(metas, read, load, sent[k], inits[k])
  {
    hide Expected, Select, Delays, Orderly, LastTime, Loadable, SentUnderOwnInit, Reached, SamplesOf;
    sent, delays, inits := [], [], [];
    NothingSent(scale);
    NothingExpected([], read, start, end, scale);
    ghost var reached := metas[..Reached(metas, read, start, end)];
    OrderlyPrefix(metas, |reached|, read);
    assert reached[..0] == [];
    var lastSent: Option<Time> := None;
    var sender, currentInitKey := session, [];
    for i := 0 to |metas|
      invariant i <= |reached|
      invariant Orderly(reached, read) ==> sent == Expected(reached[..i], read, start, end, scale)
      invariant lastSent == LastTime(sent) && delays == Delays(sent, scale) && |inits| == |sent|
      invariant (sender == session || sender.codec == session.codec)
                && forall c :: c in inits ==> c == session || c.codec == session.codec
      invariant Loadable(metas, load, session) && currentInitKey != [] ==> load(currentInitKey) == Some(sender)
      invariant Orderly(metas, read) && Loadable(metas, load, session) ==>
                  forall k :: 0 <= k < |sent| ==> SentUnderOwnInit(metas, read, load, sent[k], inits[k])
    {
      var meta := metas[i];
      if meta.end.ns < start.ns {
        ExpectedStep(reached, i, read, start, end, scale);
        SkippedGOP(reached, i, read, start, end, scale);
        continue;
      }
      if After(meta.start, end) {
        if Orderly(reached, read) && i < |reached| {
          RestUnwanted(reached, i, read, start, end, scale);
        }
        return;
      }
      if Loadable(metas, load, session) {
        LoadableAt(metas, i, load, session);
      }
      if meta.initKey != currentInitKey {
        var loaded := load(meta.initKey);
        if loaded.Some? && loaded.value.codec == session.codec {
          sender, currentInitKey := loaded.value, meta.initKey;
        }
      }
      var samples := read(meta.objectKey);
      if samples.None? {
        assert reached[..i] == reached;
        return;
      }
      SamplesRead(read, meta);
      ExpectedStep(reached, i, read, start, end, scale);
      var part, pauses, last, stop := SendGOP(samples.value, start, end, scale, lastSent, sent);
      OrderlyAt(metas, i, read);
      OrderlyAt(reached, i, read);
      PartUnderOwnInit(metas, i, read, load, session, start, end, scale, sender);
      sent, delays, lastSent := sent + part, delays + pauses, last;
      inits := inits + seq(|part|, _ => sender);
      if stop {
        if Orderly(reached, read) {
          var late :| late in samples.value && After(late.timestamp, end);
          LastWanted(reached, i, late, read, start, end, scale);
        }
        return;
      }
    }
    assert reached[..|reached|] == reached;
  }

  lemma OrderlyPrefix(metas: seq<GOPMeta>, n: nat, read: Reader)
    requires n <= |metas|
    ensures Orderly(metas, read) ==> Orderly(metas[..n], read)
  {
    hide OrderlyGOP;
  }

  /** A playback for which no GOP is missing gets through the whole list. */
  lemma AllReached(metas: seq<GOPMeta>, read: Reader, start: Time, end: Option<Time>)
    ensures (forall m :: m in metas ==> !Missing(m, read, start, end)) <==> Reached(metas, read, start, end) == |metas|
  {
    hide Missing;
    var n := Reached(metas, read, start, end);
    if n < |metas| {
      assert metas[n] in metas;
    }
  }

  lemma NothingSent(scale: real)
    requires scale > 0.0
    ensures Delays([], scale) == [] && LastTime([]) == None
  {
  }

  lemma OrderlyAt(metas: seq<GOPMeta>, i: nat, read: Reader)
    requires i < |metas|
    ensures Orderly(metas, read) ==> AscendingTimes(SamplesOf(read, metas[i]))
  {
    assert metas[i] in metas;
    assert Orderly(metas, read) ==> OrderlyGOP(read, metas[i]);
  }

  lemma SamplesRead(read: Reader, m: GOPMeta)
    requires read(m.objectKey).Some?
    ensures SamplesOf(read, m) == read(m.objectKey).value
  {
  }

  /** A GOP that ends before the playback's start has nothing to send. */
  lemma SkippedGOP(metas: seq<GOPMeta>, i: nat, read: Reader, start: Time, end: Option<Time>, scale: real)
    requires i < |metas| && metas[i].end.ns < start.ns
    ensures Orderly(metas, read) ==> Select(SamplesOf(read, metas[i]), start, end, scale) == []
  {
    SelectNothing(SamplesOf(read, metas[i]), start, end, scale);
    assert metas[i] in metas;
    assert Orderly(metas, read) ==> OrderlyGOP(read, metas[i]);
  }

  // ---------------------------------------------------------------------------
  // The window is wide enough
  // ---------------------------------------------------------------------------

  /** GOPs that a query over [lo, hi] lists. */
  function Listed(metas: seq<GOPMeta>, lo: Time, hi: Time): seq<GOPMeta> {
    if metas == [] then [] else
      (if lo.ns <= metas[0].start.ns <= hi.ns then [metas[0]] else []) + Listed(metas[1..], lo, hi)
  }

  lemma {:induction false} ListedMembers(metas: seq<GOPMeta>, lo: Time, hi: Time)
    requires Ascending(metas)
    ensures Ascending(Listed(metas, lo, hi))
    ensures forall m :: m in Listed(metas, lo, hi) <==> m in metas && lo.ns <= m.start.ns <= hi.ns
  {
    if metas != [] {
      var head, tail := metas[0], metas[1..];
      TailLater(metas);
      ListedMembers(tail, lo, hi);
      if lo.ns <= head.start.ns <= hi.ns {
        IndexRefinement.ConsAscending(head, Listed(tail, lo, hi));
      } else {
        assert Listed(metas, lo, hi) == Listed(tail, lo, hi);
      }
    }
  }

  lemma TailLater(metas: seq<GOPMeta>)
    requires metas != [] && Ascending(metas)
    ensures Ascending(metas[1..]) && forall m :: m in metas[1..] ==> metas[0].start.ns < m.start.ns
    ensures forall m :: m in metas <==> m == metas[0] || m in metas[1..]
  {
    assert metas == [metas[0]] + metas[1..];
    forall m | m in metas[1..] ensures metas[0].start.ns < m.start.ns {
      var i :| 0 <= i < |metas[1..]| && metas[1..][i] == m;
      assert m == metas[i + 1];
    }
  }

  /** All entries of a camera, as a list. */
  ghost predicate IsCatalogue(all: seq<GOPMeta>, t: Table, camera: Bytes) {
    Ascending(all) && forall g :: g in all <==> Entry(t, camera, g)
  }

  /** What ListGOPs returns out of the whole catalogue. */
  lemma ListingOfCatalogue(metas: seq<GOPMeta>, all: seq<GOPMeta>, t: Table, camera: Bytes, lo: Time, hi: Time)
    requires IsCatalogue(all, t, camera) && IsListing(metas, t, camera, lo, hi)
    ensures metas == Listed(all, lo, hi)
  {
    ListedMembers(all, lo, hi);
    ListingUnique(metas, Listed(all, lo, hi));
  }

  /** A GOP the window leaves out although it holds something to play. */
  ghost predicate Overlooked(m: GOPMeta, read: Reader, start: Time, end: Option<Time>, scale: real) {
    && !(WindowStart(start).ns <= m.start.ns <= WindowEnd(start, end).ns)
    && exists s :: s in SamplesOf(read, m) && Wanted(s, start, end, scale)
  }

  lemma WantedPart(m: GOPMeta, read: Reader, start: Time, end: Option<Time>, scale: real)
    ensures Select(SamplesOf(read, m), start, end, scale) != []
       <==> exists s :: s in SamplesOf(read, m) && Wanted(s, start, end, scale)
  {
    SelectNothing(SamplesOf(read, m), start, end, scale);
  }

  /** Playing the listed GOPs plays everything wanted exactly when no GOP is overlooked. */
  lemma {:induction false} WindowExact(all: seq<GOPMeta>, read: Reader, start: Time, end: Option<Time>, scale: real)
    ensures var listed := Listed(all, WindowStart(start), WindowEnd(start, end));
            && |Expected(listed, read, start, end, scale)| <= |Expected(all, read, start, end, scale)|
            && (Expected(listed, read, start, end, scale) == Expected(all, read, start, end, scale)
                <==> forall m :: m in all ==> !Overlooked(m, read, start, end, scale))
  {
    hide Select, Wanted, WindowStart, WindowEnd;
    if all != [] {
      var m, rest := all[0], all[1..];
      WindowExact(rest, read, start, end, scale);
      SelectNothing(SamplesOf(read, m), start, end, scale);
      assert all == [m] + rest;
      var part := Select(SamplesOf(read, m), start, end, scale);
      var listed := Listed(rest, WindowStart(start), WindowEnd(start, end));
      var a, b := Expected(listed, read, start, end, scale), Expected(rest, read, start, end, scale);
      if WindowStart(start).ns <= m.start.ns <= WindowEnd(start, end).ns {
        assert ([m] + listed)[1..] == listed;
        assert part + a == part + b <==> a == b by {
          assert a == (part + a)[|part|..] && b == (part + b)[|part|..];
        }
        assert !Overlooked(m, read, start, end, scale);
      } else {
        WantedPart(m, read, start, end, scale);
        assert Listed(all, WindowStart(start), WindowEnd(start, end)) == listed;
        assert Overlooked(m, read, start, end, scale) <==> part != [];
        assert part == [] ==> part + b == b;
      }
    }
  }

  /** A GOP that began more than two seconds before the playback's start and reaches it, so
      one that lasts longer than that. */
  predicate ReachesOver(m: GOPMeta, start: Time) {
    m.start.ns < start.ns - 2 * SECOND && start.ns <= m.end.ns
  }

  /** The GOP reads back with its key frame first, at its start. */
  ghost predicate KeyFirst(read: Reader, m: GOPMeta) {
    var samples := SamplesOf(read, m);
    samples != [] && samples[0].isKey && samples[0].frameType == I && samples[0].timestamp.ns == m.start.ns
  }

  /** Without an end the window stops a day after the start. */
  predicate StartsInTime(m: GOPMeta, start: Time, end: Option<Time>) {
    end.Some? || m.start.ns <= start.ns + DAY
  }

  /** Which GOPs are overlooked can be told from their metadata. */
  lemma OverlookedExactly(m: GOPMeta, read: Reader, start: Time, end: Option<Time>, scale: real)
    requires OrderlyGOP(read, m) && !ReachesOver(m, start) && (end.None? ==> KeyFirst(read, m))
    ensures Overlooked(m, read, start, end, scale) <==> !StartsInTime(m, start, end)
  {
    if !StartsInTime(m, start, end) {
      assert SamplesOf(read, m)[0] in SamplesOf(read, m);
    }
  }

  /** The last frame of the GOP reads back at most `lag` before its end. */
  ghost predicate LastFrameNear(read: Reader, m: GOPMeta, lag: nat) {
    var samples := SamplesOf(read, m);
    samples != [] && m.end.ns - samples[|samples| - 1].timestamp.ns <= lag
  }

  /** A GOP that reaches over the start, by more than its last frame can be early, and ends
      within the playback is overlooked when no frames are skipped. */
  lemma LongGOPOverlooked(m: GOPMeta, read: Reader, start: Time, end: Option<Time>, scale: real, lag: nat)
    requires OrderlyGOP(read, m) && LastFrameNear(read, m, lag) && ReachesOver(m, start) && scale < 4.0
    requires start.ns + lag <= m.end.ns && (end.Some? ==> m.end.ns <= end.value.ns)
    ensures Overlooked(m, read, start, end, scale)
  {
    var samples := SamplesOf(read, m);
    assert samples[|samples| - 1] in samples;
  }

  /** Such a GOP makes the playback incomplete. */
  lemma LongGOPMissed(metas: seq<GOPMeta>, all: seq<GOPMeta>, t: Table, camera: Bytes, read: Reader,
                      start: Time, end: Option<Time>, scale: real, m: GOPMeta, lag: nat)
    requires IsCatalogue(all, t, camera) && IsListing(metas, t, camera, WindowStart(start), WindowEnd(start, end))
    requires m in all && OrderlyGOP(read, m) && LastFrameNear(read, m, lag) && ReachesOver(m, start) && scale < 4.0
    requires start.ns + lag <= m.end.ns && (end.Some? ==> m.end.ns <= end.value.ns)
    ensures Expected(metas, read, start, end, scale) != Expected(all, read, start, end, scale)
  {
    hide Expected, Overlooked, WindowStart, WindowEnd;
    ListingOfCatalogue(metas, all, t, camera, WindowStart(start), WindowEnd(start, end));
    LongGOPOverlooked(m, read, start, end, scale, lag);
    WindowExact(all, read, start, end, scale);
  }

  /** So a playback of GOPs that do not reach over its start sends exactly the wanted samples
      of all GOPs the camera has, whatever list a query returns that the index theorem
      allows, if and only if it has an end or no GOP starts more than a day after its start. */
  lemma PlaybackExact(metas: seq<GOPMeta>, all: seq<GOPMeta>, t: Table, camera: Bytes, read: Reader,
                      start: Time, end: Option<Time>, scale: real)
    requires IsCatalogue(all, t, camera) && Orderly(all, read)
    requires IsListing(metas, t, camera, WindowStart(start), WindowEnd(start, end))
    requires forall m :: m in all ==> !ReachesOver(m, start) && (end.None? ==> KeyFirst(read, m))
    ensures Orderly(metas, read) && forall m :: m in metas ==> m in all
    ensures Expected(metas, read, start, end, scale) == Expected(all, read, start, end, scale)
       <==> forall m :: m in all ==> StartsInTime(m, start, end)
  {
    hide Expected, StartsInTime, Overlooked, KeyFirst, ReachesOver, WindowStart, WindowEnd;
    var lo, hi := WindowStart(start), WindowEnd(start, end);
    ListingOfCatalogue(metas, all, t, camera, lo, hi);
    ListedMembers(all, lo, hi);
    ListedOrderly(all, read, lo, hi);
    forall m | m in all ensures Overlooked(m, read, start, end, scale) <==> !StartsInTime(m, start, end) {
      OverlookedExactly(m, read, start, end, scale);
    }
    WindowExact(all, read, start, end, scale);
  }

  lemma {:induction false} ListedOrderly(all: seq<GOPMeta>, read: Reader, lo: Time, hi: Time)
    requires Orderly(all, read)
    ensures Orderly(Listed(all, lo, hi), read)
    ensures forall m :: m in Listed(all, lo, hi) ==> m in all
  {
    hide OrderlyGOP;
    if all != [] {
      var rest := all[1..];
      assert all == [all[0]] + rest;
      ListedOrderly(rest, read, lo, hi);
      forall m | m in rest ensures all[0].end.ns <= m.start.ns {
        var i :| 0 <= i < |rest| && rest[i] == m;
        assert m == all[i + 1];
      }
    }
  }

  // ---------------------------------------------------------------------------
  // Pace
  // ---------------------------------------------------------------------------

  function Total(d: seq<int>): int {
    if d == [] then 0 else Total(d[..|d| - 1]) + d[|d| - 1]
  }

  /** Over ascending samples the delays add up to the recorded time divided by the scale,
      short by less than a nanosecond per sample. */
  lemma {:induction false} PaceKept(sent: seq<Sample>, scale: real)
    requires scale > 0.0 && sent != [] && AscendingTimes(sent)
    ensures var recorded := (sent[|sent| - 1].timestamp.ns - sent[0].timestamp.ns) as real / scale;
            Total(Delays(sent, scale)) as real <= recorded < Total(Delays(sent, scale)) as real + |sent| as real
  {
    var n := |sent| - 1;
    var pre, d := sent[..n], Delays(sent, scale);
    assert d[..n] == Delays(pre, scale);
    if n == 0 {
      assert d == [0] && d[..0] == [];
    } else {
      PaceKept(pre, scale);
      var gap := sent[n].timestamp.ns - sent[n - 1].timestamp.ns;
      assert d[n] == (gap as real / scale).Floor;
      DivideSum(sent[n - 1].timestamp.ns - sent[0].timestamp.ns, gap, scale);
    }
  }

  lemma DivideSum(a: int, b: int, scale: real)
    requires scale > 0.0
    ensures (a + b) as real / scale == a as real / scale + b as real / scale
  {
  }

  lemma {:induction false} ExpectedMembers(metas: seq<GOPMeta>, read: Reader, start: Time, end: Option<Time>, scale: real)
    ensures forall s :: s in Expected(metas, read, start, end, scale) ==> exists m :: m in metas && s in SamplesOf(read, m)
  {
    hide Select, SamplesOf;
    if metas != [] {
      assert metas == [metas[0]] + metas[1..];
      ExpectedMembers(metas[1..], read, start, end, scale);
      SelectNothing(SamplesOf(read, metas[0]), start, end, scale);
    }
  }

  lemma JoinAscending(a: seq<Sample>, b: seq<Sample>)
    requires AscendingTimes(a) && AscendingTimes(b)
    requires forall x, y :: x in a && y in b ==> x.timestamp.ns <= y.timestamp.ns
    ensures AscendingTimes(a + b)
  {
    forall i, j | 0 <= i < j < |a + b| ensures (a + b)[i].timestamp.ns <= (a + b)[j].timestamp.ns {
      if i < |a| <= j {
        assert a[i] in a && b[j - |a|] in b;
      }
    }
  }

  /** The samples sent from an orderly recording are ascending, so their pace is kept. */
  lemma {:induction false} ExpectedAscending(metas: seq<GOPMeta>, read: Reader, start: Time, end: Option<Time>, scale: real)
    requires Orderly(metas, read)
    ensures AscendingTimes(Expected(metas, read, start, end, scale))
  {
    hide Select, SamplesOf, AscendingTimes;
    if metas == [] {
      NoneAscending();
    } else {
      var m, rest := metas[0], metas[1..];
      assert metas == [m] + rest && OrderlyGOP(read, m);
      ExpectedAscending(rest, read, start, end, scale);
      var part, later := Select(SamplesOf(read, m), start, end, scale), Expected(rest, read, start, end, scale);
      SelectNothing(SamplesOf(read, m), start, end, scale);
      SelectAscending(SamplesOf(read, m), start, end, scale);
      LaterParts(metas, part, read, start, end, scale);
      JoinAscending(part, later);
    }
  }

  /** What is sent of a GOP comes before what is sent of the next ones. */
  lemma LaterParts(metas: seq<GOPMeta>, part: seq<Sample>, read: Reader, start: Time, end: Option<Time>, scale: real)
    requires Orderly(metas, read) && metas != [] && forall a :: a in part ==> a in SamplesOf(read, metas[0])
    ensures forall a, b :: a in part && b in Expected(metas[1..], read, start, end, scale) ==> a.timestamp.ns <= b.timestamp.ns
  {
    hide Expected, SamplesOf, AscendingTimes;
    var rest := metas[1..];
    ExpectedMembers(rest, read, start, end, scale);
    assert metas[0] in metas && OrderlyGOP(read, metas[0]);
    forall a: Sample, b: Sample | a in part && b in Expected(rest, read, start, end, scale)
      ensures a.timestamp.ns <= b.timestamp.ns
    {
      var g :| g in rest && b in SamplesOf(read, g);
      var i :| 0 <= i < |rest| && rest[i] == g;
      assert metas[i + 1] == g;
      NotBefore(metas, 0, i + 1, read, b);
    }
  }

  lemma NoneAscending()
    ensures AscendingTimes([])
  {
  }

  lemma TailAscending(samples: seq<Sample>)
    requires AscendingTimes(samples) && samples != []
    ensures AscendingTimes(samples[1..]) && forall s :: s in samples[1..] ==> samples[0].timestamp.ns <= s.timestamp.ns
  {
    forall s | s in samples[1..] ensures samples[0].timestamp.ns <= s.timestamp.ns {
      var i :| 0 <= i < |samples[1..]| && samples[1..][i] == s;
      assert s == samples[i + 1];
    }
  }

  lemma ConsAscending(first: Sample, rest: seq<Sample>)
    requires AscendingTimes(rest) && forall s :: s in rest ==> first.timestamp.ns <= s.timestamp.ns
    ensures AscendingTimes([first] + rest) && [] + rest == rest
  {
    hide AscendingTimes;
    OneAscending(first);
    JoinAscending([first], rest);
  }

  lemma OneAscending(s: Sample)
    ensures AscendingTimes([s])
  {
  }

  lemma {:induction false} SelectAscending(samples: seq<Sample>, start: Time, end: Option<Time>, scale: real)
    requires AscendingTimes(samples)
    ensures AscendingTimes(Select(samples, start, end, scale))
  {
    hide Wanted, AscendingTimes;
    if samples == [] {
      NoneAscending();
    } else {
      var rest, kept := samples[1..], Select(samples[1..], start, end, scale);
      TailAscending(samples);
      SelectAscending(rest, start, end, scale);
      SelectNothing(rest, start, end, scale);
      ConsAscending(samples[0], kept);
    }
  }
}
