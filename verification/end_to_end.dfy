/** From the camera's samples to the player: what the recorder submits, the writer indexes
    and a query lists is what a playback sends. */
module EndToEnd {
  import opened Common
  import opened Samples
  import opened Segmentation
  import opened StreamRecorder
  import opened Index
  import opened IndexRefinement
  import opened DayCover
  import opened Playback
  import SampleTiming
  import FMP4
  import SampleCodec
  import R = RecorderRefinement
  import W = AsyncWriter
  import WriterSafety
  import H = HybridProtocol
  import HybridReads
  import InitSegments
  import Retention

  // ---------------------------------------------------------------------------
  // GOPs in order
  // ---------------------------------------------------------------------------

  /** The recorded frames come with strictly ascending timestamps. */
  ghost predicate StrictFrames(p: seq<Piece>) {
    forall i, j :: 0 <= i < j < |p| && p[i].Frame? && p[j].Frame? ==> p[i].sample.timestamp.ns < p[j].sample.timestamp.ns
  }

  lemma TailFrames(p: seq<Piece>)
    requires p != [] && StrictFrames(p)
    ensures StrictFrames(p[1..])
    ensures p[0].Frame? ==> forall s :: Frame(s) in p[1..] ==> p[0].sample.timestamp.ns < s.timestamp.ns
    ensures forall x :: x in p <==> x == p[0] || x in p[1..]
  {
    assert p == [p[0]] + p[1..];
    forall s | p[0].Frame? && Frame(s) in p[1..] ensures p[0].sample.timestamp.ns < s.timestamp.ns {
      var i :| 0 <= i < |p[1..]| && p[1..][i] == Frame(s);
      assert p[i + 1] == Frame(s);
    }
  }

  ghost predicate StrictTimes(g: seq<Sample>) {
    forall i, j :: 0 <= i < j < |g| ==> g[i].timestamp.ns < g[j].timestamp.ns
  }

  lemma ConsStrict(s: Sample, g: seq<Sample>)
    requires StrictTimes(g) && forall x :: x in g ==> s.timestamp.ns < x.timestamp.ns
    ensures StrictTimes([s] + g)
  {
    forall i, j | 0 <= i < j < |[s] + g| ensures ([s] + g)[i].timestamp.ns < ([s] + g)[j].timestamp.ns {
      assert ([s] + g)[j] in g;
    }
  }

  lemma {:induction false} FollowInOrder(first: Sample, p: seq<Piece>)
    requires StrictFrames(p)
    ensures StrictTimes(Follow(first, p)) && forall x :: x in Follow(first, p) ==> Frame(x) in p
    ensures forall x, g, y :: x in Follow(first, p) && g in Segments(p) && y in g ==> x.timestamp.ns < y.timestamp.ns
  {
    if p != [] && Continues(first, p[0]) {
      TailFrames(p);
      FollowInOrder(first, p[1..]);
      SegmentFrames(p[1..]);
      ConsStrict(p[0].sample, Follow(first, p[1..]));
    }
  }

  lemma {:induction false} SegmentFrames(p: seq<Piece>)
    ensures forall g, s :: g in Segments(p) && s in g ==> Frame(s) in p
  {
    if p != [] {
      assert p == [p[0]] + p[1..];
      SegmentFrames(p[1..]);
      if IsKeyFrame(p[0]) {
        FollowFrames(p[0].sample, p[1..]);
      }
    }
  }

  lemma {:induction false} FollowFrames(first: Sample, p: seq<Piece>)
    ensures forall x :: x in Follow(first, p) ==> Frame(x) in p
  {
    if p != [] && Continues(first, p[0]) {
      assert p == [p[0]] + p[1..];
      FollowFrames(first, p[1..]);
    }
  }

  /** GOPs with ascending timestamps, each wholly before the next. */
  ghost predicate OrderedGOPs(gs: seq<seq<Sample>>) {
    && (forall g :: g in gs ==> g != [] && StrictTimes(g))
    && (forall i, j, x, y :: 0 <= i < j < |gs| && x in gs[i] && y in gs[j] ==> x.timestamp.ns < y.timestamp.ns)
  }

  lemma ConsOrdered(g: seq<Sample>, gs: seq<seq<Sample>>)
    requires OrderedGOPs(gs) && g != [] && StrictTimes(g)
    requires forall x, h, y :: x in g && h in gs && y in h ==> x.timestamp.ns < y.timestamp.ns
    ensures OrderedGOPs([g] + gs)
  {
    hide StrictTimes;
    var all := [g] + gs;
    forall i: int, j: int, x: Sample, y: Sample | 0 <= i < j < |all| && x in all[i] && y in all[j]
      ensures x.timestamp.ns < y.timestamp.ns
    {
      assert all[j] == gs[j - 1] && gs[j - 1] in gs;
    }
  }

  lemma {:induction false} SegmentsOrdered(p: seq<Piece>)
    requires StrictFrames(p)
    ensures OrderedGOPs(Segments(p))
  {
    hide StrictFrames, OrderedGOPs, StrictTimes;
    if p != [] {
      TailFrames(p);
      SegmentsOrdered(p[1..]);
      if IsKeyFrame(p[0]) {
        FirstSegmentOrdered(p[0].sample, p[1..]);
        ConsOrdered([p[0].sample] + Follow(p[0].sample, p[1..]), Segments(p[1..]));
      }
    } else {
      NoGOPsOrdered();
    }
  }

  lemma NoGOPsOrdered()
    ensures OrderedGOPs([])
  {
  }

  lemma FirstSegmentOrdered(s: Sample, rest: seq<Piece>)
    requires StrictFrames(rest) && forall x :: Frame(x) in rest ==> s.timestamp.ns < x.timestamp.ns
    ensures StrictTimes([s] + Follow(s, rest))
    ensures forall x, h, y :: x in [s] + Follow(s, rest) && h in Segments(rest) && y in h ==> x.timestamp.ns < y.timestamp.ns
  {
    hide Segments, Follow, StrictFrames;
    FollowInOrder(s, rest);
    SegmentFrames(rest);
    ConsStrict(s, Follow(s, rest));
  }

  // ---------------------------------------------------------------------------
  // The index holds the submitted jobs
  // ---------------------------------------------------------------------------

  function IdOf(j: WriteJob): Id {
    Id(j.camera, j.meta.start.ns)
  }

  function ItemOf(j: WriteJob): Item {
    Item(j.camera, j.meta)
  }

  /** The entry of a table is the metadata of a job. */
  ghost predicate FromJob(jobs: seq<WriteJob>, id: Id, g: GOPMeta) {
    exists i :: 0 <= i < |jobs| && id == IdOf(jobs[i]) && g == jobs[i].meta
  }

  ghost predicate OnlyJobs(m: Table, jobs: seq<WriteJob>, camera: Bytes) {
    forall id :: id in m && id.camera == camera ==> FromJob(jobs, id, m[id])
  }

  ghost predicate IsJobItem(jobs: seq<WriteJob>, item: Item) {
    exists j :: j in jobs && item == ItemOf(j)
  }

  /** What the batches hold for the camera are its jobs. */
  ghost predicate AllJobBatches(ops: seq<Op>, jobs: seq<WriteJob>, camera: Bytes) {
    forall op :: op in ops ==> op.Batch? && op.commit && Named(op.items)
                               && forall item :: item in op.items && item.camera == camera ==> IsJobItem(jobs, item)
  }

  /** Committed batches with the camera's jobs among others, in any order and grouping, that
      leave none of them out. */
  ghost predicate Indexes(ops: seq<Op>, jobs: seq<WriteJob>, camera: Bytes) {
    && AllJobBatches(ops, jobs, camera)
    && (forall j :: j in jobs ==> exists op :: op in ops && op.Batch? && ItemOf(j) in op.items)
  }

  lemma {:induction false} BatchAdds(m: Table, items: seq<Item>, jobs: seq<WriteJob>, camera: Bytes)
    requires OnlyJobs(m, jobs, camera) && forall item :: item in items && item.camera == camera ==> IsJobItem(jobs, item)
    ensures OnlyJobs(WriteAll(m, items), jobs, camera) && m.Keys <= WriteAll(m, items).Keys
    ensures forall item :: item in items ==> Id(item.camera, item.meta.start.ns) in WriteAll(m, items)
  {
    if items != [] {
      var n := |items| - 1;
      assert items == items[..n] + [items[n]];
      BatchAdds(m, items[..n], jobs, camera);
      if items[n].camera == camera {
        assert items[n] in items && IsJobItem(jobs, items[n]);
        var j :| j in jobs && items[n] == ItemOf(j);
        var i :| 0 <= i < |jobs| && jobs[i] == j;
        assert FromJob(jobs, IdOf(j), j.meta);
      }
    }
  }

  lemma {:induction false} BatchesAdd(ops: seq<Op>, jobs: seq<WriteJob>, camera: Bytes)
    requires AllJobBatches(ops, jobs, camera)
    ensures OnlyJobs(RunTable(map[], ops), jobs, camera)
    ensures forall op, item :: op in ops && op.Batch? && item in op.items ==>
              Id(item.camera, item.meta.start.ns) in RunTable(map[], ops)
  {
    if ops != [] {
      var n := |ops| - 1;
      assert ops == ops[..n] + [ops[n]];
      BatchesAdd(ops[..n], jobs, camera);
      assert ops[n] in ops;
      BatchAdds(RunTable(map[], ops[..n]), ops[n].items, jobs, camera);
    }
  }

  function MetasOf(jobs: seq<WriteJob>): (metas: seq<GOPMeta>)
    ensures |metas| == |jobs| && forall i :: 0 <= i < |jobs| ==> metas[i] == jobs[i].meta
  {
    seq(|jobs|, i requires 0 <= i < |jobs| => jobs[i].meta)
  }

  lemma Listed(ops: seq<Op>, jobs: seq<WriteJob>, i: nat)
    requires i < |jobs| && Indexes(ops, jobs, jobs[i].camera) && Ascending(MetasOf(jobs))
    requires forall j :: j in jobs ==> j.camera == jobs[i].camera
    ensures Entry(RunTable(map[], ops), jobs[i].camera, jobs[i].meta)
  {
    hide RunTable, AllJobBatches;
    var all, m, id := MetasOf(jobs), RunTable(map[], ops), IdOf(jobs[i]);
    BatchesAdd(ops, jobs, jobs[i].camera);
    assert jobs[i] in jobs;
    var op :| op in ops && op.Batch? && ItemOf(jobs[i]) in op.items;
    assert FromJob(jobs, id, m[id]);
    var k :| 0 <= k < |jobs| && id == IdOf(jobs[k]) && m[id] == jobs[k].meta;
    assert all[k].start.ns == all[i].start.ns;
  }

  /** In the order of their submission the jobs are the catalogue of the camera. */
  lemma JobsAreCatalogue(ops: seq<Op>, jobs: seq<WriteJob>, camera: Bytes)
    requires Indexes(ops, jobs, camera) && Ascending(MetasOf(jobs)) && forall j :: j in jobs ==> j.camera == camera
    ensures IsCatalogue(MetasOf(jobs), RunTable(map[], ops), camera)
  {
    hide RunTable, AllJobBatches;
    var all, m := MetasOf(jobs), RunTable(map[], ops);
    assert OnlyJobs(m, jobs, camera) by {
      BatchesAdd(ops, jobs, camera);
    }
    forall g ensures g in all <==> Entry(m, camera, g) {
      if g in all {
        var i :| 0 <= i < |all| && all[i] == g;
        assert jobs[i] in jobs;
        Listed(ops, jobs, i);
      }
      if Entry(m, camera, g) {
        assert FromJob(jobs, Id(camera, g.start.ns), g);
      }
    }
  }

  // ---------------------------------------------------------------------------
  // Reading back in order
  // ---------------------------------------------------------------------------

  lemma NanosecondsMonotone(s: nat, t: nat)
    requires s <= t < TWO_63 / SECOND
    ensures 0 <= SampleTiming.Nanoseconds(s) <= SampleTiming.Nanoseconds(t)
  {
    SampleTiming.NanosecondsExact(s);
    SampleTiming.NanosecondsExact(t);
  }

  lemma TicksBounded(ts: seq<int>, i: nat)
    requires SampleTiming.Regular(ts) && i < |ts|
    ensures SampleTiming.DecodeTime(ts, i) < TWO_63 / SECOND
  {
    SampleTiming.TicksBehind(ts, i);
  }

  ghost predicate ReadAs(codec: Codec, full: seq<FMP4.FullSample>, start: Time, out: seq<Sample>) {
    && FMP4.Decodable(codec, full) && |out| == |full|
    && forall i :: 0 <= i < |full| ==>
         SampleCodec.Decoded(codec, full[i].data).Ok? && out[i] == FMP4.SampleAt(codec, start, full, i)
  }

  lemma ReadTime(codec: Codec, samples: seq<Sample>, full: seq<FMP4.FullSample>, out: seq<Sample>, i: nat)
    requires FMP4.Built(codec, samples, full) && ReadAs(codec, full, samples[0].timestamp, out) && i < |full|
    ensures out[i].timestamp.ns == samples[0].timestamp.ns
              + SampleTiming.Nanoseconds(SampleTiming.DecodeTime(FMP4.Timestamps(samples), i))
  {
    hide SampleTiming.Nanoseconds, SampleTiming.DecodeTime, FMP4.Elapsed, FMP4.Decodable;
    FMP4.ClocksAgree(codec, samples, full, i);
  }

  lemma ReadBounds(ts: seq<int>, i: nat)
    requires SampleTiming.Regular(ts) && i < |ts|
    ensures ts[0] <= ts[0] + SampleTiming.Nanoseconds(SampleTiming.DecodeTime(ts, i)) <= ts[|ts| - 1]
  {
    hide SampleTiming.Nanoseconds, SampleTiming.DecodeTime, SampleTiming.Regular;
    SampleTiming.DriftBound(ts, i);
    TicksBounded(ts, i);
    NanosecondsMonotone(0, SampleTiming.DecodeTime(ts, i));
    RegularAscending(ts, i, |ts| - 1);
  }

  lemma ReadAscending(ts: seq<int>, i: nat, j: nat)
    requires SampleTiming.Regular(ts) && i < j < |ts|
    ensures SampleTiming.Nanoseconds(SampleTiming.DecodeTime(ts, i)) <= SampleTiming.Nanoseconds(SampleTiming.DecodeTime(ts, j))
  {
    hide SampleTiming.Nanoseconds, SampleTiming.DecodeTime, SampleTiming.Regular;
    SampleTiming.DecodeTimesIncrease(ts, i, j);
    TicksBounded(ts, j);
    NanosecondsMonotone(SampleTiming.DecodeTime(ts, i), SampleTiming.DecodeTime(ts, j));
  }

  /** A fragment with regular timestamps that its codec can carry reads back as an orderly
      GOP, which is what the playback relies on. */
  lemma FragmentReadsInOrder(codec: Codec, samples: seq<Sample>, full: seq<FMP4.FullSample>, read: Reader, meta: GOPMeta)
    requires FMP4.Built(codec, samples, full) && SampleTiming.Regular(FMP4.Timestamps(samples))
    requires meta.start == samples[0].timestamp && meta.end == samples[|samples| - 1].timestamp
    requires read(meta.objectKey).Some? && ReadAs(codec, full, meta.start, read(meta.objectKey).value)
    ensures OrderlyGOP(read, meta)
  {
    hide SampleTiming.Nanoseconds, SampleTiming.DecodeTime, SampleTiming.Regular, FMP4.Decodable, FMP4.SampleAt, FMP4.Elapsed;
    var ts, out := FMP4.Timestamps(samples), read(meta.objectKey).value;
    forall i: nat | i < |ts| ensures meta.start.ns <= out[i].timestamp.ns <= meta.end.ns {
      ReadTime(codec, samples, full, out, i);
      ReadBounds(ts, i);
    }
    forall i: nat, j: nat | i < j < |ts| ensures out[i].timestamp.ns <= out[j].timestamp.ns {
      ReadTime(codec, samples, full, out, i);
      ReadTime(codec, samples, full, out, j);
      ReadAscending(ts, i, j);
    }
    RegularAscending(ts, 0, |ts| - 1);
  }

  lemma {:induction false} RegularAscending(ts: seq<int>, i: nat, j: nat)
    requires SampleTiming.Regular(ts) && i <= j < |ts|
    ensures ts[i] <= ts[j]
  {
    if i < j {
      RegularAscending(ts, i, j - 1);
      SampleTiming.GapsSmall(ts[j] - ts[j - 1]);
    }
  }

  /** What comes back for frame i of a GOP: the same units under the same codec, an I frame
      for a key frame and a P frame for any other, never late and early by at most 11111 ns
      a frame. */
  predicate FrameBack(a: Sample, b: Sample, i: nat) {
    && b.units == a.units && b.isKey == a.isKey && b.codec == a.codec
    && b.frameType == (if a.isKey then I else P)
    && 0 <= a.timestamp.ns - b.timestamp.ns <= SampleTiming.LAG_PER_SAMPLE * i
  }

  ghost predicate ReadsBack(a: seq<Sample>, b: seq<Sample>) {
    |a| == |b| && forall i :: 0 <= i < |a| ==> FrameBack(a[i], b[i], i)
  }

  /** The object of a job holds the fragment built from its samples, whose units the codec
      can carry and whose timestamps are regular. */
  ghost predicate Archived(read: Reader, j: WriteJob) {
    var codec, samples := j.meta.codec, j.gop.samples;
    && SampleTiming.Regular(FMP4.Timestamps(samples))
    && (forall s :: s in samples ==> FMP4.Carried(codec, s.units))
    && read(j.meta.objectKey).Some?
    && exists full :: FMP4.Built(codec, samples, full) && ReadAs(codec, full, samples[0].timestamp, read(j.meta.objectKey).value)
  }

  lemma ArchivedReadsBack(site: Site, read: Reader, j: WriteJob)
    requires R.Describes(site, j) && Archived(read, j)
    ensures OrderlyGOP(read, j.meta) && ReadsBack(j.gop.samples, SamplesOf(read, j.meta)) && KeyFirst(read, j.meta)
    ensures LastFrameNear(read, j.meta, SampleTiming.LAG_PER_SAMPLE * (|j.gop.samples| - 1))
  {
    hide SampleTiming.Regular, OrderlyGOP, FMP4.Carried, FMP4.Built, ReadAs, FrameBack;
    var codec, samples, out := j.meta.codec, j.gop.samples, SamplesOf(read, j.meta);
    var full :| FMP4.Built(codec, samples, full) && ReadAs(codec, full, samples[0].timestamp, out);
    FragmentReadsInOrder(codec, samples, full, read, j.meta);
    SameLength(codec, samples, full, out);
    forall i: nat | i < |samples| ensures FrameBack(samples[i], out[i], i) {
      FrameReadsBack(codec, samples, full, out, i);
    }
    FirstFrame(codec, samples, full, out);
    LastFrame(samples, out, |samples| - 1);
  }

  lemma LastFrame(samples: seq<Sample>, out: seq<Sample>, n: nat)
    requires |out| == |samples| == n + 1 && FrameBack(samples[n], out[n], n)
    ensures samples[n].timestamp.ns - out[n].timestamp.ns <= SampleTiming.LAG_PER_SAMPLE * n
  {
  }

  /** The key frame comes back first, at the very start. */
  lemma FirstFrame(codec: Codec, samples: seq<Sample>, full: seq<FMP4.FullSample>, out: seq<Sample>)
    requires FMP4.Built(codec, samples, full) && ReadAs(codec, full, samples[0].timestamp, out) && samples[0].isKey
    ensures out != [] && out[0].isKey && out[0].frameType == I && out[0].timestamp.ns == samples[0].timestamp.ns
  {
    hide FMP4.Decodable, SampleCodec.Decoded;
    assert full[0].sync == samples[0].isKey;
    SampleTiming.NanosecondsExact(0);
  }

  lemma SameLength(codec: Codec, samples: seq<Sample>, full: seq<FMP4.FullSample>, out: seq<Sample>)
    requires FMP4.Built(codec, samples, full) && ReadAs(codec, full, samples[0].timestamp, out)
    ensures |out| == |samples|
  {
  }

  lemma FrameReadsBack(codec: Codec, samples: seq<Sample>, full: seq<FMP4.FullSample>, out: seq<Sample>, i: nat)
    requires FMP4.Built(codec, samples, full) && ReadAs(codec, full, samples[0].timestamp, out) && i < |samples|
    requires SampleTiming.Regular(FMP4.Timestamps(samples)) && forall s :: s in samples ==> FMP4.Carried(codec, s.units)
    requires samples[i].codec == codec
    ensures |out| == |samples| && FrameBack(samples[i], out[i], i)
  {
    hide SampleTiming.Regular, FMP4.Carried, FMP4.Decodable, FMP4.SampleAt;
    FMP4.FragmentRoundTrip(codec, samples, full, i);
  }

  // ---------------------------------------------------------------------------
  // Recorded, then played
  // ---------------------------------------------------------------------------

  /** Frames written at instants the index can hold, with one offset. */
  ghost predicate FramesAt(p: seq<Piece>, w: int) {
    forall s :: Frame(s) in p ==> IsInstant(s.timestamp.ns) && s.timestamp.offset == w
  }

  /** The jobs of a stopped run: one per GOP of the recorded stream, in order. */
  lemma JobsOfRun(site: Site, calls: seq<R.Call>, w: int)
    requires (forall c :: c in calls ==> R.Smooth(c)) && !R.IsOn(calls)
    requires StrictFrames(R.Pieces(calls)) && FramesAt(R.Pieces(calls), w)
    ensures var jobs := R.Run(site, calls).jobs;
            && R.Submitted(jobs) == Segments(R.Pieces(calls)) && OrderedGOPs(R.Submitted(jobs))
            && Ascending(MetasOf(jobs))
            && (forall i, j :: 0 <= i < j < |jobs| ==> jobs[i].meta.end.ns <= jobs[j].meta.start.ns)
            && forall j :: j in jobs ==> R.Describes(site, j) && WrittenAt(j.meta, w)
  {
    var p, jobs := R.Pieces(calls), R.Run(site, calls).jobs;
    R.RunRefines(site, calls);
    R.StoppedRunComplete(site, calls);
    SegmentsOrdered(p);
    SegmentFrames(p);
    var gs := R.Submitted(jobs);
    forall j | j in jobs ensures WrittenAt(j.meta, w) {
      var i :| 0 <= i < |jobs| && jobs[i] == j;
      assert gs[i] in gs && j.gop.samples[0] in gs[i];
    }
    forall i, j | 0 <= i < j < |jobs|
      ensures jobs[i].meta.end.ns <= jobs[j].meta.start.ns && jobs[i].meta.start.ns < jobs[j].meta.start.ns
    {
      assert jobs[i] in jobs && jobs[j] in jobs;
      var a, b := jobs[i].gop.samples, jobs[j].gop.samples;
      assert a == gs[i] && b == gs[j];
      assert a[0] in gs[i] && a[|a| - 1] in gs[i] && b[0] in gs[j];
    }
  }

  // ---------------------------------------------------------------------------
  // What the write queue indexes
  // ---------------------------------------------------------------------------

  /** The write jobs of one camera among those of a queue, in order. */
  function OfCamera(jobs: seq<W.Job>, camera: Bytes): seq<WriteJob> {
    if jobs == [] then [] else
      var n := |jobs| - 1;
      var before := OfCamera(jobs[..n], camera);
      if jobs[n].write.camera == camera then before + [jobs[n].write] else before
  }

  lemma {:induction false} CameraMembers(jobs: seq<W.Job>, camera: Bytes)
    ensures forall j :: j in OfCamera(jobs, camera) <==> j.camera == camera && exists x :: x in jobs && x.write == j
  {
    if jobs != [] {
      var n := |jobs| - 1;
      CameraMembers(jobs[..n], camera);
      assert jobs == jobs[..n] + [jobs[n]];
    }
  }

  /** The batches that the queue has indexed, as calls of the index. */
  function OpsOf(batches: seq<seq<W.Job>>): (ops: seq<Op>)
    ensures |ops| == |batches| && forall i :: 0 <= i < |ops| ==> ops[i] == Batch(W.ItemsOf(batches[i]), true)
  {
    seq(|batches|, i requires 0 <= i < |batches| => Batch(W.ItemsOf(batches[i]), true))
  }

  lemma {:induction false} FlatMembers(batches: seq<seq<W.Job>>)
    ensures forall x :: x in W.Flat(batches) <==> exists b :: b in batches && x in b
  {
    if batches != [] {
      var n := |batches| - 1;
      FlatMembers(batches[..n]);
      assert batches == batches[..n] + [batches[n]];
      forall x ensures x in W.Flat(batches) <==> exists b :: b in batches && x in b {
        if x in batches[n] {
          assert batches[n] in batches;
        }
      }
    }
  }

  /** Once a queue has been closed without a failed batch, its indexed batches hold exactly
      the submitted jobs. */
  lemma ClosedQueue(capacity: nat, workers: nat, steps: seq<W.Step>)
    requires W.Run(W.New(capacity, workers), steps).Some? && workers > 0
    requires var s := W.Run(W.New(capacity, workers), steps).value; WriterSafety.CloseReturned(s) && s.failed == []
    ensures var s := W.Run(W.New(capacity, workers), steps).value;
            forall x :: x in s.submitted <==> exists b :: b in s.indexed && x in b
  {
    hide W.Run, WriterSafety.CloseReturned;
    var s := W.Run(W.New(capacity, workers), steps).value;
    WriterSafety.CloseDrains(capacity, workers, steps);
    FlatMembers(s.indexed);
    forall x ensures x in s.submitted <==> x in W.Flat(s.indexed) {
      assert x in s.submitted <==> x in multiset(s.submitted);
    }
  }

  /** So they index the jobs of every camera, each stored before. */
  lemma QueueIndexes(capacity: nat, workers: nat, steps: seq<W.Step>, camera: Bytes)
    requires W.Run(W.New(capacity, workers), steps).Some? && workers > 0
    requires var s := W.Run(W.New(capacity, workers), steps).value;
             && WriterSafety.CloseReturned(s) && s.failed == []
             && forall x :: x in s.submitted ==> x.write.camera != []
    ensures var s := W.Run(W.New(capacity, workers), steps).value;
            && Indexes(OpsOf(s.indexed), OfCamera(s.submitted, camera), camera)
            && forall j :: j in OfCamera(s.submitted, camera) ==> j.meta.objectKey in s.stored
  {
    hide W.Run, WriterSafety.CloseReturned, W.JobStored, OfCamera;
    var s := W.Run(W.New(capacity, workers), steps).value;
    var ops, jobs := OpsOf(s.indexed), OfCamera(s.submitted, camera);
    ClosedQueue(capacity, workers, steps);
    CameraMembers(s.submitted, camera);
    forall op | op in ops
      ensures op.Batch? && op.commit && Named(op.items)
      ensures forall item :: item in op.items && item.camera == camera ==> IsJobItem(jobs, item)
    {
      var i :| 0 <= i < |ops| && ops[i] == op;
      BatchOf(s.indexed[i], s.submitted, jobs, camera);
    }
    forall j | j in jobs
      ensures exists op :: op in ops && op.Batch? && ItemOf(j) in op.items
      ensures j.meta.objectKey in s.stored
    {
      var x :| x in s.submitted && x.write == j;
      var b :| b in s.indexed && x in b;
      OpOfBatch(s.indexed, b, x);
      WriterSafety.IndexedWasStored(capacity, workers, steps, b, x);
      StoredKey(x, s.stored);
    }
  }

  lemma OpOfBatch(batches: seq<seq<W.Job>>, b: seq<W.Job>, x: W.Job)
    requires b in batches && x in b
    ensures exists op :: op in OpsOf(batches) && op.Batch? && ItemOf(x.write) in op.items
  {
    var i :| 0 <= i < |batches| && batches[i] == b;
    var k :| 0 <= k < |b| && b[k] == x;
    assert OpsOf(batches)[i] in OpsOf(batches) && W.ItemsOf(b)[k] == ItemOf(x.write);
  }

  lemma StoredKey(x: W.Job, stored: set<Bytes>)
    requires W.JobStored(x, stored)
    ensures x.write.meta.objectKey in stored
  {
  }

  lemma BatchOf(b: seq<W.Job>, submitted: seq<W.Job>, jobs: seq<WriteJob>, camera: Bytes)
    requires forall x :: x in b ==> x in submitted && x.write.camera != []
    requires forall j :: j in jobs <==> j.camera == camera && exists x :: x in submitted && x.write == j
    ensures Named(W.ItemsOf(b))
    ensures forall item :: item in W.ItemsOf(b) && item.camera == camera ==> IsJobItem(jobs, item)
  {
    forall item | item in W.ItemsOf(b) ensures item.camera != [] && (item.camera == camera ==> IsJobItem(jobs, item)) {
      var k :| 0 <= k < |b| && W.ItemsOf(b)[k] == item;
      assert b[k] in b && item == ItemOf(b[k].write);
    }
  }

  // ---------------------------------------------------------------------------
  // Recorded, queued, indexed, played
  // ---------------------------------------------------------------------------

  /** What a closed queue has been given: jobs of named cameras, written with one offset. */
  ghost predicate QueueOk(s: W.Writer, w: int) {
    WriterSafety.CloseReturned(s) && s.failed == []
    && forall x :: x in s.submitted ==> x.write.camera != [] && WrittenAt(x.write.meta, w)
  }

  /** The jobs of a smooth run that went through a closed queue, their fragments kept, are
      played as they were recorded. */
  lemma QueuedThenPlayed(site: Site, calls: seq<R.Call>, capacity: nat, workers: nat, steps: seq<W.Step>, w: int,
                         read: Reader, start: Time, end: Option<Time>, scale: real)
    requires (forall c :: c in calls ==> R.Smooth(c)) && !R.IsOn(calls)
    requires StrictFrames(R.Pieces(calls)) && FramesAt(R.Pieces(calls), w) && IsOffset(w)
    requires W.Run(W.New(capacity, workers), steps).Some? && workers > 0
    requires var s, jobs := W.Run(W.New(capacity, workers), steps).value, R.Run(site, calls).jobs;
             && QueueOk(s, w) && OfCamera(s.submitted, site.camera) == jobs
             && forall j :: j in jobs ==> !ReachesOver(j.meta, start) && (j.meta.objectKey in s.stored ==> Archived(read, j))
    requires RangeOk(WindowStart(start), WindowEnd(start, end), w)
    ensures var jobs, gs := R.Run(site, calls).jobs, Segments(R.Pieces(calls));
            var ops := OpsOf(W.Run(W.New(capacity, workers), steps).value.indexed);
            var listed := Query(Run(EMPTY, ops), site.camera, WindowStart(start), WindowEnd(start, end));
            && |jobs| == |gs| && (forall i :: 0 <= i < |gs| ==> ReadsBack(gs[i], SamplesOf(read, jobs[i].meta)))
            && Orderly(listed, read) && Reached(listed, read, start, end) == |listed|
            && (Expected(listed, read, start, end, scale) == Expected(MetasOf(jobs), read, start, end, scale)
                <==> forall j :: j in jobs ==> StartsInTime(j.meta, start, end))
  {
    hide Expected, OrderlyGOP, Query, R.Describes, WindowStart, WindowEnd, ReadsBack, Archived, Indexes, R.Run, W.Run,
         OfCamera, KeyFirst, ReachesOver, StartsInTime, StrictFrames, FramesAt, IsCatalogue, IsListing, OpOk;
    var s, jobs := W.Run(W.New(capacity, workers), steps).value, R.Run(site, calls).jobs;
    var ops, all := OpsOf(s.indexed), MetasOf(jobs);
    JobsOfRun(site, calls, w);
    CamerasOf(site, jobs);
    QueueIndexes(capacity, workers, steps, site.camera);
    OpsOk(capacity, workers, steps, w);
    QueryAfterRun(ops, w, site.camera, WindowStart(start), WindowEnd(start, end));
    JobsAreCatalogue(ops, jobs, site.camera);
    forall i: nat | i < |jobs|
      ensures OrderlyGOP(read, all[i]) && !ReachesOver(all[i], start) && KeyFirst(read, all[i])
      ensures ReadsBack(jobs[i].gop.samples, SamplesOf(read, all[i]))
    {
      assert jobs[i] in jobs;
      ArchivedReadsBack(site, read, jobs[i]);
    }
    PlaybackExact(Query(Run(EMPTY, ops), site.camera, WindowStart(start), WindowEnd(start, end)),
                  all, RunTable(map[], ops), site.camera, read, start, end, scale);
    WindowOfJobs(jobs, start, end);
    NoneMissing(Query(Run(EMPTY, ops), site.camera, WindowStart(start), WindowEnd(start, end)), all, read, start, end);
  }

  lemma NoneMissing(listed: seq<GOPMeta>, all: seq<GOPMeta>, read: Reader, start: Time, end: Option<Time>)
    requires (forall m :: m in listed ==> m in all) && forall i :: 0 <= i < |all| ==> KeyFirst(read, all[i])
    ensures Reached(listed, read, start, end) == |listed|
  {
    AllReached(listed, read, start, end);
  }

  lemma WindowOfJobs(jobs: seq<WriteJob>, start: Time, end: Option<Time>)
    ensures (forall m :: m in MetasOf(jobs) ==> StartsInTime(m, start, end))
       <==> (forall j :: j in jobs ==> StartsInTime(j.meta, start, end))
  {
    hide StartsInTime;
    forall j | j in jobs ensures j.meta in MetasOf(jobs) {
      var i :| 0 <= i < |jobs| && jobs[i] == j;
      assert MetasOf(jobs)[i] == j.meta;
    }
  }

  lemma CamerasOf(site: Site, jobs: seq<WriteJob>)
    requires forall j :: j in jobs ==> R.Describes(site, j)
    ensures forall j :: j in jobs ==> j.camera == site.camera
  {
  }

  lemma OpsOk(capacity: nat, workers: nat, steps: seq<W.Step>, w: int)
    requires W.Run(W.New(capacity, workers), steps).Some? && workers > 0
    requires QueueOk(W.Run(W.New(capacity, workers), steps).value, w)
    ensures forall op :: op in OpsOf(W.Run(W.New(capacity, workers), steps).value.indexed) ==> OpOk(op, w)
  {
    hide W.Run, WriterSafety.CloseReturned;
    var s := W.Run(W.New(capacity, workers), steps).value;
    ClosedQueue(capacity, workers, steps);
    forall op | op in OpsOf(s.indexed) ensures OpOk(op, w) {
      var i :| 0 <= i < |s.indexed| && OpsOf(s.indexed)[i] == op;
      forall item | item in W.ItemsOf(s.indexed[i]) ensures WrittenAt(item.meta, w) {
        var k :| 0 <= k < |s.indexed[i]| && W.ItemsOf(s.indexed[i])[k] == item;
        assert s.indexed[i][k] in s.indexed[i] && s.indexed[i] in s.indexed;
        assert s.indexed[i][k] in s.submitted;
      }
    }
  }

  // ---------------------------------------------------------------------------
  // Through the hybrid store
  // ---------------------------------------------------------------------------

  /** The bytes of a job's fragment, and what the reader decodes bytes to. */
  datatype Format = Format(encode: WriteJob -> Bytes, decode: Bytes -> Option<seq<Sample>>)

  /** The bytes of a job decode to the samples of a fragment that was built from its regular,
      transportable frames. */
  ghost predicate Faithful(format: Format, j: WriteJob) {
    var codec, samples, out := j.meta.codec, j.gop.samples, format.decode(format.encode(j));
    && SampleTiming.Regular(FMP4.Timestamps(samples))
    && (forall s :: s in samples ==> FMP4.Carried(codec, s.units))
    && out.Some?
    && exists full :: FMP4.Built(codec, samples, full) && ReadAs(codec, full, samples[0].timestamp, out.value)
  }

  /** A reader decodes the bytes of the file that the cache or the filer names for the key. */
  ghost predicate ReadsFrom(read: Reader, t: H.Store, format: Format) {
    forall k :: k in t.filer ==> exists e :: HybridReads.ServedBy(t, k, e) && DecodesFile(read, t, format, k, e)
  }

  ghost predicate DecodesFile(read: Reader, t: H.Store, format: Format, k: Bytes, e: H.Entry) {
    e.Own? ==> forall data :: HybridReads.FileHolds(t, e.meta.fileId, data) ==> read(k) == format.decode(data)
  }

  /** The job's key has only been put with its fragment, and the entry has been registered, by
      a Put or by the compensation worker, and not by the fallback. */
  ghost predicate Registered(store: seq<H.Step>, t: H.Store, format: Format, j: WriteJob) {
    var k := j.meta.objectKey;
    && HybridReads.OnlyPut(store, k, format.encode(j))
    && k in t.filer && forall e :: HybridReads.ServedBy(t, k, e) ==> e.Own?
  }

  /** What the store has registered is archived: whatever the interleaving of its Puts, lookups
      and worker has been, it reads back as the fragment of the job. */
  lemma RegisteredIsArchived(md5: Bytes -> Bytes, store: seq<H.Step>, read: Reader, format: Format, j: WriteJob)
    requires H.Run(md5, store).Some? && HybridReads.UniqueIds(md5, store)
    requires ReadsFrom(read, H.Run(md5, store).value, format)
    requires Registered(store, H.Run(md5, store).value, format, j) && Faithful(format, j)
    ensures Archived(read, j)
  {
    hide H.Run, HybridReads.UniqueIds, HybridReads.OnlyPut, HybridReads.FileHolds, SampleTiming.Regular, FMP4.Carried, ReadAs;
    var t, k := H.Run(md5, store).value, j.meta.objectKey;
    var e :| HybridReads.ServedBy(t, k, e) && DecodesFile(read, t, format, k, e);
    HybridReads.ReadsBackBytes(md5, store, k, e, format.encode(j));
    assert read(k) == format.decode(format.encode(j));
  }

  /** Samples recorded by a smooth run go through a write queue, with those of any other
      cameras and in any interleaving of its workers, into the hybrid store, in any
      interleaving with its compensation worker and readers, and every key that the queue has
      stored has been registered. Then every GOP of the recorded stream reads back frame by
      frame, and a playback of what a query lists sends exactly the wanted frames of all these
      GOPs, in order, if and only if it has an end or they start within a day. */
  lemma RecordedThenPlayed(site: Site, calls: seq<R.Call>, capacity: nat, workers: nat, steps: seq<W.Step>, w: int,
                           md5: Bytes -> Bytes, store: seq<H.Step>, format: Format,
                           read: Reader, start: Time, end: Option<Time>, scale: real)
    requires (forall c :: c in calls ==> R.Smooth(c)) && !R.IsOn(calls)
    requires StrictFrames(R.Pieces(calls)) && FramesAt(R.Pieces(calls), w) && IsOffset(w)
    requires W.Run(W.New(capacity, workers), steps).Some? && workers > 0
    requires H.Run(md5, store).Some? && HybridReads.UniqueIds(md5, store)
    requires ReadsFrom(read, H.Run(md5, store).value, format)
    requires var s, jobs := W.Run(W.New(capacity, workers), steps).value, R.Run(site, calls).jobs;
             && QueueOk(s, w) && OfCamera(s.submitted, site.camera) == jobs
             && forall j :: j in jobs ==>
                  && !ReachesOver(j.meta, start) && Faithful(format, j)
                  && (j.meta.objectKey in s.stored ==> Registered(store, H.Run(md5, store).value, format, j))
    requires RangeOk(WindowStart(start), WindowEnd(start, end), w)
    ensures var jobs, gs := R.Run(site, calls).jobs, Segments(R.Pieces(calls));
            var ops := OpsOf(W.Run(W.New(capacity, workers), steps).value.indexed);
            var listed := Query(Run(EMPTY, ops), site.camera, WindowStart(start), WindowEnd(start, end));
            && |jobs| == |gs| && (forall i :: 0 <= i < |gs| ==> ReadsBack(gs[i], SamplesOf(read, jobs[i].meta)))
            && Orderly(listed, read) && Reached(listed, read, start, end) == |listed|
            && (Expected(listed, read, start, end, scale) == Expected(MetasOf(jobs), read, start, end, scale)
                <==> forall j :: j in jobs ==> StartsInTime(j.meta, start, end))
  {
    hide H.Run, W.Run, R.Run, HybridReads.UniqueIds, ReadsFrom, Registered, Faithful, Archived, QueueOk, OfCamera, Expected,
         Query, WindowStart, WindowEnd, ReachesOver, StrictFrames, FramesAt, ReadsBack, Orderly, StartsInTime;
    var jobs := R.Run(site, calls).jobs;
    forall j | j in jobs && j.meta.objectKey in W.Run(W.New(capacity, workers), steps).value.stored ensures Archived(read, j) {
      RegisteredIsArchived(md5, store, read, format, j);
    }
    QueuedThenPlayed(site, calls, capacity, workers, steps, w, read, start, end, scale);
  }

  // ---------------------------------------------------------------------------
  // Retention of what was recorded
  // ---------------------------------------------------------------------------

  /** The table of one recorder's jobs has the separate keys that the retention relies on. */
  lemma RecordedKeysSeparate(site: Site, calls: seq<R.Call>, m: Table)
    requires forall id :: id in m ==> FromJob(R.Run(site, calls).jobs, id, m[id])
    ensures Retention.KeysSeparate(m)
  {
    hide R.Run;
    var jobs := R.Run(site, calls).jobs;
    forall a, b | a in m && b in m
      ensures m[a].objectKey == m[b].objectKey ==> a == b
      ensures m[a].objectKey != m[b].initKey
    {
      var i :| 0 <= i < |jobs| && a == IdOf(jobs[i]) && m[a] == jobs[i].meta;
      var j :| 0 <= j < |jobs| && b == IdOf(jobs[j]) && m[b] == jobs[j].meta;
      InitSegments.FragmentKeysDistinct(site, calls, i, j);
    }
  }
}
