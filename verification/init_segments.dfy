/** The init segment of a coding is submitted once, with the first GOP that needs it, and
    every later job of the coding refers to it by key. A flush that fails spends both the
    sequence number and the init segment that waits. */
module InitSegments {
  import opened Common
  import opened Samples
  import opened Segmentation
  import opened ObjectKeys
  import opened StreamRecorder
  import opened RecorderRefinement

  /** The key of an init segment that was built when the sequence number was n. */
  ghost predicate InitKeyAt(site: Site, key: Bytes, n: nat) {
    exists ts :: key == BuildObjectKey(site.dir(ts), ts, n, INIT_SUFFIX)
  }

  lemma SameInitKey(site: Site, key: Bytes, m: nat, n: nat)
    requires InitKeyAt(site, key, m) && InitKeyAt(site, key, n)
    ensures m == n
  {
    hide BuildObjectKey;
    var ts :| key == BuildObjectKey(site.dir(ts), ts, m, INIT_SUFFIX);
    var ts' :| key == BuildObjectKey(site.dir(ts'), ts', n, INIT_SUFFIX);
    SequenceOfKey(site.dir(ts), ts, m, site.dir(ts'), ts', n, INIT_SUFFIX);
  }

  // ---------------------------------------------------------------------------
  // Fragment keys, over every run
  // ---------------------------------------------------------------------------

  ghost predicate Increasing(num: seq<nat>, bound: nat) {
    && (forall i, j :: 0 <= i < j < |num| ==> num[i] < num[j])
    && (forall j :: 0 <= j < |num| ==> num[j] < bound)
  }

  ghost predicate InitKeyOrNone(site: Site, key: Bytes) {
    key == [] || exists n :: InitKeyAt(site, key, n)
  }

  ghost predicate NumberedJob(site: Site, job: WriteJob, num: nat) {
    && job.meta.objectKey == BuildObjectKey(site.dir(job.meta.start), job.meta.start, num, FRAGMENT_SUFFIX)
    && InitKeyOrNone(site, job.meta.initKey)
  }

  /** `num[j]` is the sequence number of job j; numbers only grow, and failed flushes leave
      gaps between them. */
  ghost predicate Numbered(site: Site, r: Rec, num: seq<nat>) {
    && |num| == |r.jobs| && Increasing(num, r.sequence)
    && InitKeyOrNone(site, r.initPath)
    && forall j :: 0 <= j < |r.jobs| ==> NumberedJob(site, r.jobs[j], num[j])
  }

  lemma FlushNumbered(site: Site, r: Rec, num: seq<nat>, env: Env) returns (num': seq<nat>)
    requires Numbered(site, r, num)
    ensures Numbered(site, AfterFlush(site, r, env), num')
  {
    hide BuildObjectKey, InitKeyOrNone;
    num' := if FlushResultOf(r, env) == Flushed then num + [r.sequence] else num;
    assert FlushResultOf(r, env) == Flushed ==>
        NumberedJob(site, JobOf(site, r, r.builder.value, env.fragment.value), r.sequence);
  }

  lemma RebuildNumbered(site: Site, r: Rec, num: seq<nat>, s: Sample, env: Env)
    requires Numbered(site, r, num)
    ensures Numbered(site, AfterRebuild(site, r, s, env), num)
  {
    hide BuildObjectKey, NumberedJob;
    if env.initOk {
      assert InitKeyAt(site, AfterRebuild(site, r, s, env).initPath, r.sequence);
    }
  }

  lemma AddNumbered(site: Site, r: Rec, num: seq<nat>, s: Sample, env: Env) returns (num': seq<nat>)
    requires Numbered(site, r, num)
    ensures Numbered(site, AfterAdd(site, r, s, env), num')
  {
    hide NumberedJob, InitKeyOrNone, AfterFlush, FlushResultOf;
    num' := num;
    if MustFlush(r.asm, s) {
      num' := FlushNumbered(site, r, num, env);
    }
  }

  lemma SampleNumbered(site: Site, r: Rec, num: seq<nat>, s: Sample, dropped: bool, env: Env) returns (num': seq<nat>)
    requires Numbered(site, r, num)
    ensures Numbered(site, AfterSample(site, r, s, dropped, env), num')
  {
    hide NumberedJob, InitKeyOrNone, AfterFlush, FlushResultOf, AfterAdd, AfterRebuild;
    num' := num;
    if !Ignored(r, s, dropped) {
      var r1 := if r.state.WaitingKeyFrame? then r.(state := Recording) else r;
      if NeedsRebuild(r1, s) {
        num' := FlushNumbered(site, r1, num, env);
        var r2 := AfterFlush(site, r1, env);
        if FlushResultOf(r1, env) != Failed {
          RebuildNumbered(site, r2, num', s, env);
          if env.initOk {
            num' := AddNumbered(site, AfterRebuild(site, r2, s, env), num', s, env);
          }
        }
      } else {
        num' := AddNumbered(site, r1, num, s, env);
      }
    }
  }

  lemma {:induction false} RunNumbered(site: Site, calls: seq<Call>) returns (num: seq<nat>)
    ensures Numbered(site, Run(site, calls), num)
  {
    hide NumberedJob, InitKeyOrNone, AfterFlush, AfterSample;
    if calls == [] {
      num := [];
      NothingNumbered(site);
    } else {
      var m := |calls| - 1;
      var r := Run(site, calls[..m]);
      num := RunNumbered(site, calls[..m]);
      match calls[m]
      case StartCall =>
      case StopCall(env) =>
        if r.state != Idle {
          num := FlushNumbered(site, r.(state := Stopping), num, env);
        }
      case SampleCall(s, dropped, env) =>
        num := SampleNumbered(site, r, num, s, dropped, env);
    }
  }

  lemma NothingNumbered(site: Site)
    ensures Numbered(site, NEW, [])
  {
  }

  /** In every run, failures included, the fragments of one recorder have distinct keys,
      none of them an init key. */
  lemma FragmentKeysDistinct(site: Site, calls: seq<Call>, i: nat, j: nat)
    requires i < |Run(site, calls).jobs| && j < |Run(site, calls).jobs|
    ensures var jobs := Run(site, calls).jobs;
            && (i != j ==> jobs[i].meta.objectKey != jobs[j].meta.objectKey)
            && jobs[i].meta.objectKey != jobs[j].meta.initKey
  {
    hide BuildObjectKey, Run;
    var num := RunNumbered(site, calls);
    var jobs := Run(site, calls).jobs;
    assert NumberedJob(site, jobs[i], num[i]) && NumberedJob(site, jobs[j], num[j]);
    var s, t := jobs[i].meta.start, jobs[j].meta.start;
    if jobs[i].meta.objectKey == jobs[j].meta.objectKey {
      SequenceOfKey(site.dir(s), s, num[i], site.dir(t), t, num[j], FRAGMENT_SUFFIX);
    }
    KeyNotEmpty(site.dir(s), s, num[i], FRAGMENT_SUFFIX);
    if jobs[j].meta.initKey != [] {
      var n :| InitKeyAt(site, jobs[j].meta.initKey, n);
      var ts :| jobs[j].meta.initKey == BuildObjectKey(site.dir(ts), ts, n, INIT_SUFFIX);
      SuffixesDiffer(site.dir(s), s, num[i], site.dir(ts), ts, n);
    }
  }

  lemma KeyNotEmpty(dir: Bytes, ts: Time, n: nat, suffix: Bytes)
    ensures BuildObjectKey(dir, ts, n, suffix) != []
  {
  }

  // ---------------------------------------------------------------------------
  // Where an init segment is lost
  // ---------------------------------------------------------------------------

  predicate CallFlushes(r: Rec, c: Call) {
    match c
    case StartCall => false
    case StopCall(_) => r.state != Idle
    case SampleCall(s, dropped, _) => SampleFlushes(r, s, dropped)
  }

  function ResultOf(r: Rec, c: Call): FlushResult {
    if c.StartCall? || !CallFlushes(r, c) then NoGOP else FlushResultOf(r, c.env)
  }

  /** The call's flush fails while an init segment waits for the next job. */
  predicate LosesInit(r: Rec, c: Call) {
    ResultOf(r, c) == Failed && r.initData.Some?
  }

  predicate Rebuilds(r: Rec, c: Call) {
    c.SampleCall? && !Ignored(r, c.sample, c.dropped) && NeedsRebuild(r, c.sample) && ResultOf(r, c) != Failed
  }

  /** The init segment of the present coding has been lost and not been built again. */
  function Orphaned(site: Site, calls: seq<Call>): bool {
    if calls == [] then false else
      var before, c := calls[..|calls| - 1], calls[|calls| - 1];
      var r := Run(site, before);
      if LosesInit(r, c) then true
      else if Rebuilds(r, c) then false
      else Orphaned(site, before)
  }

  /** No GOP is submitted between a failed flush that met a waiting init segment and the
      next rebuild. */
  ghost predicate NoneOrphaned(site: Site, calls: seq<Call>) {
    forall i :: 0 <= i < |calls| ==>
      !(Orphaned(site, calls[..i]) && ResultOf(Run(site, calls[..i]), calls[i]) == Flushed)
  }

  /** Every init segment that a call needs can be built. */
  predicate InitBuilds(c: Call) {
    c.SampleCall? ==> c.env.initOk
  }

  // ---------------------------------------------------------------------------
  // The account of init segments
  // ---------------------------------------------------------------------------

  /** `num` is the sequence number of the job, `at` the one its init segment was built at;
      the job with that very number carries it. */
  ghost predicate JobAt(site: Site, job: WriteJob, num: nat, at: nat) {
    && at <= num && InitKeyAt(site, job.meta.initKey, at)
    && job.initData == if at == num then Some(job.gop.coding) else None
  }

  ghost predicate SameInit(i: WriteJob, j: WriteJob) {
    i.meta.initKey == j.meta.initKey && i.gop.coding == j.gop.coding
  }

  ghost predicate JobsAt(site: Site, jobs: seq<WriteJob>, num: seq<nat>, at: seq<nat>) {
    && |num| == |at| == |jobs|
    && (forall j :: 0 <= j < |jobs| ==> JobAt(site, jobs[j], num[j], at[j]))
    && (forall i, j :: 0 <= i < |jobs| && 0 <= j < |jobs| && at[i] == at[j] ==> SameInit(jobs[i], jobs[j]))
    && (forall i, j :: 0 <= i < |jobs| && 0 <= j < |jobs| && num[i] == at[j] ==> at[i] == num[i])
  }

  /** The init segment of the present builder was built at n: it waits for the job of that
      number, or that job has carried it, or it is lost. */
  ghost predicate Present(site: Site, r: Rec, num: seq<nat>, at: seq<nat>, n: nat, orphaned: bool)
    requires |num| == |at| == |r.jobs|
  {
    && (r.builder.None? ==> r.initData == None && !orphaned)
    && (r.builder.Some? ==>
          && r.builder.value == r.current && n <= r.sequence && InitKeyAt(site, r.initPath, n)
          && r.initData == (if n == r.sequence then Some(r.current) else None)
          && (forall j :: 0 <= j < |r.jobs| && at[j] == n ==>
                r.jobs[j].meta.initKey == r.initPath && r.jobs[j].gop.coding == r.current)
          && (forall j :: 0 <= j < |r.jobs| && num[j] == n ==> at[j] == n)
          && (orphaned <==> n < r.sequence && n !in num))
  }

  ghost predicate Account(site: Site, r: Rec, num: seq<nat>, at: seq<nat>, n: nat, orphaned: bool) {
    && JobsAt(site, r.jobs, num, at) && Increasing(num, r.sequence)
    && Present(site, r, num, at, n, orphaned)
  }

  /** Every job's init segment is carried by the job that has its number. */
  ghost predicate AllCarried(num: seq<nat>, at: seq<nat>) {
    forall j :: 0 <= j < |at| ==> at[j] in num
  }

  lemma SubmitAccount(site: Site, r: Rec, num: seq<nat>, at: seq<nat>, n: nat, orphaned: bool, env: Env)
    requires Account(site, r, num, at, n, orphaned) && FlushResultOf(r, env) == Flushed
    ensures Account(site, AfterFlush(site, r, env), num + [r.sequence], at + [n], n, orphaned)
    ensures AllCarried(num + [r.sequence], at + [n]) <==> AllCarried(num, at) && !orphaned
  {
    hide BuildObjectKey, InitKeyAt;
    var num', at', f := num + [r.sequence], at + [n], AfterFlush(site, r, env);
    var job := JobOf(site, r, r.builder.value, env.fragment.value);
    assert f.jobs == r.jobs + [job];
    forall j | 0 <= j < |at| ensures at[j] in num' <==> at[j] in num {
      assert JobAt(site, r.jobs[j], num[j], at[j]);
    }
    assert at'[|at|] == n && (n in num' <==> n in num || n == r.sequence);
    assert AllCarried(num', at') <==> AllCarried(num, at) && n in num' by {
      CarriedAppend(num, at, num', n);
    }
    NewJob(site, r.jobs, job, num, at, r.sequence, n);
  }

  lemma CarriedAppend(num: seq<nat>, at: seq<nat>, num': seq<nat>, n: nat)
    requires forall j :: 0 <= j < |at| ==> (at[j] in num' <==> at[j] in num)
    ensures AllCarried(num', at + [n]) <==> AllCarried(num, at) && n in num'
  {
    var at' := at + [n];
    assert at'[|at|] == n && forall j :: 0 <= j < |at| ==> at'[j] == at[j];
    if AllCarried(num', at') {
      assert at'[|at|] in num';
      forall j | 0 <= j < |at| ensures at[j] in num {
        assert at'[j] in num';
      }
    }
  }

  lemma NewJob(site: Site, jobs: seq<WriteJob>, job: WriteJob, num: seq<nat>, at: seq<nat>, m: nat, n: nat)
    requires JobsAt(site, jobs, num, at) && Increasing(num, m) && JobAt(site, job, m, n)
    requires forall j :: 0 <= j < |jobs| && at[j] == n ==> SameInit(jobs[j], job)
    requires forall j :: 0 <= j < |jobs| && num[j] == n ==> at[j] == n
    ensures JobsAt(site, jobs + [job], num + [m], at + [n]) && Increasing(num + [m], m + 1)
  {
    hide InitKeyAt;
    var jobs', num', at' := jobs + [job], num + [m], at + [n];
    forall j | 0 <= j < |jobs'| ensures JobAt(site, jobs'[j], num'[j], at'[j]) {
      assert j < |jobs| ==> JobAt(site, jobs[j], num[j], at[j]);
    }
    hide JobAt;
  }

  lemma FailAccount(site: Site, r: Rec, num: seq<nat>, at: seq<nat>, n: nat, orphaned: bool, env: Env)
    requires Account(site, r, num, at, n, orphaned) && FlushResultOf(r, env) == Failed
    ensures Account(site, AfterFlush(site, r, env), num, at, n, orphaned || r.initData.Some?)
  {
    hide BuildObjectKey, InitKeyAt, JobsAt;
  }

  /** A flush, with what it does to the account. */
  lemma FlushAccount(site: Site, r: Rec, num: seq<nat>, at: seq<nat>, n: nat, orphaned: bool, env: Env)
    returns (num': seq<nat>, at': seq<nat>)
    requires Account(site, r, num, at, n, orphaned)
    ensures Account(site, AfterFlush(site, r, env), num', at', n,
                    orphaned || (FlushResultOf(r, env) == Failed && r.initData.Some?))
    ensures AllCarried(num', at') <==> AllCarried(num, at) && !(FlushResultOf(r, env) == Flushed && orphaned)
  {
    hide Account, AllCarried;
    num', at' := num, at;
    if FlushResultOf(r, env) == Flushed {
      num', at' := num + [r.sequence], at + [n];
      SubmitAccount(site, r, num, at, n, orphaned, env);
    } else if FlushResultOf(r, env) == Failed {
      FailAccount(site, r, num, at, n, orphaned, env);
    }
  }

  lemma RebuildAccount(site: Site, r: Rec, num: seq<nat>, at: seq<nat>, n: nat, orphaned: bool, s: Sample, env: Env)
    requires Account(site, r, num, at, n, orphaned) && env.initOk
    ensures Account(site, AfterRebuild(site, r, s, env), num, at, r.sequence, false)
  {
    hide BuildObjectKey;
    var b := AfterRebuild(site, r, s, env);
    assert InitKeyAt(site, b.initPath, r.sequence);
    forall j | 0 <= j < |r.jobs| ensures at[j] < r.sequence {
      assert JobAt(site, r.jobs[j], num[j], at[j]);
    }
    hide InitKeyAt, JobAt;
  }

  /** The account does not depend on the state and the buffer. */
  predicate SameAccount(r: Rec, r': Rec) {
    r' == r.(state := r'.state, asm := r'.asm)
  }

  lemma AccountFrame(site: Site, r: Rec, r': Rec, num: seq<nat>, at: seq<nat>, n: nat, orphaned: bool)
    requires Account(site, r, num, at, n, orphaned) && SameAccount(r, r')
    ensures Account(site, r', num, at, n, orphaned)
  {
    hide InitKeyAt, JobsAt;
  }

  /** Everything but the flush and the rebuild leaves the account alone, and after a rebuild
      the buffer is empty. */
  lemma SampleParts(site: Site, r: Rec, s: Sample, dropped: bool, env: Env)
    requires env.initOk
    ensures var r', c := AfterSample(site, r, s, dropped, env), SampleCall(s, dropped, env);
            && (!CallFlushes(r, c) ==> SameAccount(r, r') && !Rebuilds(r, c))
            && (CallFlushes(r, c) && !Rebuilds(r, c) ==> SameAccount(AfterFlush(site, r, env), r'))
            && (Rebuilds(r, c) ==> CallFlushes(r, c) && SameAccount(AfterRebuild(site, AfterFlush(site, r, env), s, env), r'))
  {
    hide BuildObjectKey;
    var r1 := if r.state.WaitingKeyFrame? then r.(state := Recording) else r;
    FlushFrame(site, r, r1, env);
  }

  /** What one call does to the account. */
  lemma CallAccount(site: Site, r: Rec, num: seq<nat>, at: seq<nat>, n: nat, orphaned: bool, c: Call)
    returns (num': seq<nat>, at': seq<nat>, n': nat)
    requires Account(site, r, num, at, n, orphaned) && InitBuilds(c)
    ensures Account(site, After(site, r, c), num', at', n',
                    if LosesInit(r, c) then true else if Rebuilds(r, c) then false else orphaned)
    ensures AllCarried(num', at') <==> AllCarried(num, at) && !(orphaned && ResultOf(r, c) == Flushed)
  {
    hide Account, AllCarried, AfterFlush, AfterRebuild, AfterSample, FlushResultOf;
    num', at', n' := num, at, n;
    if CallFlushes(r, c) {
      num', at' := FlushAccount(site, r, num, at, n, orphaned, c.env);
    }
    var kept := orphaned || LosesInit(r, c);
    match c
    case StartCall =>
      AccountFrame(site, r, After(site, r, c), num, at, n, orphaned);
    case StopCall(env) =>
      if r.state == Idle {
      } else {
        FlushFrame(site, r, r.(state := Stopping), env);
        AccountFrame(site, AfterFlush(site, r, env), After(site, r, c), num', at', n, kept);
      }
    case SampleCall(s, dropped, env) =>
      SampleParts(site, r, s, dropped, env);
      if Rebuilds(r, c) {
        n' := AfterFlush(site, r, env).sequence;
        RebuildAccount(site, AfterFlush(site, r, env), num', at', n, kept, s, env);
        AccountFrame(site, AfterRebuild(site, AfterFlush(site, r, env), s, env), After(site, r, c), num', at', n', false);
      } else if CallFlushes(r, c) {
        AccountFrame(site, AfterFlush(site, r, env), After(site, r, c), num', at', n, kept);
      } else {
        AccountFrame(site, r, After(site, r, c), num, at, n, orphaned);
      }
  }

  lemma {:induction false} RunAccount(site: Site, calls: seq<Call>) returns (num: seq<nat>, at: seq<nat>, n: nat)
    requires forall c :: c in calls ==> InitBuilds(c)
    ensures Account(site, Run(site, calls), num, at, n, Orphaned(site, calls))
    ensures AllCarried(num, at) <==> NoneOrphaned(site, calls)
  {
    hide Account, AllCarried, LosesInit, Rebuilds, ResultOf, After;
    if calls == [] {
      num, at, n := [], [], 0;
      NewAccount(site);
    } else {
      var m := |calls| - 1;
      assert calls[m] in calls;
      num, at, n := RunAccount(site, calls[..m]);
      num, at, n := CallAccount(site, Run(site, calls[..m]), num, at, n, Orphaned(site, calls[..m]), calls[m]);
      NoneOrphanedStep(site, calls);
    }
  }

  lemma NewAccount(site: Site)
    ensures Account(site, NEW, [], [], 0, false) && AllCarried([], [])
  {
  }

  lemma NoneOrphanedStep(site: Site, calls: seq<Call>)
    requires calls != []
    ensures var m := |calls| - 1;
            NoneOrphaned(site, calls) <==>
              && NoneOrphaned(site, calls[..m])
              && !(Orphaned(site, calls[..m]) && ResultOf(Run(site, calls[..m]), calls[m]) == Flushed)
  {
    hide Orphaned, ResultOf, Run;
    var m := |calls| - 1;
    assert forall i :: 0 <= i <= m ==> calls[..m][..i] == calls[..i];
  }

  // ---------------------------------------------------------------------------
  // The protocol
  // ---------------------------------------------------------------------------

  /** Job i carries the init segment that job j needs, under the key that job j names. */
  predicate Provides(i: WriteJob, j: WriteJob) {
    i.meta.initKey == j.meta.initKey && i.initData == Some(j.gop.coding)
  }

  /** Job j has its init segment with it or in a job before it. */
  ghost predicate Provided(jobs: seq<WriteJob>, j: nat)
    requires j < |jobs|
  {
    exists i :: 0 <= i <= j && Provides(jobs[i], jobs[j])
  }

  /** The carrier of a job, if there is one, is the only job that carries its init segment. */
  lemma CarrierOf(site: Site, jobs: seq<WriteJob>, num: seq<nat>, at: seq<nat>, bound: nat, j: nat)
    requires JobsAt(site, jobs, num, at) && Increasing(num, bound) && j < |jobs|
    ensures at[j] in num <==> Provided(jobs, j)
    ensures forall k :: 0 <= k < |jobs| && jobs[k].meta.initKey == jobs[j].meta.initKey && jobs[k].initData.Some? ==>
              num[k] == at[j]
  {
    hide InitKeyAt;
    assert JobAt(site, jobs[j], num[j], at[j]);
    forall k | 0 <= k < |jobs| && jobs[k].meta.initKey == jobs[j].meta.initKey && jobs[k].initData.Some?
      ensures num[k] == at[j]
    {
      assert JobAt(site, jobs[k], num[k], at[k]);
      SameInitKey(site, jobs[k].meta.initKey, at[k], at[j]);
    }
    if at[j] in num {
      var i :| 0 <= i < |num| && num[i] == at[j];
      assert JobAt(site, jobs[i], num[i], at[i]) && SameInit(jobs[i], jobs[j]);
      assert i <= j && Provides(jobs[i], jobs[j]);
    }
  }

  /** Over every run whose init segments can be built: each job has its init segment at or
      before it if and only if no GOP is submitted after a failed flush has spent a waiting
      init segment and before that is built again. */
  lemma InitTravelsExactly(site: Site, calls: seq<Call>)
    requires forall c :: c in calls ==> InitBuilds(c)
    ensures var jobs := Run(site, calls).jobs;
            (forall j :: 0 <= j < |jobs| ==> Provided(jobs, j)) <==> NoneOrphaned(site, calls)
  {
    hide Run, NoneOrphaned, JobsAt, Increasing, Provided, Present;
    var num, at, n := RunAccount(site, calls);
    var r := Run(site, calls);
    AccountSizes(site, r, num, at, n, Orphaned(site, calls));
    forall j: nat | j < |r.jobs| ensures at[j] in num <==> Provided(r.jobs, j) {
      CarrierOf(site, r.jobs, num, at, r.sequence, j);
    }
  }

  lemma AccountSizes(site: Site, r: Rec, num: seq<nat>, at: seq<nat>, n: nat, orphaned: bool)
    requires Account(site, r, num, at, n, orphaned)
    ensures |num| == |at| == |r.jobs|
  {
  }

  /** Then exactly one job carries it. */
  lemma InitTravelsOnce(site: Site, calls: seq<Call>, j: nat) returns (i: nat)
    requires (forall c :: c in calls ==> InitBuilds(c)) && NoneOrphaned(site, calls) && j < |Run(site, calls).jobs|
    ensures var jobs := Run(site, calls).jobs;
            && i <= j && Provides(jobs[i], jobs[j])
            && forall k :: 0 <= k < |jobs| && jobs[k].meta.initKey == jobs[j].meta.initKey && jobs[k].initData.Some? ==> k == i
  {
    hide Run, NoneOrphaned, JobAt, InitKeyAt;
    var num, at, n := RunAccount(site, calls);
    var r := Run(site, calls);
    CarrierOf(site, r.jobs, num, at, r.sequence, j);
    i :| 0 <= i <= j && Provides(r.jobs[i], r.jobs[j]);
  }

  /** A run in which no failing flush meets a waiting init segment orphans nothing. */
  lemma {:induction false} NoLossNoOrphan(site: Site, calls: seq<Call>)
    requires forall i :: 0 <= i < |calls| ==> !LosesInit(Run(site, calls[..i]), calls[i])
    ensures !Orphaned(site, calls) && NoneOrphaned(site, calls)
  {
    hide LosesInit, Rebuilds, ResultOf, Run;
    if calls != [] {
      var m := |calls| - 1;
      assert forall i :: 0 <= i <= m ==> calls[..m][..i] == calls[..i];
      assert calls[..m] == calls[..|calls| - 1];
      NoLossNoOrphan(site, calls[..m]);
      NoneOrphanedStep(site, calls);
    }
  }

  /** In particular a smooth run. */
  lemma SmoothNeverLoses(site: Site, calls: seq<Call>)
    requires forall c :: c in calls ==> Smooth(c)
    ensures (forall c :: c in calls ==> InitBuilds(c)) && NoneOrphaned(site, calls)
  {
    forall i | 0 <= i < |calls| ensures !LosesInit(Run(site, calls[..i]), calls[i]) {
      assert calls[i] in calls && forall c :: c in calls[..i] ==> c in calls;
      RunRefines(site, calls[..i]);
      SmoothFlush(Run(site, calls[..i]), calls[i]);
    }
    NoLossNoOrphan(site, calls);
  }

  lemma SmoothFlush(r: Rec, c: Call)
    requires BufferOk(r) && Smooth(c)
    ensures !LosesInit(r, c)
  {
  }

  /** Jobs that name the same init segment have the same codec and parameters, whatever
      flushes fail. */
  lemma SharedInitAgrees(site: Site, calls: seq<Call>, i: nat, j: nat)
    requires forall c :: c in calls ==> InitBuilds(c)
    requires i < |Run(site, calls).jobs| && j < |Run(site, calls).jobs|
    requires Run(site, calls).jobs[i].meta.initKey == Run(site, calls).jobs[j].meta.initKey
    ensures Run(site, calls).jobs[i].gop.coding == Run(site, calls).jobs[j].gop.coding
  {
    hide Run, InitKeyAt;
    var num, at, n := RunAccount(site, calls);
    var jobs := Run(site, calls).jobs;
    assert JobAt(site, jobs[i], num[i], at[i]) && JobAt(site, jobs[j], num[j], at[j]);
    SameInitKey(site, jobs[i].meta.initKey, at[i], at[j]);
    assert SameInit(jobs[i], jobs[j]);
  }

  // ---------------------------------------------------------------------------
  // The coding of a job, over every run
  // ---------------------------------------------------------------------------

  /** The builder is of another coding than the one the recorder takes frames of: building its
      init segment failed. */
  predicate Mixed(r: Rec) {
    r.builder.Some? && r.builder.value != r.current
  }

  /** The fragment was built for the coding of its frames. */
  predicate OwnCoding(j: WriteJob) {
    j.gop.samples != [] && j.gop.coding == CodingOf(j.gop.samples[0])
  }

  /** The buffered frames are a GOP of the current coding, whatever has failed. */
  ghost predicate FramesOk(r: Rec) {
    && (r.asm.hasKeyFrame <==> r.asm.samples != [])
    && (r.asm.samples != [] ==> IsGOP(r.asm.samples) && CodingOf(r.asm.samples[0]) == r.current)
  }

  /** All jobs describe their frames' codec, and are of their coding unless `mixed`. */
  ghost predicate JobsDescribe(jobs: seq<WriteJob>) {
    forall j :: j in jobs ==> IsGOP(j.gop.samples) && j.meta.codec == j.gop.samples[0].codec
  }

  ghost predicate AllOwn(jobs: seq<WriteJob>) {
    forall j :: j in jobs ==> OwnCoding(j)
  }

  lemma FlushFrames(site: Site, r: Rec, env: Env)
    requires FramesOk(r) && JobsDescribe(r.jobs)
    ensures var f := AfterFlush(site, r, env);
            && FramesOk(f) && f.current == r.current && (FlushResultOf(r, env) != NoGOP || r.asm.samples == [] ==> f.asm.samples == [])
            && JobsDescribe(f.jobs)
            && (AllOwn(f.jobs) <==> AllOwn(r.jobs) && !(Mixed(r) && FlushResultOf(r, env) == Flushed))
  {
    hide BuildObjectKey;
    if FlushResultOf(r, env) == Flushed {
      var job := JobOf(site, r, r.builder.value, env.fragment.value);
      assert OwnCoding(job) <==> !Mixed(r);
      OneMore(r.jobs, job);
    }
  }

  lemma OneMore(jobs: seq<WriteJob>, job: WriteJob)
    ensures AllOwn(jobs + [job]) <==> AllOwn(jobs) && OwnCoding(job)
    ensures JobsDescribe(jobs) && IsGOP(job.gop.samples) && job.meta.codec == job.gop.samples[0].codec ==> JobsDescribe(jobs + [job])
  {
    hide OwnCoding, IsGOP;
    assert job in jobs + [job] && forall j :: j in jobs ==> j in jobs + [job];
  }

  /** A frame of the current coding that the recorder takes. */
  lemma AddFrames(r: Rec, s: Sample)
    requires FramesOk(r) && CodingOf(s) == r.current && !MustFlush(r.asm, s)
    ensures FramesOk(r.(asm := Added(r.asm, s)))
  {
  }

  /** The call submits a GOP while the builder is of another coding than its frames. */
  predicate SubmitsMixed(r: Rec, c: Call) {
    Mixed(r) && ResultOf(r, c) == Flushed
  }

  lemma CallFrames(site: Site, r: Rec, c: Call)
    requires FramesOk(r) && JobsDescribe(r.jobs)
    ensures var t := After(site, r, c);
            && FramesOk(t) && JobsDescribe(t.jobs)
            && (AllOwn(t.jobs) <==> AllOwn(r.jobs) && !SubmitsMixed(r, c))
  {
    hide BuildObjectKey, AllOwn, JobsDescribe, IsGOP, AfterFlush, FlushResultOf, AfterAdd, AfterRebuild;
    match c
    case StartCall =>
    case StopCall(env) =>
      FlushFrame(site, r, r.(state := Stopping), env);
      FlushFrames(site, r, env);
    case SampleCall(s, dropped, env) =>
      if !Ignored(r, s, dropped) {
        var r1 := if r.state.WaitingKeyFrame? then r.(state := Recording) else r;
        FlushFrame(site, r, r1, env);
        FlushFrames(site, r1, env);
        if NeedsRebuild(r, s) {
          RebuiltFrames(site, r1, s, env);
        } else {
          AddedFrames(site, r1, s, env);
        }
      }
  }

  lemma AddedFrames(site: Site, r: Rec, s: Sample, env: Env)
    requires FramesOk(r) && CodingOf(s) == r.current
    requires FramesOk(AfterFlush(site, r, env)) && AfterFlush(site, r, env).current == r.current
    ensures var t := AfterAdd(site, r, s, env);
            && FramesOk(t) && t.jobs == (if MustFlush(r.asm, s) then AfterFlush(site, r, env).jobs else r.jobs)
  {
    hide AfterFlush, IsGOP;
    if !MustFlush(r.asm, s) {
      AddFrames(r, s);
    } else if FlushResultOf(r, env) == Flushed {
      FlushEmpties(site, r, s, env);
      AddFrames(AfterFlush(site, r, env), s);
    }
  }

  lemma RebuiltFrames(site: Site, r: Rec, s: Sample, env: Env)
    requires FramesOk(AfterFlush(site, r, env)) && FramesOk(r) && NeedsRebuild(r, s) && r.state == Recording
    requires FlushResultOf(r, env) != NoGOP || r.asm.samples == [] ==> AfterFlush(site, r, env).asm.samples == []
    ensures var t := AfterSample(site, r, s, false, env); FramesOk(t) && t.jobs == AfterFlush(site, r, env).jobs
  {
    hide BuildObjectKey, IsGOP;
    if FlushResultOf(r, env) != Failed {
      FlushEmpties(site, r, s, env);
      if FlushResultOf(r, env) == NoGOP {
        FlushNothing(r, env);
      }
      if env.initOk {
        AddFrames(AfterRebuild(site, AfterFlush(site, r, env), s, env), s);
      }
    }
  }

  lemma FlushNothing(r: Rec, env: Env)
    requires FramesOk(r) && FlushResultOf(r, env) == NoGOP
    ensures r.asm.samples == []
  {
  }

  /** Over every run, whatever fails: every job has been built for the coding of its frames if
      and only if no GOP has been submitted while the builder was of another one. */
  lemma {:induction false} OwnCodingExactly(site: Site, calls: seq<Call>)
    ensures var r := Run(site, calls); FramesOk(r) && JobsDescribe(r.jobs)
    ensures AllOwn(Run(site, calls).jobs) <==>
              forall i :: 0 <= i < |calls| ==> !SubmitsMixed(Run(site, calls[..i]), calls[i])
  {
    hide FramesOk, JobsDescribe, AllOwn, SubmitsMixed, After;
    if calls == [] {
      NothingMixed();
    } else {
      var m := |calls| - 1;
      assert forall i :: 0 <= i <= m ==> calls[..m][..i] == calls[..i];
      OwnCodingExactly(site, calls[..m]);
      CallFrames(site, Run(site, calls[..m]), calls[m]);
      hide Run;
    }
  }

  lemma NothingMixed()
    ensures FramesOk(NEW) && JobsDescribe(NEW.jobs) && AllOwn(NEW.jobs)
  {
  }

  // ---------------------------------------------------------------------------
  // A run that loses an init segment
  // ---------------------------------------------------------------------------

  /** The condition can fail: after a Submit that fails on the first GOP, the next one goes
      out without an init segment, and no job carries it. */
  lemma FailedSubmitLosesInit(site: Site, s: Sample, good: Env, bad: Env) returns (calls: seq<Call>)
    requires s.isKey && good.initOk && good.fragment.Some? && good.submitOk
    requires bad.fragment.Some? && !bad.submitOk
    ensures var jobs := Run(site, calls).jobs;
            |jobs| == 1 && jobs[0].initData == None && jobs[0].gop.coding == CodingOf(s)
  {
    hide Run, After;
    var taken, lost := SampleCall(s, false, good), SampleCall(s, false, bad);
    LastCall(site, [], StartCall);
    LastCall(site, [StartCall], taken);
    LastCall(site, [StartCall, taken], lost);
    LastCall(site, [StartCall, taken, lost], taken);
    LastCall(site, [StartCall, taken, lost, taken], taken);
    assert [] + [StartCall] == [StartCall] && [StartCall] + [taken] == [StartCall, taken];
    assert [StartCall, taken] + [lost] == [StartCall, taken, lost];
    assert [StartCall, taken, lost] + [taken] == [StartCall, taken, lost, taken];
    calls := [StartCall, taken, lost, taken] + [taken];
    Started(site);
    var r1, r2 := Run(site, [StartCall]), Run(site, [StartCall, taken]);
    var r3, r4 := Run(site, [StartCall, taken, lost]), Run(site, [StartCall, taken, lost, taken]);
    FirstKeyFrame(site, r1, s, good);
    NextKeyFrame(site, r2, s, bad);
    FirstKeyFrame(site, r3, s, good);
    NextKeyFrame(site, r4, s, good);
  }

  lemma Started(site: Site)
    ensures After(site, NEW, StartCall) == NEW.(state := WaitingKeyFrame)
  {
  }

  /** A key frame that meets an empty buffer. */
  lemma FirstKeyFrame(site: Site, r: Rec, s: Sample, env: Env)
    requires s.isKey && r.asm == EMPTY_GOP && (r.state == WaitingKeyFrame || r.state == Recording) && env.initOk
    ensures var t := After(site, r, SampleCall(s, false, env));
            && t.asm.samples == [s] && t.asm.hasKeyFrame && t.state == Recording && t.jobs == r.jobs
            && t.builder.Some? && t.current == CodingOf(s)
            && (NeedsRebuild(r, s) ==> t.builder == Some(CodingOf(s)))
            && (!NeedsRebuild(r, s) ==> t.builder == r.builder && t.initData == r.initData)
  {
    hide BuildObjectKey;
  }

  /** A key frame of the same coding that meets a buffered one. */
  lemma NextKeyFrame(site: Site, r: Rec, s: Sample, env: Env)
    requires s.isKey && r.asm.samples == [s] && r.asm.hasKeyFrame && r.state == Recording
    requires r.builder == Some(CodingOf(s)) && r.current == CodingOf(s) && env.fragment.Some?
    ensures var t := After(site, r, SampleCall(s, false, env));
            && t.initData == None && t.builder == r.builder && t.current == r.current && t.state == r.state
            && (!env.submitOk ==> t.asm == EMPTY_GOP && t.jobs == r.jobs)
            && (env.submitOk ==> |t.jobs| == |r.jobs| + 1 && t.jobs[|r.jobs|].initData == r.initData
                                 && t.jobs[|r.jobs|].gop.coding == CodingOf(s))
  {
    hide BuildObjectKey;
  }

  lemma LastCall(site: Site, calls: seq<Call>, c: Call)
    ensures Run(site, calls + [c]) == After(site, Run(site, calls), c)
    ensures Run(site, []) == NEW
  {
    hide After;
    assert (calls + [c])[..|calls|] == calls;
  }

  // ---------------------------------------------------------------------------
  // One init segment for a stretch of one coding
  // ---------------------------------------------------------------------------

  predicate OfCoding(c: Call, coding: Coding) {
    c.SampleCall? ==> CodingOf(c.sample) == coding
  }

  /** How a recorder goes on with one builder: the new jobs refer to its init segment, and only
      the first of them may carry it, if it was waiting. */
  ghost predicate Continues(r: Rec, t: Rec) {
    && t.builder == r.builder && t.current == r.current && t.initPath == r.initPath && r.jobs <= t.jobs
    && (t.initData.Some? ==> t.jobs == r.jobs && r.initData.Some?)
    && forall j :: |r.jobs| <= j < |t.jobs| ==>
         && t.jobs[j].meta.initKey == r.initPath && t.jobs[j].gop.coding == r.current
         && (t.jobs[j].initData.Some? ==> j == |r.jobs| && r.initData.Some?)
  }

  lemma FlushContinues(site: Site, r: Rec, env: Env)
    requires r.builder == Some(r.current)
    ensures Continues(r, AfterFlush(site, r, env))
  {
    hide BuildObjectKey;
  }

  lemma CallContinues(site: Site, r: Rec, c: Call)
    requires r.builder == Some(r.current) && OfCoding(c, r.current)
    ensures Continues(r, After(site, r, c))
  {
    hide AfterFlush, Continues;
    SameContinues(r, After(site, r, c));
    match c
    case StartCall =>
    case StopCall(env) =>
      var r1 := r.(state := Stopping);
      FlushContinues(site, r1, env);
      BufferIgnored(r, r1, AfterFlush(site, r1, env), After(site, r, c));
    case SampleCall(s, dropped, env) =>
      var r1 := if r.state.WaitingKeyFrame? then r.(state := Recording) else r;
      FlushContinues(site, r1, env);
      BufferIgnored(r, r1, AfterFlush(site, r1, env), After(site, r, c));
  }

  lemma SameContinues(r: Rec, t: Rec)
    ensures t == r.(state := t.state, asm := t.asm) ==> Continues(r, t)
  {
  }

  /** State and buffer do not matter for this. */
  lemma BufferIgnored(r: Rec, r1: Rec, t1: Rec, t: Rec)
    requires Continues(r1, t1) && r1 == r.(state := r1.state)
    ensures t == t1.(state := t.state, asm := t.asm) ==> Continues(r, t)
  {
  }

  lemma ContinuesOn(r: Rec, s: Rec, t: Rec)
    requires Continues(r, s) && Continues(s, t)
    ensures Continues(r, t)
  {
    assert forall j :: |r.jobs| <= j < |s.jobs| ==> t.jobs[j] == s.jobs[j];
  }

  /** Over every run, failures, stops and starts included: as long as all frames have the
      recorder's coding, it keeps its builder, every GOP is submitted for that coding under the
      same init key, and at most the first of them brings the init segment. */
  lemma {:induction false} OneInitPerStretch(site: Site, calls: seq<Call>, more: seq<Call>)
    requires var r := Run(site, calls); r.builder == Some(r.current) && forall c :: c in more ==> OfCoding(c, r.current)
    ensures Continues(Run(site, calls), Run(site, calls + more))
  {
    hide After, Continues;
    var r := Run(site, calls);
    if more == [] {
      assert calls + more == calls;
      SameContinues(r, r);
    } else {
      var n := |more| - 1;
      assert (calls + more)[..|calls| + n] == calls + more[..n] && (calls + more)[|calls| + n] == more[n];
      OneInitPerStretch(site, calls, more[..n]);
      var s := Run(site, calls + more[..n]);
      assert s.builder == r.builder && s.current == r.current by {
        BuilderKept(r, s);
      }
      CallContinues(site, s, more[n]);
      ContinuesOn(r, s, After(site, s, more[n]));
    }
  }

  lemma BuilderKept(r: Rec, s: Rec)
    requires Continues(r, s)
    ensures s.builder == r.builder && s.current == r.current
  {
  }
}
