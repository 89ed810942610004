/** What a recorder keeps over every run of Start, Stop and ProcessSample in which the
    writer, the fragment builder and the init builder do not fail. */
module RecorderRefinement {
  import opened Samples
  import opened Segmentation
  import opened ObjectKeys
  import opened StreamRecorder

  datatype Call = StartCall | StopCall(env: Env) | SampleCall(sample: Sample, dropped: bool, env: Env)

  predicate Smooth(c: Call) {
    c.StartCall? || (c.env.initOk && c.env.fragment.Some? && c.env.submitOk)
  }

  /** The effect of the class's methods, as their postconditions state it. */
  function After(site: Site, r: Rec, c: Call): Rec {
    match c
    case StartCall => AfterStart(r)
    case StopCall(env) => AfterStop(site, r, env)
    case SampleCall(s, dropped, env) => AfterSample(site, r, s, dropped, env)
  }

  function Run(site: Site, calls: seq<Call>): Rec {
    if calls == [] then NEW else After(site, Run(site, calls[..|calls| - 1]), calls[|calls| - 1])
  }

  /** The GOP that is buffered is the only new job, if there is one, with the size of the
      fragment built for it. */
  predicate SubmitsBuffered(r: Rec, jobs: seq<WriteJob>, env: Env) {
    || jobs == r.jobs
    || (&& |jobs| == |r.jobs| + 1 && jobs[..|r.jobs|] == r.jobs && env.submitOk
        && env.fragment.Some? && env.fragment.value == jobs[|r.jobs|].meta.size
        && jobs[|r.jobs|].gop.samples == r.asm.samples && jobs[|r.jobs|].initData == r.initData)
  }

  lemma FlushSubmits(site: Site, r: Rec, env: Env)
    ensures SubmitsBuffered(r, AfterFlush(site, r, env).jobs, env)
  {
    hide BuildObjectKey;
  }

  /** A call submits at most one job: the GOP that was buffered before it, under the size of
      the fragment built in this call, if the writer took it. */
  lemma OneJobPerCall(site: Site, r: Rec, c: Call)
    ensures if c.StartCall? then After(site, r, c).jobs == r.jobs else SubmitsBuffered(r, After(site, r, c).jobs, c.env)
  {
    hide BuildObjectKey, AfterFlush, FlushResultOf, SubmitsBuffered;
    match c
    case StartCall =>
    case StopCall(env) =>
      NothingSubmitted(r, env);
      FlushFrame(site, r, r.(state := Stopping), env);
      FlushSubmits(site, r, env);
    case SampleCall(s, dropped, env) =>
      var r1 := if r.state.WaitingKeyFrame? then r.(state := Recording) else r;
      NothingSubmitted(r, env);
      FlushFrame(site, r, r1, env);
      FlushSubmits(site, r, env);
      if FlushResultOf(r1, env) != Failed {
        FlushEmpties(site, r1, s, env);
      }
  }

  lemma NothingSubmitted(r: Rec, env: Env)
    ensures SubmitsBuffered(r, r.jobs, env)
  {
  }

  /** Recording is on from a Start to the next Stop. */
  function IsOn(calls: seq<Call>): bool {
    if calls == [] then false else
      match calls[|calls| - 1]
      case StartCall => true
      case StopCall(_) => false
      case SampleCall(_, _, _) => IsOn(calls[..|calls| - 1])
  }

  /** The recorded part of the input: the frames received while recording is on, less the
      non-key frames dropped under memory pressure, and a cut where it is switched off. */
  function Pieces(calls: seq<Call>): seq<Piece> {
    if calls == [] then [] else
      var before := calls[..|calls| - 1];
      Pieces(before) +
      match calls[|calls| - 1]
      case StartCall => []
      case StopCall(_) => if IsOn(before) then [Cut] else []
      case SampleCall(s, dropped, _) => if IsOn(before) && (s.isKey || !dropped) then [Frame(s)] else []
  }

  function Submitted(jobs: seq<WriteJob>): (g: seq<seq<Sample>>)
    ensures |g| == |jobs|
  {
    seq(|jobs|, i requires 0 <= i < |jobs| => jobs[i].gop.samples)
  }

  function Buffered(r: Rec): seq<seq<Sample>> {
    if r.asm.samples == [] then [] else [r.asm.samples]
  }

  /** The job's metadata tells the truth about its GOP. */
  ghost predicate Describes(site: Site, j: WriteJob) {
    var g := j.gop.samples;
    && IsGOP(g)
    && j.camera == j.meta.cameraId == site.camera
    && j.gop.coding == CodingOf(g[0]) && j.meta.codec == g[0].codec
    && j.meta.start == g[0].timestamp && j.meta.end == g[|g| - 1].timestamp && j.meta.frameCount == |g|
  }

  /** The buffer is empty, or a GOP of the current coding that began at its first frame. */
  ghost predicate BufferOk(r: Rec) {
    && (r.asm.hasKeyFrame <==> r.asm.samples != [])
    && (r.builder.Some? ==> r.builder.value == r.current)
    && (r.asm.samples != [] ==>
          && r.state == Recording && r.builder.Some? && IsGOP(r.asm.samples)
          && CodingOf(r.asm.samples[0]) == r.current && r.asm.startTime == r.asm.samples[0].timestamp)
  }

  ghost predicate Refines(site: Site, r: Rec, p: seq<Piece>, on: bool) {
    && BufferOk(r)
    && (on <==> r.state != Idle) && r.state != Stopping
    && r.asm.samples == Open(p)
    && Submitted(r.jobs) + Buffered(r) == Segments(p)
    && forall j :: j in r.jobs ==> Describes(site, j)
  }

  // ---------------------------------------------------------------------------

  /** A flush moves the buffer to the submitted jobs. */
  lemma FlushMoves(site: Site, r: Rec, env: Env)
    requires BufferOk(r) && env.fragment.Some? && env.submitOk
    requires forall j :: j in r.jobs ==> Describes(site, j)
    ensures FlushResultOf(r, env) == if r.asm.samples == [] then NoGOP else Flushed
    ensures var f := AfterFlush(site, r, env);
            && f.asm.samples == [] && !f.asm.hasKeyFrame && f.state == r.state && f.builder == r.builder && f.current == r.current
            && Submitted(f.jobs) == Submitted(r.jobs) + Buffered(r)
            && forall j :: j in f.jobs ==> Describes(site, j)
  {
    hide BuildObjectKey;
    assert Submitted(r.jobs) + [] == Submitted(r.jobs);
  }

  lemma StopRefines(site: Site, r: Rec, p: seq<Piece>, env: Env)
    requires Refines(site, r, p, true) && env.fragment.Some? && env.submitOk
    ensures Refines(site, AfterStop(site, r, env), p + [Cut], false)
  {
    var stopping := r.(state := Stopping);
    AppendBreak(p, Cut);
    if r.asm.samples != [] {
      StopFlush(site, r, env);
    }
  }

  lemma StopFlush(site: Site, r: Rec, env: Env)
    requires BufferOk(r) && r.asm.samples != [] && env.fragment.Some? && env.submitOk
    requires forall j :: j in r.jobs ==> Describes(site, j)
    ensures AfterStop(site, r, env) == AfterFlush(site, r, env).(state := Idle)
    ensures AfterStop(site, r, env).asm == EMPTY_GOP && AfterStop(site, r, env).builder == r.builder
    ensures AfterStop(site, r, env).current == r.current
    ensures Submitted(AfterStop(site, r, env).jobs) == Submitted(r.jobs) + [r.asm.samples]
    ensures forall j :: j in AfterStop(site, r, env).jobs ==> Describes(site, j)
  {
    hide BuildObjectKey;
    FlushMoves(site, r, env);
  }

  /** A frame of the current coding, when the recorder takes it. */
  lemma AddRefines(site: Site, r: Rec, p: seq<Piece>, s: Sample, env: Env)
    requires Refines(site, r, p, true) && r.builder.Some? && CodingOf(s) == r.current
    requires env.fragment.Some? && env.submitOk
    requires r.state == Recording
    ensures Refines(site, AfterAdd(site, r, s, env), p + [Frame(s)], true)
  {
    hide BuildObjectKey;
    FlushMoves(site, r, env);
    if s.isKey {
      AppendKey(p, Frame(s));
      var f := AfterFlush(site, r, env);
      var r' := AfterAdd(site, r, s, env);
      assert r'.asm.samples == [s] && r'.jobs == f.jobs;
      assert Submitted(f.jobs) == Segments(p);
    } else if r.asm.samples != [] {
      AppendContinuation(p, Frame(s));
      assert (Submitted(r.jobs) + [r.asm.samples])[|r.jobs| := r.asm.samples + [s]]
          == Submitted(r.jobs) + [r.asm.samples + [s]];
    } else {
      AppendBreak(p, Frame(s));
    }
  }

  /** A change of coding flushes first; a non-key frame that brings it is not kept. */
  lemma ChangeRefines(site: Site, r: Rec, p: seq<Piece>, s: Sample, env: Env)
    requires Refines(site, r, p, true) && NeedsRebuild(r, s) && r.state == Recording
    requires env.initOk && env.fragment.Some? && env.submitOk
    ensures Refines(site, AfterSample(site, r, s, false, env), p + [Frame(s)], true)
  {
    hide BuildObjectKey;
    FlushMoves(site, r, env);
    var r2 := AfterFlush(site, r, env);
    var r3 := AfterRebuild(site, r2, s, env);
    assert AfterSample(site, r, s, false, env) == AfterAdd(site, r3, s, env);
    if s.isKey {
      AppendKey(p, Frame(s));
      var r' := AfterAdd(site, r3, s, env);
      assert r'.asm.samples == [s] && r'.jobs == r2.jobs;
      assert Submitted(r2.jobs) == Segments(p);
    } else {
      AppendBreak(p, Frame(s));
      assert Submitted(r3.jobs) + [] == Segments(p);
    }
  }

  lemma SampleRefines(site: Site, r: Rec, p: seq<Piece>, on: bool, s: Sample, dropped: bool, env: Env)
    requires Refines(site, r, p, on) && env.initOk && env.fragment.Some? && env.submitOk
    ensures Refines(site, AfterSample(site, r, s, dropped, env),
                    p + if on && (s.isKey || !dropped) then [Frame(s)] else [], on)
  {
    hide BuildObjectKey, AfterAdd, AfterFlush, AfterRebuild;
    assert p + [] == p;
    if on && (s.isKey || !dropped) {
      if Ignored(r, s, dropped) {
        AppendBreak(p, Frame(s));
      } else {
        var r1 := if r.state.WaitingKeyFrame? then r.(state := Recording) else r;
        assert AfterSample(site, r, s, dropped, env) == AfterSample(site, r1, s, false, env);
        if NeedsRebuild(r1, s) {
          ChangeRefines(site, r1, p, s, env);
        } else {
          AddRefines(site, r1, p, s, env);
        }
      }
    }
  }

  lemma CallRefines(site: Site, r: Rec, p: seq<Piece>, on: bool, c: Call)
    requires Refines(site, r, p, on) && Smooth(c)
    ensures match c
            case StartCall => Refines(site, After(site, r, c), p, true)
            case StopCall(_) => Refines(site, After(site, r, c), p + if on then [Cut] else [], false)
            case SampleCall(s, dropped, _) =>
              Refines(site, After(site, r, c), p + if on && (s.isKey || !dropped) then [Frame(s)] else [], on)
  {
    hide AfterSample;
    assert p + [] == p;
    match c
    case StartCall =>
    case StopCall(env) =>
      if on {
        StopRefines(site, r, p, env);
      }
    case SampleCall(s, dropped, env) =>
      SampleRefines(site, r, p, on, s, dropped, env);
  }

  /** Over every run, the submitted GOPs and the buffered one are the GOPs of the recorded
      stream, and every job describes its GOP. */
  lemma {:induction false} RunRefines(site: Site, calls: seq<Call>)
    requires forall c :: c in calls ==> Smooth(c)
    ensures Refines(site, Run(site, calls), Pieces(calls), IsOn(calls))
  {
    if calls != [] {
      var n := |calls| - 1;
      assert calls[n] in calls;
      RunRefines(site, calls[..n]);
      CallRefines(site, Run(site, calls[..n]), Pieces(calls[..n]), IsOn(calls[..n]), calls[n]);
      assert Pieces(calls[..n]) + [] == Pieces(calls[..n]);
    }
  }

  /** In particular, once recording is stopped nothing is left behind. */
  lemma StoppedRunComplete(site: Site, calls: seq<Call>)
    requires (forall c :: c in calls ==> Smooth(c)) && !IsOn(calls)
    ensures Submitted(Run(site, calls).jobs) == Segments(Pieces(calls))
  {
    RunRefines(site, calls);
    assert Submitted(Run(site, calls).jobs) + [] == Submitted(Run(site, calls).jobs);
  }
}
