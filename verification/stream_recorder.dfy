/** The recorder of one camera: it assembles GOPs, keeps the init segment of the current
    coding, and submits one write job per GOP. */
module StreamRecorder {
  import opened Common
  import opened Samples
  import opened ObjectKeys

  datatype RecorderState = Idle | WaitingKeyFrame | Recording | Stopping

  /** A codec with its parameter sets: what an init segment describes. */
  datatype Coding = Coding(codec: Codec, params: Params)

  function CodingOf(s: Sample): Coding {
    Coding(s.codec, s.params)
  }

  /** A fragment: the samples it was built from and the coding of its builder. */
  datatype GOPData = GOPData(coding: Coding, samples: seq<Sample>)

  datatype WriteJob = WriteJob(camera: Bytes, gop: GOPData, initData: Option<Coding>, meta: GOPMeta)

  /** Where a recorder's objects go: its camera, and the key directory of a timestamp. */
  datatype Site = Site(camera: Bytes, dir: Time -> Bytes)

  /** How the collaborators answer during one call: BuildInit, BuildFragment (with the
      size of the fragment) and the writer's Submit. */
  datatype Env = Env(initOk: bool, fragment: Option<int>, submitOk: bool)

  const ZERO_TIME: Time := Time(-62135596800 * SECOND, 0)

  // ---------------------------------------------------------------------------
  // The assembler
  // ---------------------------------------------------------------------------

  datatype Assembler = Assembler(samples: seq<Sample>, hasKeyFrame: bool, startTime: Time)

  const EMPTY_GOP: Assembler := Assembler([], false, ZERO_TIME)

  predicate MustFlush(a: Assembler, s: Sample) {
    s.isKey && a.hasKeyFrame && a.samples != []
  }

  function Added(a: Assembler, s: Sample): Assembler {
    if MustFlush(a, s) || (!a.hasKeyFrame && !s.isKey) then a
    else Assembler(a.samples + [s], true, if a.hasKeyFrame then a.startTime else s.timestamp)
  }

  class GOPAssembler {
    var samples: seq<Sample>
    var hasKeyFrame: bool
    var startTime: Time

    function Value(): Assembler
      reads this
    {
      Assembler(samples, hasKeyFrame, startTime)
    }

    constructor ()
      ensures Value() == EMPTY_GOP
    {
      samples, hasKeyFrame, startTime := [], false, ZERO_TIME;
    }

    method AddSample(s: Sample) returns (flush: bool)
      modifies this
      ensures flush == old(MustFlush(Value(), s)) && Value() == Added(old(Value()), s)
    {
      if s.isKey && hasKeyFrame && |samples| > 0 {
        return true;
      }
      if !hasKeyFrame && !s.isKey {
        return false;
      }
      if !hasKeyFrame {
        hasKeyFrame := true;
        startTime := s.timestamp;
      }
      samples := samples + [s];
      return false;
    }

    method Flush() returns (gop: Option<(seq<Sample>, Time)>)
      modifies this
      ensures old(hasKeyFrame && samples != []) ==> gop == Some(old((samples, startTime))) && Value() == EMPTY_GOP
      ensures !old(hasKeyFrame && samples != []) ==> gop == None && Value() == old(Value())
    {
      if !hasKeyFrame || |samples| == 0 {
        return None;
      }
      gop := Some((samples, startTime));
      Reset();
    }

    method Reset()
      modifies this
      ensures Value() == EMPTY_GOP
    {
      samples, hasKeyFrame, startTime := [], false, ZERO_TIME;
    }
  }

  // ---------------------------------------------------------------------------
  // The recorder's steps on values
  // ---------------------------------------------------------------------------

  datatype Rec = Rec(
    state: RecorderState,
    asm: Assembler,
    builder: Option<Coding>,
    initData: Option<Coding>,
    initPath: Bytes,
    current: Coding,
    sequence: nat,
    jobs: seq<WriteJob>)

  const NEW: Rec := Rec(Idle, EMPTY_GOP, None, None, [], Coding(Unsupported([]), NO_PARAMS), 0, [])

  datatype FlushResult = NoGOP | Flushed | Failed

  function JobOf(site: Site, r: Rec, coding: Coding, size: int): WriteJob
    requires r.asm.samples != []
  {
    var g := r.asm.samples;
    WriteJob(site.camera, GOPData(coding, g), r.initData,
      GOPMeta(site.camera, r.asm.startTime, g[|g| - 1].timestamp,
              BuildObjectKey(site.dir(r.asm.startTime), r.asm.startTime, r.sequence, FRAGMENT_SUFFIX),
              r.initPath, size, |g|, r.current.codec))
  }

  function FlushResultOf(r: Rec, env: Env): FlushResult {
    if !r.asm.hasKeyFrame || r.asm.samples == [] then NoGOP
    else if r.builder.None? || env.fragment.None? || !env.submitOk then Failed
    else Flushed
  }

  /** The sequence number and the pending init segment are spent even when building or
      submitting fails. */
  function AfterFlush(site: Site, r: Rec, env: Env): Rec {
    match FlushResultOf(r, env)
    case NoGOP => r
    case Failed => r.(asm := EMPTY_GOP, sequence := r.sequence + 1, initData := None)
    case Flushed =>
      r.(asm := EMPTY_GOP, sequence := r.sequence + 1, initData := None,
         jobs := r.jobs + [JobOf(site, r, r.builder.value, env.fragment.value)])
  }

  /** The builder is replaced even when building its init segment fails. */
  function AfterRebuild(site: Site, r: Rec, s: Sample, env: Env): Rec {
    var built := r.(builder := Some(CodingOf(s)));
    if !env.initOk then built else
      built.(initData := Some(CodingOf(s)), current := CodingOf(s),
             initPath := BuildObjectKey(site.dir(s.timestamp), s.timestamp, r.sequence, INIT_SUFFIX))
  }

  predicate Ignored(r: Rec, s: Sample, dropped: bool) {
    r.state.Idle? || r.state.Stopping? || (r.state.WaitingKeyFrame? && !s.isKey) || (!s.isKey && dropped)
  }

  predicate NeedsRebuild(r: Rec, s: Sample) {
    r.builder.None? || CodingOf(s) != r.current
  }

  /** The calls of ProcessSample that flush the buffer, at most once each. */
  predicate SampleFlushes(r: Rec, s: Sample, dropped: bool) {
    !Ignored(r, s, dropped) && (NeedsRebuild(r, s) || MustFlush(r.asm, s))
  }

  /** ProcessSample reports an error if its flush fails or the init segment it needs cannot
      be built. */
  predicate SampleOk(r: Rec, s: Sample, dropped: bool, env: Env) {
    && !(SampleFlushes(r, s, dropped) && FlushResultOf(r, env) == Failed)
    && (!Ignored(r, s, dropped) && NeedsRebuild(r, s) ==> env.initOk)
  }

  /** Adding a sample, after flushing the buffer first if it starts a new GOP. */
  function AfterAdd(site: Site, r: Rec, s: Sample, env: Env): Rec {
    if !MustFlush(r.asm, s) then r.(asm := Added(r.asm, s))
    else
      var f := AfterFlush(site, r, env);
      if FlushResultOf(r, env) != Flushed then f else f.(asm := Added(f.asm, s))
  }

  function AfterSample(site: Site, r: Rec, s: Sample, dropped: bool, env: Env): Rec {
    if Ignored(r, s, dropped) then r else
      var r1 := if r.state.WaitingKeyFrame? then r.(state := Recording) else r;
      if !NeedsRebuild(r1, s) then AfterAdd(site, r1, s, env) else
        var r2 := AfterFlush(site, r1, env);
        if FlushResultOf(r1, env) == Failed then r2 else
          var r3 := AfterRebuild(site, r2, s, env);
          if !env.initOk then r3 else AfterAdd(site, r3, s, env)
  }

  /** The recorder's state does not matter for a flush. */
  lemma FlushFrame(site: Site, r: Rec, r1: Rec, env: Env)
    requires r1 == r.(state := r1.state)
    ensures FlushResultOf(r1, env) == FlushResultOf(r, env)
    ensures AfterFlush(site, r1, env) == AfterFlush(site, r, env).(state := r1.state)
  {
    hide BuildObjectKey;
  }

  /** After a flush that does not fail the buffer holds no GOP. */
  lemma FlushEmpties(site: Site, r: Rec, s: Sample, env: Env)
    requires FlushResultOf(r, env) != Failed
    ensures !MustFlush(AfterFlush(site, r, env).asm, s)
    ensures AfterRebuild(site, AfterFlush(site, r, env), s, env).asm == AfterFlush(site, r, env).asm
  {
    hide BuildObjectKey;
  }

  lemma DueFlush(r: Rec, s: Sample, env: Env)
    requires MustFlush(r.asm, s)
    ensures FlushResultOf(r, env) != NoGOP
  {
  }

  function AfterStart(r: Rec): Rec {
    if r.state.Recording? || r.state.WaitingKeyFrame? then r else r.(state := WaitingKeyFrame)
  }

  function AfterStop(site: Site, r: Rec, env: Env): Rec {
    if r.state.Idle? then r else AfterFlush(site, r.(state := Stopping), env).(state := Idle)
  }

  // ---------------------------------------------------------------------------

  class StreamRecorder {
    const site: Site
    const assembler: GOPAssembler
    var state: RecorderState
    var builder: Option<Coding>
    var initData: Option<Coding>
    var initPath: Bytes
    var params: Params
    var codec: Codec
    var sequence: nat
    /** The jobs the writer has accepted. */
    var submitted: seq<WriteJob>

    function Value(): Rec
      reads this, assembler
    {
      Rec(state, assembler.Value(), builder, initData, initPath, Coding(codec, params), sequence, submitted)
    }

    constructor (site: Site)
      ensures Value() == NEW && fresh(assembler) && this.site == site
    {
      this.site := site;
      assembler := new GOPAssembler();
      state, builder, initData, initPath := Idle, None, None, [];
      params, codec, sequence, submitted := NO_PARAMS, Unsupported([]), 0, [];
    }

    method Start()
      modifies this
      ensures Value() == AfterStart(old(Value()))
    {
      if state == Recording || state == WaitingKeyFrame {
        return;
      }
      state := WaitingKeyFrame;
    }

    method Stop(env: Env)
      modifies this, assembler
      ensures Value() == AfterStop(site, old(Value()), env)
    {
      if state == Idle {
        return;
      }
      state := Stopping;
      var result := FlushGOP(env);
      state := Idle;
    }

    method ProcessSample(s: Sample, dropped: bool, env: Env) returns (ok: bool)
      modifies this, assembler
      ensures Value() == AfterSample(site, old(Value()), s, dropped, env)
      ensures ok == SampleOk(old(Value()), s, dropped, env)
    {
      hide AfterFlush, AfterRebuild, FlushResultOf;
      ghost var before := Value();
      if state == Idle || state == Stopping {
        return true;
      }
      if state == WaitingKeyFrame && !s.isKey {
        return true;
      }
      if !s.isKey && dropped {
        return true;
      }
      if state == WaitingKeyFrame && s.isKey {
        state := Recording;
      }
      FlushFrame(site, before, Value(), env);
      ghost var recording := Value();
      var needsRebuild := builder.None? || s.codec != codec || s.params != params;
      if needsRebuild {
        var result := FlushGOP(env);
        if result == Failed {
          return false;
        }
        FlushEmpties(site, recording, s, env);
        var rebuilt := RebuildBuilder(s, env);
        if !rebuilt {
          return false;
        }
      }
      ghost var ready := Value();
      var flush := assembler.AddSample(s);
      if flush {
        DueFlush(ready, s, env);
        var result := FlushGOP(env);
        if result != Flushed {
          return false;
        }
        flush := assembler.AddSample(s);
      }
      return true;
    }

    method RebuildBuilder(s: Sample, env: Env) returns (ok: bool)
      modifies this
      ensures ok == env.initOk && Value() == AfterRebuild(site, old(Value()), s, env)
    {
      builder := Some(CodingOf(s));
      if !env.initOk {
        return false;
      }
      initData := Some(CodingOf(s));
      initPath := BuildObjectKey(site.dir(s.timestamp), s.timestamp, sequence, INIT_SUFFIX);
      params := s.params;
      codec := s.codec;
      return true;
    }

    method FlushGOP(env: Env) returns (result: FlushResult)
      modifies this, assembler
      ensures result == FlushResultOf(old(Value()), env) && Value() == AfterFlush(site, old(Value()), env)
    {
      var gop := assembler.Flush();
      if gop.None? {
        return NoGOP;
      }
      var samples, startTime := gop.value.0, gop.value.1;
      var used, init, path, number := builder, initData, initPath, sequence;
      sequence := sequence + 1;
      initData := None;
      if used.None? {
        return Failed;
      }
      if env.fragment.None? {
        return Failed;
      }
      var endTime := samples[|samples| - 1].timestamp;
      var objectKey := BuildObjectKey(site.dir(startTime), startTime, number, FRAGMENT_SUFFIX);
      if !env.submitOk {
        return Failed;
      }
      var meta := GOPMeta(site.camera, startTime, endTime, objectKey, path, env.fragment.value, |samples|, codec);
      submitted := submitted + [WriteJob(site.camera, GOPData(used.value, samples), init, meta)];
      return Flushed;
    }
  }
}
