/** Fragments: from a GOP's samples to timed, encoded media samples and back. The MP4
    library in between is taken to transport sync flag, duration and data faithfully. */
module FMP4 {
  import opened Common
  import opened SampleCodec
  import opened Samples
  import opened SampleTiming

  datatype FullSample = FullSample(sync: bool, duration: nat, decodeTime: nat, data: Bytes)

  datatype Fragment = Fragment(sequence: nat, samples: seq<FullSample>)

  function Timestamps(samples: seq<Sample>): (ts: seq<int>)
    ensures |ts| == |samples| && forall i :: 0 <= i < |ts| ==> ts[i] == samples[i].timestamp.ns
  {
    seq(|samples|, i requires 0 <= i < |samples| => samples[i].timestamp.ns)
  }

  predicate Encodable(codec: Codec, samples: seq<Sample>) {
    samples != [] && forall s | s in samples :: Encoded(codec, s.units).Ok?
  }

  function FullSampleAt(codec: Codec, samples: seq<Sample>, i: nat): FullSample
    requires i < |samples| && Encoded(codec, samples[i].units).Ok?
  {
    var ts := Timestamps(samples);
    FullSample(samples[i].isKey, Duration(ts, i), DecodeTime(ts, i), Encoded(codec, samples[i].units).value)
  }

  class FMP4Builder {
    const codec: Codec
    const params: Params
    var sequence: nat

    constructor (codec: Codec, params: Params)
      ensures this.codec == codec && this.params == params && sequence == 0
    {
      this.codec, this.params, sequence := codec, params, 0;
    }

    method BuildFragment(samples: seq<Sample>) returns (r: Result<Fragment, CodecError>)
      modifies this
      ensures sequence == if samples == [] then old(sequence) else (old(sequence) + 1) % TWO_32
      ensures r.Ok? <==> Encodable(codec, samples)
      ensures r.Ok? ==> r.value.sequence == sequence && |r.value.samples| == |samples|
      ensures r.Ok? ==> forall i :: 0 <= i < |samples| ==>
                Encoded(codec, samples[i].units).Ok? && r.value.samples[i] == FullSampleAt(codec, samples, i)
    {
      hide Duration, Encoded;
      if |samples| == 0 {
        return Err(NoFrame);
      }
      sequence := (sequence + 1) % TWO_32;
      ghost var ts := Timestamps(samples);
      var durations := ComputeSampleDurations(Timestamps(samples));
      var full: seq<FullSample> := [];
      var decodeTime := 0;
      for i := 0 to |samples|
        invariant sequence == (old(sequence) + 1) % TWO_32
        invariant |full| == i && decodeTime == DecodeTime(ts, i)
        invariant forall j :: 0 <= j < i ==>
                    Encoded(codec, samples[j].units).Ok? && full[j] == FullSampleAt(codec, samples, j)
      {
        assert samples[i] in samples;
        var data := EncodeSampleData(codec, samples[i].units);
        if data.Err? {
          return Err(data.error);
        }
        full := full + [FullSample(samples[i].isKey, durations[i], decodeTime, data.value)];
        decodeTime := decodeTime + durations[i];
      }
      r := Ok(Fragment(sequence, full));
    }
  }

  /** The reader's clock: the durations before sample i. */
  function Elapsed(full: seq<FullSample>, i: nat): nat
    requires i <= |full|
  {
    if i == 0 then 0 else Elapsed(full, i - 1) + full[i - 1].duration
  }

  predicate Decodable(codec: Codec, full: seq<FullSample>) {
    forall s | s in full :: Decoded(codec, s.data).Ok?
  }

  function SampleAt(codec: Codec, start: Time, full: seq<FullSample>, i: nat): Sample
    requires i < |full| && Decoded(codec, full[i].data).Ok?
  {
    Sample(codec, start.(ns := start.ns + Nanoseconds(Elapsed(full, i))), Decoded(codec, full[i].data).value,
           full[i].sync, if full[i].sync then I else P, NO_PARAMS)
  }

  method ParseFragment(full: seq<FullSample>, codec: Codec, start: Time) returns (r: Result<seq<Sample>, CodecError>)
    ensures r.Ok? <==> Decodable(codec, full)
    ensures r.Ok? ==> |r.value| == |full|
    ensures r.Ok? ==> forall i :: 0 <= i < |full| ==>
              Decoded(codec, full[i].data).Ok? && r.value[i] == SampleAt(codec, start, full, i)
  {
    hide Decoded, Nanoseconds, Elapsed, Decodable;
    var samples: seq<Sample> := [];
    var ticks := 0;
    NothingElapsed(full);
    for i := 0 to |full|
      invariant |samples| == i && ticks == Elapsed(full, i)
      invariant forall j :: 0 <= j < i ==>
                  Decoded(codec, full[j].data).Ok? && samples[j] == SampleAt(codec, start, full, j)
    {
      ElapsedStep(full, i);
      var units := DecodeSampleData(codec, full[i].data);
      if units.Err? {
        Undecodable(codec, full, i);
        return Err(units.error);
      }
      var isKey := full[i].sync;
      var frameType := P;
      if isKey {
        frameType := I;
      }
      var timestamp := start.(ns := start.ns + Nanoseconds(ticks));
      samples := samples + [Sample(codec, timestamp, units.value, isKey, frameType, NO_PARAMS)];
      ticks := ticks + full[i].duration;
    }
    AllDecoded(codec, full);
    r := Ok(samples);
  }

  lemma NothingElapsed(full: seq<FullSample>)
    ensures Elapsed(full, 0) == 0
  {
  }

  lemma ElapsedStep(full: seq<FullSample>, i: nat)
    requires i < |full|
    ensures Elapsed(full, i + 1) == Elapsed(full, i) + full[i].duration
  {
  }

  lemma Undecodable(codec: Codec, full: seq<FullSample>, i: nat)
    requires i < |full| && Decoded(codec, full[i].data).Err?
    ensures !Decodable(codec, full)
  {
    assert full[i] in full;
  }

  lemma AllDecoded(codec: Codec, full: seq<FullSample>)
    requires forall i :: 0 <= i < |full| ==> Decoded(codec, full[i].data).Ok?
    ensures Decodable(codec, full)
  {
  }

  // ---------------------------------------------------------------------------
  // Round trip
  // ---------------------------------------------------------------------------

  /** What the encoding of a sample can carry: prefixed units that are non-empty and below
      2^32 bytes, or a single MPEG-4 frame. */
  ghost predicate Carried(codec: Codec, units: seq<Bytes>) {
    if LengthPrefixed(codec) then Transportable(units) else codec.MPEG4? && |units| == 1
  }

  lemma CarriedExactly(codec: Codec, units: seq<Bytes>)
    ensures Carried(codec, units)
       <==> Encoded(codec, units).Ok? && Decoded(codec, Encoded(codec, units).value) == Ok(units)
  {
    DecodeEncode(units);
    assert codec.MPEG4? && |units| == 1 ==> units == [units[0]];
  }

  /** The samples that BuildFragment produces. */
  ghost predicate Built(codec: Codec, samples: seq<Sample>, full: seq<FullSample>) {
    && Encodable(codec, samples) && |full| == |samples|
    && forall i :: 0 <= i < |samples| ==>
         Encoded(codec, samples[i].units).Ok? && full[i] == FullSampleAt(codec, samples, i)
  }

  lemma {:induction false} ClocksAgree(codec: Codec, samples: seq<Sample>, full: seq<FullSample>, i: nat)
    requires Built(codec, samples, full) && i <= |samples|
    ensures Elapsed(full, i) == DecodeTime(Timestamps(samples), i)
  {
    hide Duration, Encoded;
    if i > 0 {
      ClocksAgree(codec, samples, full, i - 1);
    }
  }

  /** Reading back a fragment gives every sample's units exactly when each sample is one
      its codec can carry. */
  lemma UnitsRoundTrip(codec: Codec, samples: seq<Sample>, full: seq<FullSample>)
    requires Built(codec, samples, full)
    ensures (forall s :: s in samples ==> Carried(codec, s.units))
       <==> forall i :: 0 <= i < |full| ==> Decoded(codec, full[i].data) == Ok(samples[i].units)
  {
    forall i | 0 <= i < |full|
      ensures Carried(codec, samples[i].units) <==> Decoded(codec, full[i].data) == Ok(samples[i].units)
    {
      CarriedExactly(codec, samples[i].units);
    }
    assert forall i :: 0 <= i < |samples| ==> samples[i] in samples;
  }

  /** A GOP with regular timestamps comes back with its units and key flags, key frames as I
      frames and all others as P frames, each sample at most 11111 ns per preceding sample
      early and never late. */
  lemma FragmentRoundTrip(codec: Codec, samples: seq<Sample>, full: seq<FullSample>, i: nat)
    requires Built(codec, samples, full) && i < |samples|
    requires forall s :: s in samples ==> Carried(codec, s.units)
    requires Regular(Timestamps(samples))
    ensures Decodable(codec, full) && Decoded(codec, full[i].data).Ok?
    ensures var s := SampleAt(codec, samples[0].timestamp, full, i);
            && s.units == samples[i].units && s.isKey == samples[i].isKey && s.codec == codec
            && s.frameType == (if samples[i].isKey then I else P)
            && 0 <= samples[i].timestamp.ns - s.timestamp.ns <= LAG_PER_SAMPLE * i
  {
    UnitsRoundTrip(codec, samples, full);
    ClocksAgree(codec, samples, full, i);
    DriftBound(Timestamps(samples), i);
  }
}
