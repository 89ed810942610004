/** The byte formats of the fragmented MP4 builder: length-prefixed sample data and
    size-name-payload boxes (section 4.2 of ISO/IEC 14496-12). */
module SampleCodec {
  import opened Common
  import KeyOrder

  datatype CodecError = InvalidUnitSize | TrailingData | NoFrame | UnsupportedCodec | InvalidBoxSize | MissingInit

  // ---------------------------------------------------------------------------
  // 32-bit big-endian numbers
  // ---------------------------------------------------------------------------

  /** uint32(n), most significant byte first. */
  function Write32(n: nat): (b: Bytes)
    ensures |b| == 4
  {
    var m := n % TWO_32;
    [(m / 0x100_0000) as byte, (m / 0x1_0000 % 0x100) as byte, (m / 0x100 % 0x100) as byte, (m % 0x100) as byte]
  }

  function Read32(b: Bytes): (n: nat)
    requires |b| == 4
    ensures n < TWO_32
  {
    b[0] as nat * 0x100_0000 + b[1] as nat * 0x1_0000 + b[2] as nat * 0x100 + b[3] as nat
  }

  lemma Read32Write32(n: nat)
    ensures Read32(Write32(n)) == n % TWO_32
  {
    var m := n % TWO_32;
    assert m == m / 0x100 * 0x100 + m % 0x100;
    assert m / 0x100 == m / 0x1_0000 * 0x100 + m / 0x100 % 0x100;
    assert m / 0x1_0000 == m / 0x100_0000 * 0x100 + m / 0x1_0000 % 0x100;
  }

  lemma Write32Read32(b: Bytes)
    requires |b| == 4
    ensures Write32(Read32(b)) == b
  {
    Read32Write32(Read32(b));
    Read32Injective(Write32(Read32(b)), b);
  }

  lemma Read32Injective(a: Bytes, b: Bytes)
    requires |a| == |b| == 4 && Read32(a) == Read32(b)
    ensures a == b
  {
    assert a[0] == b[0];
    assert a[1] == b[1];
    assert a[2] == b[2];
  }

  /** Big-endian: the byte order of two numbers is their order. */
  lemma BigEndian(m: nat, n: nat)
    requires m < TWO_32 && n < TWO_32
    ensures KeyOrder.Less(Write32(m), Write32(n)) <==> m < n
  {
    FourDigits(m);
    FourDigits(n);
    assert KeyOrder.Pow(256, 4) == TWO_32;
    KeyOrder.DigitsOrder(m, n, 256, 0, 4);
  }

  lemma FourDigits(n: nat)
    requires n < TWO_32
    ensures Write32(n) == KeyOrder.Digits(n, 256, 0, 4)
  {
    hide KeyOrder.Digits;
    var a, b, c := n / 256, n / 256 / 256, n / 256 / 256 / 256;
    Quotients(n);
    NextDigit(n, 4);
    NextDigit(a, 3);
    NextDigit(b, 2);
    NextDigit(c, 1);
    var d := KeyOrder.Digits(c / 256, 256, 0, 0);
    assert KeyOrder.Digits(n, 256, 0, 4)
        == d + [(c % 256) as byte] + [(b % 256) as byte] + [(a % 256) as byte] + [(n % 256) as byte];
  }

  lemma Quotients(n: nat)
    requires n < TWO_32
    ensures n / 256 / 256 == n / 0x1_0000 && n / 256 / 256 / 256 == n / 0x100_0000 < 256 && n % TWO_32 == n
  {
  }

  lemma NextDigit(n: nat, width: nat)
    requires width > 0
    ensures KeyOrder.Digits(n, 256, 0, width) == KeyOrder.Digits(n / 256, 256, 0, width - 1) + [(n % 256) as byte]
  {
  }

  // ---------------------------------------------------------------------------
  // Sample data
  // ---------------------------------------------------------------------------

  predicate LengthPrefixed(codec: Codec) {
    codec.H264? || codec.H265?
  }

  /** One NAL unit behind its length, the length truncated to 32 bits. */
  function EncodeUnit(unit: Bytes): Bytes {
    Write32(|unit|) + unit
  }

  function EncodeUnits(units: seq<Bytes>): Bytes {
    if units == [] then [] else EncodeUnit(units[0]) + EncodeUnits(units[1..])
  }

  function DecodeUnits(data: Bytes): Result<seq<Bytes>, CodecError> {
    if |data| < 4 then
      if |data| != 0 then Err(TrailingData) else Ok([])
    else
      var size, rest := Read32(data[..4]), data[4..];
      if size == 0 || size > |rest| then Err(InvalidUnitSize)
      else Prepend([rest[..size]], DecodeUnits(rest[size..]))
  }

  function Prepend<T>(head: seq<T>, tail: Result<seq<T>, CodecError>): Result<seq<T>, CodecError> {
    match tail
    case Ok(items) => Ok(head + items)
    case Err(e) => Err(e)
  }

  function Encoded(codec: Codec, units: seq<Bytes>): Result<Bytes, CodecError> {
    match codec
    case H264 => Ok(EncodeUnits(units))
    case H265 => Ok(EncodeUnits(units))
    case MPEG4 => if units == [] then Err(NoFrame) else Ok(units[0])
    case Unsupported(_) => Err(UnsupportedCodec)
  }

  function Decoded(codec: Codec, data: Bytes): Result<seq<Bytes>, CodecError> {
    match codec
    case H264 => DecodeUnits(data)
    case H265 => DecodeUnits(data)
    case MPEG4 => Ok([data])
    case Unsupported(_) => Err(UnsupportedCodec)
  }

  lemma {:induction false} EncodeUnitsConcat(a: seq<Bytes>, b: seq<Bytes>)
    ensures EncodeUnits(a + b) == EncodeUnits(a) + EncodeUnits(b)
  {
    if a == [] {
      assert a + b == b;
    } else {
      assert (a + b)[1..] == a[1..] + b;
      EncodeUnitsConcat(a[1..], b);
    }
  }

  lemma PrependNothing<T>(tail: Result<seq<T>, CodecError>)
    ensures Prepend([], tail) == tail
  {
    if tail.Ok? {
      assert [] + tail.value == tail.value;
    }
  }

  method EncodeSampleData(codec: Codec, units: seq<Bytes>) returns (r: Result<Bytes, CodecError>)
    ensures r == Encoded(codec, units)
  {
    if LengthPrefixed(codec) {
      var buf: Bytes := [];
      for i := 0 to |units|
        invariant buf == EncodeUnits(units[..i])
      {
        assert units[..i + 1] == units[..i] + [units[i]];
        EncodeUnitsConcat(units[..i], [units[i]]);
        assert EncodeUnits([units[i]]) == EncodeUnit(units[i]) + EncodeUnits([]);
        buf := buf + Write32(|units[i]|);
        buf := buf + units[i];
      }
      assert units[..|units|] == units;
      r := Ok(buf);
    } else if codec.MPEG4? {
      r := if |units| == 0 then Err(NoFrame) else Ok(units[0]);
    } else {
      r := Err(UnsupportedCodec);
    }
  }

  method DecodeSampleData(codec: Codec, input: Bytes) returns (r: Result<seq<Bytes>, CodecError>)
    ensures r == Decoded(codec, input)
  {
    if LengthPrefixed(codec) {
      hide Read32;
      var data, units: seq<Bytes> := input, [];
      PrependNothing(DecodeUnits(input));
      while |data| >= 4
        invariant DecodeUnits(input) == Prepend(units, DecodeUnits(data))
      {
        var size := Read32(data[..4]);
        var rest := data[4..];
        if size == 0 || size > |rest| {
          return Err(InvalidUnitSize);
        }
        PrependTwice(units, [rest[..size]], DecodeUnits(rest[size..]));
        units := units + [rest[..size]];
        data := rest[size..];
      }
      if |data| != 0 {
        return Err(TrailingData);
      }
      assert units + [] == units;
      r := Ok(units);
    } else if codec.MPEG4? {
      r := Ok([input]);
    } else {
      r := Err(UnsupportedCodec);
    }
  }

  lemma PrependTwice<T>(a: seq<T>, b: seq<T>, tail: Result<seq<T>, CodecError>)
    ensures Prepend(a, Prepend(b, tail)) == Prepend(a + b, tail)
  {
    if tail.Ok? {
      assert a + (b + tail.value) == a + b + tail.value;
    }
  }

  /** Units whose length survives the 32-bit prefix and is not taken for an error. */
  ghost predicate Transportable(units: seq<Bytes>) {
    forall u :: u in units ==> 0 < |u| < TWO_32
  }

  /** Decoding past one encoded unit. */
  lemma DecodeEncodedUnit(unit: Bytes, rest: Bytes)
    ensures 0 < |unit| < TWO_32 ==> DecodeUnits(EncodeUnit(unit) + rest) == Prepend([unit], DecodeUnits(rest))
    ensures |unit| == 0 ==> DecodeUnits(EncodeUnit(unit) + rest).Err?
    ensures |unit| >= TWO_32 ==>
              var r := DecodeUnits(EncodeUnit(unit) + rest); r.Err? || (r.value != [] && |r.value[0]| < TWO_32)
  {
    hide Read32, Write32;
    var data := EncodeUnit(unit) + rest;
    Read32Write32(|unit|);
    assert data[..4] == Write32(|unit|) && data[4..] == unit + rest;
    if 0 < |unit| < TWO_32 {
      assert (unit + rest)[..|unit|] == unit && (unit + rest)[|unit|..] == rest;
    }
  }

  /** Decoding undoes encoding exactly when every unit is non-empty and shorter than
      2^32 bytes. */
  lemma {:induction false} DecodeEncode(units: seq<Bytes>)
    ensures DecodeUnits(EncodeUnits(units)) == Ok(units) <==> Transportable(units)
  {
    if units != [] {
      var u, rest := units[0], units[1..];
      assert units == [u] + rest;
      DecodeEncodedUnit(u, EncodeUnits(rest));
      DecodeEncode(rest);
      var r := DecodeUnits(EncodeUnits(rest));
      if 0 < |u| < TWO_32 && r.Ok? {
        assert r.value == ([u] + r.value)[1..];
      }
    }
  }

  /** Whatever decodes is the encoding of what it decodes to. */
  lemma {:induction false} EncodeDecode(data: Bytes)
    requires DecodeUnits(data).Ok?
    ensures EncodeUnits(DecodeUnits(data).value) == data && Transportable(DecodeUnits(data).value)
    decreases |data|
  {
    hide Read32, Write32;
    if |data| >= 4 {
      var size, rest := Read32(data[..4]), data[4..];
      EncodeDecode(rest[size..]);
      Write32Read32(data[..4]);
      var u, tail := rest[..size], DecodeUnits(rest[size..]).value;
      EncodeUnitsCons(u, tail);
      assert rest == u + rest[size..] && data == data[..4] + rest;
      assert EncodeUnit(u) == data[..4] + u;
    }
  }

  lemma EncodeUnitsCons(u: Bytes, tail: seq<Bytes>)
    ensures EncodeUnits([u] + tail) == EncodeUnit(u) + EncodeUnits(tail)
  {
    assert ([u] + tail)[1..] == tail;
  }

  /** The accepted byte strings are the encodings of transportable units, nothing else. */
  lemma DecodableExactly(data: Bytes)
    ensures DecodeUnits(data).Ok? <==> exists units :: Transportable(units) && EncodeUnits(units) == data
  {
    if DecodeUnits(data).Ok? {
      EncodeDecode(data);
    }
    if units: seq<Bytes> :| Transportable(units) && EncodeUnits(units) == data {
      DecodeEncode(units);
    }
  }

  /** One to three bytes behind an encoding are reported as trailing; every other byte string
      that does not decode has an invalid unit size. */
  lemma DecodeErrors(data: Bytes)
    ensures DecodeUnits(data) == Err(TrailingData)
       <==> exists units, rest :: Transportable(units) && data == EncodeUnits(units) + rest && 0 < |rest| < 4
    ensures DecodeUnits(data).Err? ==> DecodeUnits(data).error == TrailingData || DecodeUnits(data).error == InvalidUnitSize
  {
    if DecodeUnits(data) == Err(TrailingData) {
      var units, rest := TrailingPart(data);
    }
    if units: seq<Bytes>, rest: Bytes :| Transportable(units) && data == EncodeUnits(units) + rest && 0 < |rest| < 4 {
      TrailingDecodes(units, rest);
    }
    TwoErrors(data);
  }

  lemma {:induction false} TwoErrors(data: Bytes)
    ensures DecodeUnits(data).Err? ==> DecodeUnits(data).error == TrailingData || DecodeUnits(data).error == InvalidUnitSize
    decreases |data|
  {
    hide Read32;
    if |data| >= 4 {
      var size, rest := Read32(data[..4]), data[4..];
      if 0 < size <= |rest| {
        TwoErrors(rest[size..]);
      }
    }
  }

  lemma {:induction false} TrailingPart(data: Bytes) returns (units: seq<Bytes>, rest: Bytes)
    requires DecodeUnits(data) == Err(TrailingData)
    ensures Transportable(units) && data == EncodeUnits(units) + rest && 0 < |rest| < 4
    decreases |data|
  {
    hide Read32, Write32;
    if |data| < 4 {
      units, rest := [], data;
    } else {
      var size, more := Read32(data[..4]), data[4..];
      units, rest := TrailingPart(more[size..]);
      BehindUnit(data, size, units, rest);
      units := [more[..size]] + units;
    }
  }

  lemma BehindUnit(data: Bytes, size: nat, units: seq<Bytes>, rest: Bytes)
    requires |data| >= 4 && size == Read32(data[..4]) && 0 < size <= |data[4..]| && Transportable(units)
    requires data[4..][size..] == EncodeUnits(units) + rest
    ensures var u := data[4..][..size]; Transportable([u] + units) && data == EncodeUnits([u] + units) + rest
  {
    hide Read32, Write32, EncodeUnits;
    var u := data[4..][..size];
    Write32Read32(data[..4]);
    EncodeUnitsCons(u, units);
    assert data == data[..4] + u + (EncodeUnits(units) + rest);
    assert EncodeUnit(u) == data[..4] + u;
  }

  lemma {:induction false} TrailingDecodes(units: seq<Bytes>, rest: Bytes)
    requires Transportable(units) && 0 < |rest| < 4
    ensures DecodeUnits(EncodeUnits(units) + rest) == Err(TrailingData)
  {
    if units == [] {
      assert EncodeUnits(units) + rest == rest;
    } else {
      var u, tail := units[0], units[1..];
      assert units == [u] + tail;
      TrailingDecodes(tail, rest);
      DecodeEncodedUnit(u, EncodeUnits(tail) + rest);
      assert EncodeUnits(units) + rest == EncodeUnit(u) + (EncodeUnits(tail) + rest);
    }
  }

  // ---------------------------------------------------------------------------
  // Boxes
  // ---------------------------------------------------------------------------

  datatype Box = Box(name: Bytes, payload: Bytes)

  const BOX_HEADER: nat := 8

  function WriteBox(box: Box): Bytes {
    Write32(BOX_HEADER + |box.payload|) + box.name + box.payload
  }

  function WriteBoxes(boxes: seq<Box>): Bytes {
    if boxes == [] then [] else WriteBox(boxes[0]) + WriteBoxes(boxes[1..])
  }

  /** The boxes of a buffer in order; fewer than eight bytes at the end are ignored. */
  function BoxList(data: Bytes): Result<seq<Box>, CodecError> {
    if |data| < BOX_HEADER then Ok([]) else
      var size := Read32(data[..4]);
      if size < BOX_HEADER || size > |data| then Err(InvalidBoxSize)
      else Prepend([Box(data[4..8], data[8..size])], BoxList(data[size..]))
  }

  /** A map from names to payloads in which the last box of a name counts. */
  function LastWins(boxes: seq<Box>): map<Bytes, Bytes> {
    if boxes == [] then map[] else
      var last := boxes[|boxes| - 1];
      LastWins(boxes[..|boxes| - 1])[last.name := last.payload]
  }

  function ParsedBoxes(data: Bytes): Result<map<Bytes, Bytes>, CodecError> {
    match BoxList(data)
    case Ok(boxes) => Ok(LastWins(boxes))
    case Err(e) => Err(e)
  }

  method ParseBoxes(input: Bytes) returns (r: Result<map<Bytes, Bytes>, CodecError>)
    ensures r == ParsedBoxes(input)
  {
    hide Read32;
    var data, result: map<Bytes, Bytes> := input, map[];
    PrependNothing(BoxList(input));
    ghost var seen: seq<Box> := [];
    while |data| >= 8
      invariant BoxList(input) == Prepend(seen, BoxList(data))
      invariant result == LastWins(seen)
    {
      var size := Read32(data[..4]);
      if size < 8 || size > |data| {
        return Err(InvalidBoxSize);
      }
      var name := data[4..8];
      PrependTwice(seen, [Box(name, data[8..size])], BoxList(data[size..]));
      seen := seen + [Box(name, data[8..size])];
      assert seen[..|seen| - 1] + [Box(name, data[8..size])] == seen;
      result := result[name := data[8..size]];
      data := data[size..];
    }
    assert seen + [] == seen;
    r := Ok(result);
  }

  /** A box whose size fits its header. */
  predicate Sized(box: Box) {
    |box.name| == 4 && BOX_HEADER + |box.payload| < TWO_32
  }

  lemma BoxListStep(box: Box, rest: Bytes)
    requires Sized(box)
    ensures BoxList(WriteBox(box) + rest) == Prepend([box], BoxList(rest))
  {
    hide Read32, Write32, Prepend;
    var data := WriteBox(box) + rest;
    var size := BOX_HEADER + |box.payload|;
    Read32Write32(size);
    BoxLayout(Write32(size), box.name, box.payload, rest);
  }

  lemma BoxLayout(header: Bytes, name: Bytes, payload: Bytes, rest: Bytes)
    requires |header| == |name| == 4
    ensures var data := header + name + payload + rest;
            && data[..4] == header && data[4..8] == name
            && data[8..8 + |payload|] == payload && data[8 + |payload|..] == rest
  {
  }

  /** Concatenated boxes are found again, followed by whatever comes next. */
  lemma {:induction false} BoxListOfBoxes(boxes: seq<Box>, rest: Bytes)
    requires forall b :: b in boxes ==> Sized(b)
    ensures BoxList(WriteBoxes(boxes) + rest) == Prepend(boxes, BoxList(rest))
  {
    if boxes == [] {
      assert WriteBoxes(boxes) + rest == rest;
      PrependNothing(BoxList(rest));
    } else {
      var tail := boxes[1..];
      BoxListOfBoxes(tail, rest);
      assert WriteBoxes(boxes) + rest == WriteBox(boxes[0]) + (WriteBoxes(tail) + rest);
      BoxListStep(boxes[0], WriteBoxes(tail) + rest);
      PrependTwice([boxes[0]], tail, BoxList(rest));
      assert [boxes[0]] + tail == boxes;
    }
  }

  /** Parsing concatenated boxes gives the last-wins map. */
  lemma ParseConcatenation(boxes: seq<Box>, tail: Bytes)
    requires (forall b :: b in boxes ==> Sized(b)) && |tail| < BOX_HEADER
    ensures ParsedBoxes(WriteBoxes(boxes) + tail) == Ok(LastWins(boxes))
  {
    BoxListOfBoxes(boxes, tail);
    assert boxes + [] == boxes;
  }

  /** Conversely a buffer that parses is a concatenation of boxes and a short tail. */
  lemma {:induction false} ParsedIsConcatenation(data: Bytes) returns (tail: Bytes)
    requires BoxList(data).Ok?
    ensures |tail| < BOX_HEADER && data == WriteBoxes(BoxList(data).value) + tail
    ensures forall b :: b in BoxList(data).value ==> |b.name| == 4 && BOX_HEADER + |b.payload| <= |data|
    decreases |data|
  {
    hide Read32, Write32;
    if |data| < BOX_HEADER {
      tail := data;
    } else {
      var size := Read32(data[..4]);
      var box, rest := Box(data[4..8], data[8..size]), data[size..];
      tail := ParsedIsConcatenation(rest);
      Write32Read32(data[..4]);
      assert data[..size] == data[..4] + data[4..8] + data[8..size];
      assert WriteBox(box) == data[..size];
      assert data == data[..size] + rest;
      assert ([box] + BoxList(rest).value)[1..] == BoxList(rest).value;
    }
  }

  // ---------------------------------------------------------------------------
  // Init segments
  // ---------------------------------------------------------------------------

  const INIT_META_BOX: Bytes := [0x72, 0x69, 0x6e, 0x66]
  const INIT_LEGACY_BOX: Bytes := [0x69, 0x6e, 0x69, 0x74]

  /** The JSON payload that ParseInitSegment goes on to decode. */
  function InitPayload(data: Bytes): Result<Bytes, CodecError> {
    match ParsedBoxes(data)
    case Err(e) => Err(e)
    case Ok(boxes) =>
      if INIT_META_BOX in boxes then Ok(boxes[INIT_META_BOX])
      else if INIT_LEGACY_BOX in boxes then Ok(boxes[INIT_LEGACY_BOX])
      else Err(MissingInit)
  }

  /** What BuildInit returns: the standard boxes and the metadata box after them. */
  function BuildInit(standard: seq<Box>, payload: Bytes): Bytes {
    WriteBoxes(standard) + WriteBox(Box(INIT_META_BOX, payload))
  }

  lemma {:induction false} LastWinsMember(boxes: seq<Box>, name: Bytes)
    requires name in LastWins(boxes)
    ensures Box(name, LastWins(boxes)[name]) in boxes
  {
    var n := |boxes| - 1;
    if boxes[n].name == name {
      assert boxes[n] == Box(name, LastWins(boxes)[name]);
    } else {
      LastWinsMember(boxes[..n], name);
    }
  }

  /** Among two lists of boxes the second decides about the names it has. */
  lemma {:induction false} LastWinsConcat(a: seq<Box>, b: seq<Box>, name: Bytes)
    requires name in LastWins(b)
    ensures name in LastWins(a + b) && LastWins(a + b)[name] == LastWins(b)[name]
  {
    var n := |b| - 1;
    assert (a + b)[..|a| + n] == a + b[..n] && (a + b)[|a| + n] == b[n];
    if b[n].name != name {
      LastWinsConcat(a, b[..n], name);
    }
  }

  /** The payload appended by BuildInit comes back, whatever standard boxes precede it,
      exactly when its box fits a 32-bit size. */
  lemma InitRoundTrip(standard: seq<Box>, payload: Bytes)
    requires forall b :: b in standard ==> Sized(b)
    ensures InitPayload(BuildInit(standard, payload)) == Ok(payload) <==> BOX_HEADER + |payload| < TWO_32
  {
    var meta := Box(INIT_META_BOX, payload);
    var last := WriteBox(meta);
    BoxListOfBoxes(standard, last);
    if Sized(meta) {
      BoxListStep(meta, []);
      assert last + [] == last;
      assert LastWins([meta]) == LastWins([meta][..0])[meta.name := meta.payload];
      LastWinsConcat(standard, [meta], INIT_META_BOX);
    } else if BoxList(last).Ok? {
      OversizedLost(meta);
      var found := BoxList(last).value;
      assert found[0].name == INIT_META_BOX;
      FirstNamed(found);
      LastWinsConcat(standard, found, INIT_META_BOX);
      LastWinsMember(found, INIT_META_BOX);
    }
  }

  lemma {:induction false} LastWinsNames(boxes: seq<Box>, name: Bytes)
    ensures name in LastWins(boxes) <==> exists b :: b in boxes && b.name == name
  {
    if boxes != [] {
      var n := |boxes| - 1;
      assert boxes == boxes[..n] + [boxes[n]];
      LastWinsNames(boxes[..n], name);
    }
  }

  /** An init segment is found exactly in a file with a box named "rinf" or "init", and a file
      without the former yields its last "init" box. */
  lemma LegacyInit(boxes: seq<Box>, payload: Bytes)
    requires forall b :: b in boxes ==> Sized(b)
    ensures var rinf, init: Bytes := [0x72, 0x69, 0x6e, 0x66], [0x69, 0x6e, 0x69, 0x74];
            && (InitPayload(WriteBoxes(boxes)).Ok? <==> exists b :: b in boxes && (b.name == rinf || b.name == init))
            && ((forall b :: b in boxes ==> b.name != rinf) && 8 + |payload| < TWO_32 ==>
                  InitPayload(WriteBoxes(boxes + [Box(init, payload)])) == Ok(payload))
  {
    ParseConcatenation(boxes, []);
    assert WriteBoxes(boxes) + [] == WriteBoxes(boxes);
    LastWinsNames(boxes, INIT_META_BOX);
    LastWinsNames(boxes, INIT_LEGACY_BOX);
    assert forall b :: b in boxes ==> (b.name == INIT_META_BOX || b.name == INIT_LEGACY_BOX ==> b.name in LastWins(boxes));
    if 8 + |payload| < TWO_32 {
      var last := Box(INIT_LEGACY_BOX, payload);
      var more := boxes + [last];
      ParseConcatenation(more, []);
      assert WriteBoxes(more) + [] == WriteBoxes(more);
      LastWinsNames(more, INIT_META_BOX);
      assert more[..|more| - 1] == boxes;
    }
  }

  lemma {:induction false} FirstNamed(boxes: seq<Box>)
    requires boxes != []
    ensures boxes[0].name in LastWins(boxes)
  {
    var n := |boxes| - 1;
    if n > 0 {
      FirstNamed(boxes[..n]);
    } else {
      assert boxes[n].name in LastWins(boxes);
    }
  }

  /** A box too large for its size field is not found with its whole payload. */
  lemma OversizedLost(box: Box)
    requires |box.name| == 4 && BOX_HEADER + |box.payload| >= TWO_32 && BoxList(WriteBox(box)).Ok?
    ensures var found := BoxList(WriteBox(box)).value;
            && found != [] && found[0].name == box.name
            && forall b :: b in found ==> |b.payload| < |box.payload|
  {
    hide Read32, Write32;
    var data := WriteBox(box);
    var size := Read32(data[..4]);
    assert data[4..8] == box.name;
    assert |data| == BOX_HEADER + |box.payload|;
    var rest := data[size..];
    var tail := ParsedIsConcatenation(rest);
    assert BoxList(data).value == [Box(data[4..8], data[8..size])] + BoxList(rest).value;
  }
}
