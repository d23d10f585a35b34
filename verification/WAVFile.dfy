/** The 16 kHz sidecars: WAV files written in one piece or as a stream, and their reader (`WAVWriter.swift`,
    `WAVStreamWriter.swift`, `WAVAudioDecoder.swift`). */
module WAVFile {
  import opened Bytes
  import opened Options
  import opened Sequences

  /** The bits of an Int16 sample. */
  type Half = h: nat | h < 0x1_0000

  const RIFF: seq<Byte> := [0x52, 0x49, 0x46, 0x46]
  const WAVE: seq<Byte> := [0x57, 0x41, 0x56, 0x45]
  const FMT: seq<Byte> := [0x66, 0x6D, 0x74, 0x20]
  const DATA: seq<Byte> := [0x64, 0x61, 0x74, 0x61]

  const HEADER_SIZE: nat := 44
  const EXTENSIBLE: nat := 0xFFFE

  // Writing.

  /** `WAVWriter.header`. */
  function Header(formatTag: nat, channels: nat, sampleRate: nat, bytesPerSample: nat, sampleCount: nat): seq<Byte> {
    RIFF + Little(36 + sampleCount * bytesPerSample, 4) + WAVE + FMT + Little(16, 4)
    + Description(formatTag, channels, sampleRate, bytesPerSample) + DATA + Little(sampleCount * bytesPerSample, 4)
  }

  /** The body of the `fmt ` chunk. */
  function Description(formatTag: nat, channels: nat, sampleRate: nat, bytesPerSample: nat): seq<Byte> {
    Little(formatTag, 2) + Little(channels, 2) + Little(sampleRate, 4) + Little(sampleRate * channels * bytesPerSample, 4)
    + Little(channels * bytesPerSample, 2) + Little(bytesPerSample * 8, 2)
  }

  /** `WAVStreamWriter.header`: 16-bit mono. */
  function StreamHeader(sampleRate: nat, sampleCount: nat): seq<Byte> {
    RIFF + Little(HEADER_SIZE - 8 + sampleCount * 2, 4) + WAVE + FMT + Little(16, 4)
    + (Little(1, 2) + Little(1, 2) + Little(sampleRate, 4) + Little(sampleRate * 2, 4) + Little(2, 2) + Little(16, 2))
    + DATA + Little(sampleCount * 2, 4)
  }

  lemma HeadersAgree(sampleRate: nat, sampleCount: nat)
    ensures StreamHeader(sampleRate, sampleCount) == Header(1, 1, sampleRate, 2, sampleCount)
  {
    hide Little;
  }

  /** What fits a header of 32-bit sizes: more traps. */
  ghost predicate Writable(sampleRate: nat, sampleCount: nat) {
    sampleRate * 2 < 0x1_0000_0000 && 36 + sampleCount * 2 < 0x1_0000_0000
  }

  /** `WAVWriter.data`, one channel. */
  function FileOf(samples: seq<Half>, sampleRate: nat): seq<Byte> {
    Header(1, 1, sampleRate, 2, |samples|) + Packed(samples, 2)
  }

  lemma PackedOne(front: seq<nat>, x: nat, n: nat)
    ensures Packed(front + [x], n) == Packed(front, n) + Little(x, n)
  {
    PackedJoin(front, [x], n);
    assert Packed([x], n) == Little(x, n) + [];
  }

  method OneShot(samples: seq<Half>, sampleRate: nat) returns (data: seq<Byte>)
    ensures data == FileOf(samples, sampleRate)
  {
    hide Header;
    data := Header(1, 1, sampleRate, 2, |samples|);
    ghost var header := data;
    assert header == header + Packed(samples[..0], 2);
    for i := 0 to |samples|
      invariant data == header + Packed(samples[..i], 2)
    {
      hide Packed;
      PackedOne(samples[..i], samples[i], 2);
      assert samples[..i + 1] == samples[..i] + [samples[i]];
      Associate(header, Packed(samples[..i], 2), Little(samples[i], 2));
      data := data + Little(samples[i], 2);
    }
    assert samples[..|samples|] == samples;
  }

  /** The streaming writer: a header of size 0, then samples, then the header again. `accepted` holds the
      samples of the writes that succeeded before any was cut short, `torn` every byte from the first cut
      write on, and `late` the samples of the writes counted after it. */
  class WAVStreamWriter {
    const sampleRate: nat
    var file: seq<Byte>
    var samplesWritten: nat
    var isFinished: bool
    ghost var accepted: seq<Half>
    ghost var torn: seq<Byte>
    ghost var late: nat

    ghost predicate Valid()
      reads this
    {
      && samplesWritten == |accepted| + late && (torn == [] ==> late == 0)
      && file == StreamHeader(sampleRate, if isFinished then |accepted| + late else 0) + (Packed(accepted, 2) + torn)
    }

    constructor (sampleRate: nat)
      ensures Valid() && this.sampleRate == sampleRate && accepted == [] && torn == [] && !isFinished
    {
      hide StreamHeader;
      this.sampleRate := sampleRate;
      file := StreamHeader(sampleRate, 0);
      samplesWritten := 0;
      isFinished := false;
      accepted, torn, late := [], [], 0;
      new;
      assert Packed(accepted, 2) + torn == [];
      assert file == StreamHeader(sampleRate, 0) + ([] + []);
    }

    /** `room` is how many more bytes the disk takes; a write past it fails part way. What comes after a
        cut write stays behind it. */
    method Write(samples: array<Half>, count: nat, room: nat) returns (ok: bool)
      requires Valid() && count <= samples.Length
      modifies this
      ensures Valid() && isFinished == old(isFinished)
      ensures count == 0 || isFinished ==>
        ok && accepted == old(accepted) && torn == old(torn) && samplesWritten == old(samplesWritten)
      ensures count > 0 && !isFinished ==>
        && ok == (2 * count <= room) && samplesWritten == old(samplesWritten) + (if ok then count else 0)
        && (if old(torn) == [] && ok then accepted == old(accepted) + samples[..count] && torn == []
            else accepted == old(accepted) && torn == old(torn) + Fitting(Packed(samples[..count], 2), room))
    {
      if count == 0 || isFinished { return true; }
      hide StreamHeader, Packed;
      var data: seq<Half> := samples[..count];
      var bytes := Packed(data, 2);
      PackedLength(data, 2);
      AppendBytes(StreamHeader(sampleRate, 0), accepted, data, 2, room);
      AppendBehind(StreamHeader(sampleRate, 0), Packed(accepted, 2), torn, Fitting(bytes, room));
      file := file + if |bytes| > room then bytes[..room] else bytes;
      ok := |bytes| <= room;
      if ok && torn == [] {
        accepted := accepted + data;
      } else {
        torn := torn + Fitting(bytes, room);
        late := late + if ok then count else 0;
      }
      if ok { samplesWritten := samplesWritten + count; }
    }

    /** Finished over whole writes, the file is the one-shot file byte for byte. */
    method Finish()
      requires Valid() && Writable(sampleRate, |accepted| + late)
      modifies this`file, this`isFinished
      ensures Valid() && isFinished
      ensures torn == [] ==> file == FileOf(accepted, sampleRate)
    {
      hide StreamHeader, Packed, Header;
      HeadersAgree(sampleRate, |accepted|);
      assert Packed(accepted, 2) + [] == Packed(accepted, 2);
      if isFinished { return; }
      isFinished := true;
      var header := StreamHeader(sampleRate, samplesWritten);
      HeaderLength(sampleRate, samplesWritten);
      HeaderLength(sampleRate, 0);
      Overwrite(StreamHeader(sampleRate, 0), header, Packed(accepted, 2) + torn);
      file := header + file[HEADER_SIZE..];
    }
  }

  lemma HeaderLength(sampleRate: nat, sampleCount: nat)
    ensures |StreamHeader(sampleRate, sampleCount)| == HEADER_SIZE
  {
    hide Little;
  }

  lemma Overwrite(before: seq<Byte>, after: seq<Byte>, payload: seq<Byte>)
    requires |before| == |after|
    ensures after + (before + payload)[|after|..] == after + payload
  {}

  // Reading.

  datatype Format = Format(tag: nat, channels: nat, sampleRate: nat, bits: nat)

  datatype Info = Info(sampleRate: nat, channels: nat, bits: nat, isFloat: bool, frameCount: nat)

  datatype Failure = TooShort | NotWave | Truncated | ShortFormat | NoFormat | NoData | Unsupported

  datatype Result<+T> = Read(value: T) | Failed(why: Failure)

  function Number(d: seq<Byte>, at: nat, n: nat): nat
    requires at + n <= |d|
  {
    LittleValue(Part(d, at, n))
  }

  /** An extensible format names its real tag later on. */
  function FormatAt(d: seq<Byte>, body: nat, size: nat): Format
    requires size >= 16 && body + size <= |d|
  {
    var tag := Number(d, body, 2);
    Format(
      if tag == EXTENSIBLE && size >= 26 then Number(d, body + 24, 2) else tag,
      Number(d, body + 2, 2), Number(d, body + 4, 4), Number(d, body + 14, 2))
  }

  /** The last format and the last data chunk from `offset`; an odd chunk is padded to an even one. */
  function Walk(d: seq<Byte>, offset: nat, format: Option<Format>, samples: Option<seq<Byte>>)
    : Result<(Option<Format>, Option<seq<Byte>>)>
    decreases |d| - offset
  {
    if offset + 8 > |d| then Read((format, samples))
    else
      var id, size, body := Part(d, offset, 4), Number(d, offset + 4, 4), offset + 8;
      if body + size > |d| then Failed(Truncated)
      else if id == FMT && size < 16 then Failed(ShortFormat)
      else
        Walk(d, body + size + size % 2,
             if id == FMT then Some(FormatAt(d, body, size)) else format,
             if id == DATA then Some(Part(d, body, size)) else samples)
  }

  function InfoOf(format: Format, samples: seq<Byte>): Result<(Info, seq<Byte>)> {
    if format.tag != 1 && format.tag != 3 then Failed(Unsupported)
    else
      var whole := format.channels * format.bits / 8;
      var bytesPerFrame := if whole < 1 then 1 else whole;
      Read((Info(format.sampleRate, format.channels, format.bits, format.tag == 3, |samples| / bytesPerFrame), samples))
  }

  /** What parsing gives: the format and the bytes of the data chunk. */
  function ParseOf(d: seq<Byte>): Result<(Info, seq<Byte>)> {
    if |d| < 12 then Failed(TooShort)
    else if Part(d, 0, 4) != RIFF || Part(d, 8, 4) != WAVE then Failed(NotWave)
    else
      match Walk(d, 12, None, None)
      case Failed(why) => Failed(why)
      case Read((None, _)) => Failed(NoFormat)
      case Read((_, None)) => Failed(NoData)
      case Read((Some(format), Some(samples))) => InfoOf(format, samples)
  }

  method Parse(d: seq<Byte>) returns (r: Result<(Info, seq<Byte>)>)
    ensures r == ParseOf(d)
  {
    hide FormatAt, Number;
    if |d| < 12 { return Failed(TooShort); }
    if Part(d, 0, 4) != RIFF || Part(d, 8, 4) != WAVE { return Failed(NotWave); }
    var offset: nat := 12;
    var format: Option<Format> := None;
    var samples: Option<seq<Byte>> := None;
    while offset + 8 <= |d|
      invariant Walk(d, 12, None, None) == Walk(d, offset, format, samples)
      decreases |d| - offset
    {
      var id := Part(d, offset, 4);
      var size := Number(d, offset + 4, 4);
      var body := offset + 8;
      if body + size > |d| { return Failed(Truncated); }
      if id == FMT {
        if size < 16 { return Failed(ShortFormat); }
        format := Some(FormatAt(d, body, size));
      } else if id == DATA {
        samples := Some(Part(d, body, size));
      }
      offset := body + size + size % 2;
    }
    if format.None? { return Failed(NoFormat); }
    if samples.None? { return Failed(NoData); }
    r := InfoOf(format.value, samples.value);
  }

  // What a written file parses as.

  lemma DescriptionFields(sampleRate: nat)
    ensures var b := Description(1, 1, sampleRate, 2);
      && |b| == 16 && Part(b, 0, 2) == Little(1, 2) && Part(b, 2, 2) == Little(1, 2) && Part(b, 4, 4) == Little(sampleRate, 4)
      && Part(b, 14, 2) == Little(16, 2)
  {
    hide Little;
    var b := Description(1, 1, sampleRate, 2);
    assert b[14..] == Little(2 * 8, 2) && b[14..16] == b[14..];
  }

  lemma HeaderFields(sampleRate: nat, sampleCount: nat)
    ensures var h := Header(1, 1, sampleRate, 2, sampleCount);
      && |h| == HEADER_SIZE
      && Part(h, 0, 4) == RIFF && Part(h, 8, 4) == WAVE && Part(h, 12, 4) == FMT && Part(h, 16, 4) == Little(16, 4)
      && Part(h, 20, 16) == Description(1, 1, sampleRate, 2) && Part(h, 36, 4) == DATA
      && Part(h, 40, 4) == Little(sampleCount * 2, 4)
  {
    hide Little, Description;
    DescriptionFields(sampleRate);
    var h := Header(1, 1, sampleRate, 2, sampleCount);
    assert h[40..] == Little(sampleCount * 2, 4) && h[40..44] == h[40..];
  }

  lemma FormatOfHeader(d: seq<Byte>, sampleRate: nat)
    requires sampleRate < Range(4) && |d| >= 36 && Part(d, 20, 16) == Description(1, 1, sampleRate, 2)
    ensures FormatAt(d, 20, 16) == Format(1, 1, sampleRate, 16)
  {
    hide Little, LittleValue, Description, Range;
    var b := Description(1, 1, sampleRate, 2);
    DescriptionFields(sampleRate);
    SubPart(d, 20, 16, 0, 2);
    SubPart(d, 20, 16, 2, 2);
    SubPart(d, 20, 16, 4, 4);
    SubPart(d, 20, 16, 14, 2);
    SmallBack(1, 2);
    SmallBack(16, 2);
    LittleBack(sampleRate, 4);
  }

  lemma SmallBack(value: nat, n: nat)
    requires value < 256 && n > 0
    ensures LittleValue(Little(value, n)) == value
  {
    assert Range(n) >= 256 * 1;
    LittleBack(value, n);
  }

  /** One chunk of the walk. */
  lemma WalkStep(d: seq<Byte>, offset: nat, format: Option<Format>, samples: Option<seq<Byte>>, size: nat)
    requires offset + 8 + size <= |d| && Number(d, offset + 4, 4) == size
    ensures Part(d, offset, 4) == FMT && size >= 16 ==>
      Walk(d, offset, format, samples) == Walk(d, offset + 8 + size + size % 2, Some(FormatAt(d, offset + 8, size)), samples)
    ensures Part(d, offset, 4) == DATA ==>
      Walk(d, offset, format, samples) == Walk(d, offset + 8 + size + size % 2, format, Some(Part(d, offset + 8, size)))
  {
    hide FormatAt, Number;
  }

  lemma WalkEnds(d: seq<Byte>, offset: nat, format: Option<Format>, samples: Option<seq<Byte>>)
    requires offset + 8 > |d|
    ensures Walk(d, offset, format, samples) == Read((format, samples))
  {}

  lemma Bounds(sampleRate: nat, sampleCount: nat)
    requires Writable(sampleRate, sampleCount)
    ensures sampleRate < Range(4) && sampleCount * 2 < Range(4)
  {
    RangeOf48();
  }

  lemma FileFields(samples: seq<Half>, sampleRate: nat)
    ensures var d, n := FileOf(samples, sampleRate), |samples| * 2;
      && |d| == HEADER_SIZE + n
      && Part(d, 0, 4) == RIFF && Part(d, 8, 4) == WAVE && Part(d, 12, 4) == FMT && Part(d, 16, 4) == Little(16, 4)
      && Part(d, 20, 16) == Description(1, 1, sampleRate, 2) && Part(d, 36, 4) == DATA && Part(d, 40, 4) == Little(n, 4)
      && Part(d, 44, n) == Packed(samples, 2)
  {
    hide Little, LittleValue, Description, Header, Packed;
    var p, h, d := Packed(samples, 2), Header(1, 1, sampleRate, 2, |samples|), FileOf(samples, sampleRate);
    PackedLength(samples, 2);
    HeaderFields(sampleRate, |samples|);
    assert d == h + p && d[..HEADER_SIZE] == h && d[HEADER_SIZE..] == p;
    PrefixPart(d, h, 0, 4);
    PrefixPart(d, h, 8, 4);
    PrefixPart(d, h, 12, 4);
    PrefixPart(d, h, 16, 4);
    PrefixPart(d, h, 20, 16);
    PrefixPart(d, h, 36, 4);
    PrefixPart(d, h, 40, 4);
  }

  lemma WalkOfFile(samples: seq<Half>, sampleRate: nat)
    requires Writable(sampleRate, |samples|)
    ensures Walk(FileOf(samples, sampleRate), 12, None, None)
         == Read((Some(Format(1, 1, sampleRate, 16)), Some(Packed(samples, 2))))
  {
    hide Little, LittleValue, Description, Range, FileOf, Packed, FormatAt, Walk, Part, Number, Writable;
    var d := FileOf(samples, sampleRate);
    var n: nat := |samples| * 2;
    Sizes(samples, sampleRate);
    WalkStep(d, 12, None, None, 16);
    WalkStep(d, 36, Some(Format(1, 1, sampleRate, 16)), None, n);
    WalkEnds(d, 44 + n, Some(Format(1, 1, sampleRate, 16)), Some(Part(d, 44, n)));
  }

  /** The sizes the walk reads. */
  lemma Sizes(samples: seq<Half>, sampleRate: nat)
    requires Writable(sampleRate, |samples|)
    ensures var d, n := FileOf(samples, sampleRate), |samples| * 2;
      && |d| == HEADER_SIZE + n
      && Part(d, 0, 4) == RIFF && Part(d, 8, 4) == WAVE && Part(d, 12, 4) == FMT && Number(d, 16, 4) == 16
      && FormatAt(d, 20, 16) == Format(1, 1, sampleRate, 16) && Part(d, 36, 4) == DATA && Number(d, 40, 4) == n
      && Part(d, 44, n) == Packed(samples, 2)
  {
    hide Little, LittleValue, Description, Range, FileOf, Packed, FormatAt, Part;
    var d := FileOf(samples, sampleRate);
    FileFields(samples, sampleRate);
    Bounds(sampleRate, |samples|);
    FormatOfHeader(d, sampleRate);
    SmallBack(16, 4);
    LittleBack(|samples| * 2, 4);
  }

  /** Main result: as long as the sizes fit, the file gives its samples back. */
  lemma ParseGivesTheSamplesBack(samples: seq<Half>, sampleRate: nat)
    requires Writable(sampleRate, |samples|)
    ensures ParseOf(FileOf(samples, sampleRate)) == Read((Info(sampleRate, 1, 16, false, |samples|), Packed(samples, 2)))
  {
    hide Little, Range, FileOf, Packed, FormatAt, Walk, Part, Number, Writable;
    Sizes(samples, sampleRate);
    WalkOfFile(samples, sampleRate);
    PackedLength(samples, 2);
  }

  /** The samples in a data chunk, `n` bytes each. */
  function Values(samples: seq<Byte>, count: nat, n: nat): seq<nat> {
    seq(count, i requires 0 <= i => if n * i + n <= |samples| then Number(samples, n * i, n) else 0)
  }

  lemma ValuesOfPacked(samples: seq<Half>)
    ensures Values(Packed(samples, 2), |samples|, 2) == samples
  {
    hide Packed, Little, LittleValue;
    var p := Packed(samples, 2);
    PackedLength(samples, 2);
    forall i | 0 <= i < |samples| ensures Values(p, |samples|, 2)[i] == samples[i] {
      PackedAt(samples, 2, i);
      HalfBack(samples[i]);
    }
  }

  lemma HalfBack(h: Half)
    ensures LittleValue(Little(h, 2)) == h
  {
    assert Range(1) == 256 && Range(2) == 0x1_0000;
    LittleBack(h, 2);
  }

  /** Samples as read, before they become floats: 16-bit integers or the bits of 32-bit floats. */
  datatype Wave = Integers(values: seq<nat>) | Floats(values: seq<nat>)

  const SAMPLE_RATE: nat := 16_000

  function WaveOf(d: seq<Byte>): Result<Wave> {
    match ParseOf(d)
    case Failed(why) => Failed(why)
    case Read((info, samples)) =>
      if info.sampleRate != SAMPLE_RATE || info.channels != 1 then Failed(Unsupported)
      else if info.isFloat then
        if info.bits != 32 then Failed(Unsupported) else Read(Floats(Values(samples, info.frameCount, 4)))
      else
        if info.bits != 16 then Failed(Unsupported) else Read(Integers(Values(samples, info.frameCount, 2)))
  }

  method ReadWave(d: seq<Byte>) returns (r: Result<Wave>)
    ensures r == WaveOf(d)
    ensures r.Read? <==> ParseOf(d).Read? && var info := ParseOf(d).value.0;
      info.sampleRate == 16_000 && info.channels == 1 && info.bits == (if info.isFloat then 32 else 16)
    ensures r.Read? ==> var (info, samples) := ParseOf(d).value;
      && r.value.Floats? == info.isFloat && |r.value.values| == info.frameCount
      && var n := info.bits / 8;
      forall i :: 0 <= i < info.frameCount && n * i + n <= |samples| ==> r.value.values[i] == Number(samples, n * i, n)
  {
    hide ParseOf, Number;
    var parsed := Parse(d);
    if parsed.Failed? { return Failed(parsed.why); }
    var (info, samples) := parsed.value;
    if info.sampleRate != SAMPLE_RATE || info.channels != 1 { return Failed(Unsupported); }
    if info.bits != (if info.isFloat then 32 else 16) { return Failed(Unsupported); }
    var n := if info.isFloat then 4 else 2;
    var values: seq<nat> := [];
    for index := 0 to info.frameCount
      invariant |values| == index
      invariant forall i :: 0 <= i < index ==> values[i] == Values(samples, info.frameCount, n)[i]
    {
      values := values + [if n * index + n <= |samples| then Number(samples, n * index, n) else 0];
    }
    assert values == Values(samples, info.frameCount, n);
    r := Read(if info.isFloat then Floats(values) else Integers(values));
  }

  /** A finished sidecar reads as the samples that were written. */
  lemma SidecarGivesTheSamplesBack(samples: seq<Half>)
    requires Writable(SAMPLE_RATE, |samples|)
    ensures WaveOf(FileOf(samples, SAMPLE_RATE)) == Read(Integers(samples))
  {
    hide ParseOf, FileOf, Packed, Values;
    ParseGivesTheSamplesBack(samples, SAMPLE_RATE);
    ValuesOfPacked(samples);
  }

  // Files of any chunks.

  datatype Chunk = Chunk(id: seq<Byte>, body: seq<Byte>)

  /** Identifiers of four bytes, sizes of 32 bits, and format chunks with all their fields. */
  ghost predicate WellFormed(chunks: seq<Chunk>) {
    forall c :: c in chunks ==> |c.id| == 4 && |c.body| < 0x1_0000_0000 && (c.id == FMT ==> |c.body| >= 16)
  }

  /** The chunks one after another, one of odd size padded. */
  function Spelled(chunks: seq<Chunk>): seq<Byte> {
    if chunks == [] then []
    else
      var c := chunks[0];
      c.id + Little(|c.body|, 4) + c.body + Padding(c) + Spelled(chunks[1..])
  }

  function Padding(c: Chunk): (p: seq<Byte>)
    ensures |p| == |c.body| % 2
  {
    if |c.body| % 2 == 1 then [0] else []
  }

  /** What a format chunk says, from its own bytes. */
  function FormatIn(b: seq<Byte>): Format
    requires |b| >= 16
  {
    var tag := LittleValue(b[..2]);
    Format(if tag == EXTENSIBLE && |b| >= 26 then LittleValue(b[24..26]) else tag,
           LittleValue(b[2..4]), LittleValue(b[4..8]), LittleValue(b[14..16]))
  }

  /** The last format chunk is the `k`th. */
  ghost predicate IsLast(chunks: seq<Chunk>, id: seq<Byte>, k: nat) {
    k < |chunks| && chunks[k].id == id && forall j :: k < j < |chunks| ==> chunks[j].id != id
  }

  function LastFormat(chunks: seq<Chunk>, format: Option<Format>): Option<Format>
    requires forall c :: c in chunks ==> (c.id == FMT ==> |c.body| >= 16)
  {
    if chunks == [] then format
    else
      assert chunks[0] in chunks;
      LastFormat(chunks[1..], if chunks[0].id == FMT then Some(FormatIn(chunks[0].body)) else format)
  }

  function LastData(chunks: seq<Chunk>, samples: Option<seq<Byte>>): Option<seq<Byte>> {
    if chunks == [] then samples
    else LastData(chunks[1..], if chunks[0].id == DATA then Some(chunks[0].body) else samples)
  }

  lemma LastOfRest(chunks: seq<Chunk>, id: seq<Byte>, k: nat)
    requires chunks != []
    ensures k > 0 && IsLast(chunks, id, k) ==> IsLast(chunks[1..], id, k - 1) && chunks[1..][k - 1] == chunks[k]
    ensures k == 0 && IsLast(chunks, id, k) ==> chunks[0].id == id && forall j :: 0 <= j < |chunks[1..]| ==> chunks[1..][j].id != id
    ensures (forall j :: 0 <= j < |chunks| ==> chunks[j].id != id) ==>
      chunks[0].id != id && forall j :: 0 <= j < |chunks[1..]| ==> chunks[1..][j].id != id
  {
    forall j | 0 <= j < |chunks[1..]| ensures chunks[1..][j] == chunks[j + 1] {}
  }

  lemma {:induction false} LastFormatIs(chunks: seq<Chunk>, format: Option<Format>, k: nat)
    requires WellFormed(chunks)
    ensures IsLast(chunks, FMT, k) ==> LastFormat(chunks, format) == Some(FormatIn(chunks[k].body))
    ensures (forall j :: 0 <= j < |chunks| ==> chunks[j].id != FMT) ==> LastFormat(chunks, format) == format
    decreases chunks
  {
    hide FormatIn;
    if chunks != [] {
      assert chunks[0] in chunks;
      var next, rest := if chunks[0].id == FMT then Some(FormatIn(chunks[0].body)) else format, chunks[1..];
      LastOfRest(chunks, FMT, k);
      LastFormatIs(rest, next, if k > 0 then k - 1 else 0);
      assert LastFormat(chunks, format) == LastFormat(rest, next);
      hide LastFormat;
    }
  }

  lemma {:induction false} LastDataIs(chunks: seq<Chunk>, samples: Option<seq<Byte>>, k: nat)
    ensures IsLast(chunks, DATA, k) ==> LastData(chunks, samples) == Some(chunks[k].body)
    ensures (forall j :: 0 <= j < |chunks| ==> chunks[j].id != DATA) ==> LastData(chunks, samples) == samples
    decreases chunks
  {
    if chunks != [] {
      var next, rest := if chunks[0].id == DATA then Some(chunks[0].body) else samples, chunks[1..];
      LastOfRest(chunks, DATA, k);
      LastDataIs(rest, next, if k > 0 then k - 1 else 0);
      assert LastData(chunks, samples) == LastData(rest, next);
      hide LastData;
    }
  }

  /** A chunk in its place. */
  lemma ChunkFields(front: seq<Byte>, c: Chunk, rest: seq<Byte>)
    requires |c.id| == 4 && |c.body| < 0x1_0000_0000
    ensures var d, at := front + (c.id + Little(|c.body|, 4) + c.body + rest), |front|;
      && at + 8 + |c.body| <= |d|
      && Part(d, at, 4) == c.id && Number(d, at + 4, 4) == |c.body| && Part(d, at + 8, |c.body|) == c.body
  {
    var d, at := front + (c.id + Little(|c.body|, 4) + c.body + rest), |front|;
    hide Little, LittleValue, Range;
    assert d[at..at + 4] == c.id;
    assert d[at + 4..at + 8] == Little(|c.body|, 4);
    assert d[at + 8..at + 8 + |c.body|] == c.body;
    RangeOf48();
    LittleBack(|c.body|, 4);
  }

  lemma FormatOfPart(d: seq<Byte>, at: nat, b: seq<Byte>)
    requires |b| >= 16 && at + |b| <= |d| && Part(d, at, |b|) == b
    ensures FormatAt(d, at, |b|) == FormatIn(b)
  {
    hide LittleValue, Part;
    PartOfPart(d, at, b, 0, 2);
    PartOfPart(d, at, b, 2, 2);
    PartOfPart(d, at, b, 4, 4);
    PartOfPart(d, at, b, 14, 2);
    if |b| >= 26 { PartOfPart(d, at, b, 24, 2); }
  }

  lemma PartOfPart(d: seq<Byte>, at: nat, b: seq<Byte>, from: nat, n: nat)
    requires at + |b| <= |d| && Part(d, at, |b|) == b && from + n <= |b|
    ensures Part(d, at + from, n) == b[from..from + n]
  {
    SubPart(d, at, |b|, from, n);
  }

  lemma {:induction false} WalkOfChunks(front: seq<Byte>, chunks: seq<Chunk>, format: Option<Format>, samples: Option<seq<Byte>>)
    requires WellFormed(chunks)
    ensures Walk(front + Spelled(chunks), |front|, format, samples)
         == Read((LastFormat(chunks, format), LastData(chunks, samples)))
    decreases chunks
  {
    hide Little, FormatIn, Walk, Padding;
    if chunks == [] {
      assert front + [] == front;
      WalkEnds(front, |front|, format, samples);
    } else {
      var c, rest := chunks[0], chunks[1..];
      assert c in chunks;
      var bytes := c.id + Little(|c.body|, 4) + c.body + Padding(c);
      OneChunk(front, c, Spelled(rest), format, samples);
      Associate(front, bytes, Spelled(rest));
      assert Spelled(chunks) == bytes + Spelled(rest);
      WalkOfChunks(front + bytes, rest, if c.id == FMT then Some(FormatIn(c.body)) else format,
                   if c.id == DATA then Some(c.body) else samples);
    }
  }

  lemma OneChunk(front: seq<Byte>, c: Chunk, rest: seq<Byte>, format: Option<Format>, samples: Option<seq<Byte>>)
    requires |c.id| == 4 && |c.body| < 0x1_0000_0000 && (c.id == FMT ==> |c.body| >= 16)
    ensures var bytes := c.id + Little(|c.body|, 4) + c.body + Padding(c);
      var d := front + (bytes + rest);
      Walk(d, |front|, format, samples)
      == Walk(d, |front| + |bytes|, if c.id == FMT then Some(FormatIn(c.body)) else format, if c.id == DATA then Some(c.body) else samples)
  {
    var bytes := c.id + Little(|c.body|, 4) + c.body + Padding(c);
    var d := front + (bytes + rest);
    assert bytes + rest == c.id + Little(|c.body|, 4) + c.body + (Padding(c) + rest);
    ChunkFields(front, c, Padding(c) + rest);
    hide Little, LittleValue, FormatIn, Part, Number, Walk, Padding;
    WalkChunk(d, |front|, c, format, samples);
  }

  lemma WalkChunk(d: seq<Byte>, at: nat, c: Chunk, format: Option<Format>, samples: Option<seq<Byte>>)
    requires at + 8 + |c.body| <= |d| && (c.id == FMT ==> |c.body| >= 16)
    requires Part(d, at, 4) == c.id && Number(d, at + 4, 4) == |c.body| && Part(d, at + 8, |c.body|) == c.body
    ensures Walk(d, at, format, samples)
         == Walk(d, at + 8 + |c.body| + |c.body| % 2, if c.id == FMT then Some(FormatIn(c.body)) else format,
                 if c.id == DATA then Some(c.body) else samples)
  {
    if c.id == FMT { FormatOfPart(d, at + 8, c.body); }
    hide FormatAt, FormatIn, Part, Number;
  }

  /** One frame takes at least a byte. */
  function FrameBytes(f: Format): (n: nat)
    ensures n > 0
  {
    if f.channels * f.bits < 8 then 1 else f.channels * f.bits / 8
  }

  /** Integers and floats are read, any other format is refused. */
  ghost predicate ParsesAs(d: seq<Byte>, f: Format, data: seq<Byte>) {
    if f.tag == 1 || f.tag == 3
    then ParseOf(d) == Read((Info(f.sampleRate, f.channels, f.bits, f.tag == 3, |data| / FrameBytes(f)), data))
    else ParseOf(d) == Failed(Unsupported)
  }

  lemma ParsesFrom(d: seq<Byte>, f: Format, data: seq<Byte>)
    requires |d| >= 12 && Part(d, 0, 4) == RIFF && Part(d, 8, 4) == WAVE && Walk(d, 12, None, None) == Read((Some(f), Some(data)))
    ensures ParsesAs(d, f, data)
  {
    hide Walk, Part;
  }

  lemma HeaderOfChunks(size: seq<Byte>, chunks: seq<Chunk>)
    requires |size| == 4 && WellFormed(chunks)
    ensures var d := RIFF + size + WAVE + Spelled(chunks);
      && |d| >= 12 && Part(d, 0, 4) == RIFF && Part(d, 8, 4) == WAVE
      && Walk(d, 12, None, None) == Read((LastFormat(chunks, None), LastData(chunks, None)))
  {
    WalkOfChunks(RIFF + size + WAVE, chunks, None, None);
    hide Walk, LastFormat, LastData, Spelled;
  }

  /** Main result: a file of any chunks parses to its last format chunk and its last data chunk, whatever
      chunks stand before, between and behind them and whatever the file's own size says; without one of
      the two it is refused. */
  lemma ChunksParse(size: seq<Byte>, chunks: seq<Chunk>, k: nat, l: nat)
    requires |size| == 4 && WellFormed(chunks)
    ensures var d := RIFF + size + WAVE + Spelled(chunks);
      && ((forall j :: 0 <= j < |chunks| ==> chunks[j].id != FMT) ==> ParseOf(d) == Failed(NoFormat))
      && (IsLast(chunks, FMT, k) && (forall j :: 0 <= j < |chunks| ==> chunks[j].id != DATA) ==> ParseOf(d) == Failed(NoData))
      && (IsLast(chunks, FMT, k) && IsLast(chunks, DATA, l) ==>
            |chunks[k].body| >= 16 && ParsesAs(d, FormatIn(chunks[k].body), chunks[l].body))
  {
    assert IsLast(chunks, FMT, k) ==> chunks[k] in chunks;
    hide Walk, FormatIn, Little, LastFormat, LastData, Spelled, InfoOf, ParsesAs, Part;
    var d := RIFF + size + WAVE + Spelled(chunks);
    HeaderOfChunks(size, chunks);
    LastFormatIs(chunks, None, k);
    LastDataIs(chunks, None, l);
    if IsLast(chunks, FMT, k) && IsLast(chunks, DATA, l) { ParsesFrom(d, FormatIn(chunks[k].body), chunks[l].body); }
  }
}
