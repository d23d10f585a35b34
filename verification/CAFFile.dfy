/** The master recording: a CAF file that a crash leaves readable (`CAFFile.swift`). */
module CAFFile {
  import opened Arithmetic
  import opened Bytes
  import opened Options

  /** The bits of a Float32 sample. */
  type Word = w: nat | w < 0x1_0000_0000

  const CAFF: seq<Byte> := [0x63, 0x61, 0x66, 0x66]
  const DESC: seq<Byte> := [0x64, 0x65, 0x73, 0x63]
  const DATA: seq<Byte> := [0x64, 0x61, 0x74, 0x61]
  const LPCM: seq<Byte> := [0x6C, 0x70, 0x63, 0x6D]

  const DESC_SIZE: nat := 32
  const EDIT_COUNT_SIZE: nat := 4
  const BYTES_PER_SAMPLE: nat := 4
  const BITS_PER_SAMPLE: nat := 32
  const FLOAT_LITTLE_ENDIAN: nat := 3
  const HEADER_SIZE: nat := 68
  const DATA_SIZE_OFFSET: nat := 56

  /** The first number an Int64 cannot hold; arithmetic that reaches it traps. */
  const INT64_END: nat := 0x8000_0000_0000_0000

  /** Of a size field: to the end of the file. */
  const OPEN_END: seq<Byte> := [255, 255, 255, 255, 255, 255, 255, 255]

  // The file.

  function FileHeader(): seq<Byte> {
    CAFF + Big(1, 2) + Big(0, 2)
  }

  /** The body of the `desc` chunk. */
  function Description(rate: nat, channels: nat): seq<Byte> {
    Big(rate, 8) + LPCM + Big(FLOAT_LITTLE_ENDIAN, 4) + Big(channels * BYTES_PER_SAMPLE, 4) + Big(1, 4) + Big(channels, 4)
    + Big(BITS_PER_SAMPLE, 4)
  }

  /** Everything before the data chunk's size. */
  function Head(rate: nat, channels: nat): seq<Byte> {
    FileHeader() + DESC + Big(DESC_SIZE, 8) + Description(rate, channels) + DATA
  }

  function Header(rate: nat, channels: nat, size: seq<Byte>): seq<Byte> {
    Head(rate, channels) + size + Big(0, EDIT_COUNT_SIZE)
  }

  /** The size field of a finished file of `count` samples: the edit count and the samples. */
  function SizeBytes(count: nat): (field: seq<Byte>)
    ensures |field| == 8
  {
    Big(EDIT_COUNT_SIZE + 4 * count, 8)
  }

  // Reading.

  datatype CAF = CAF(rate: nat, channels: seq<seq<nat>>)

  datatype Format = Format(rate: nat, flags: nat, channels: nat, bits: nat, id: seq<Byte>)

  /** `Overflow` stands for the trap of a chunk that ends past every Int64. */
  datatype Failure = NoHeader | ShortDesc | ShortData | NoDesc | NoData | Unsupported | Overflow

  datatype Result<+T> = Read(value: T) | Failed(why: Failure)

  /** Where the samples are: their first byte and how many bytes. */
  datatype Span = Span(at: nat, count: nat)

  function FormatAt(d: seq<Byte>, body: nat): Format
    requires body + DESC_SIZE <= |d|
  {
    Format(
      BigValue(Part(d, body, 8)), BigValue(Part(d, body + 12, 4)), BigValue(Part(d, body + 24, 4)),
      BigValue(Part(d, body + 28, 4)), Part(d, body + 8, 4))
  }

  function SpanAt(d: seq<Byte>, body: nat, size: int): (s: Span)
    requires body + EDIT_COUNT_SIZE <= |d|
    ensures s.at + s.count <= |d|
  {
    var available := |d| - body - EDIT_COUNT_SIZE;
    var count := if size < 0 then available else if size - EDIT_COUNT_SIZE < available then size - EDIT_COUNT_SIZE else available;
    Span(body + EDIT_COUNT_SIZE, if count < 0 then 0 else count)
  }

  /** The last format and the last sample span among the chunks from `offset`. */
  function Walk(d: seq<Byte>, offset: nat, format: Option<Format>, span: Option<Span>): Result<(Option<Format>, Option<Span>)>
    decreases |d| - offset
  {
    if offset + 12 > |d| then Read((format, span))
    else
      var id := Part(d, offset, 4);
      var size := Signed(Part(d, offset + 4, 8));
      var body := offset + 12;
      if id == DESC && (size < DESC_SIZE || body + DESC_SIZE > |d|) then Failed(ShortDesc)
      else if id == DATA && body + EDIT_COUNT_SIZE > |d| then Failed(ShortData)
      else
        var f := if id == DESC then Some(FormatAt(d, body)) else format;
        var s := if id == DATA then Some(SpanAt(d, body, size)) else span;
        if size < 0 then Read((f, s))
        else if body + size >= INT64_END then Failed(Overflow)
        else Walk(d, body + size, f, s)
  }

  /** The `index`th sample of a span. */
  function SampleAt(d: seq<Byte>, at: nat, index: nat): nat {
    if at + 4 * index + 4 <= |d| then LittleValue(Part(d, at + 4 * index, 4)) else 0
  }

  /** Channel `c` of frame `f`. */
  function InFrame(d: seq<Byte>, at: nat, channels: nat, f: nat, c: nat): nat {
    SampleAt(d, at, f * channels + c)
  }

  function Lane(d: seq<Byte>, at: nat, frames: nat, channels: nat, c: nat): seq<nat> {
    seq(frames, f requires 0 <= f => InFrame(d, at, channels, f, c))
  }

  function Lanes(d: seq<Byte>, at: nat, frames: nat, channels: nat): seq<seq<nat>> {
    seq(channels, c requires 0 <= c => Lane(d, at, frames, channels, c))
  }

  /** The whole frames in `count` bytes. */
  function FramesIn(count: nat, channels: nat): (frames: nat)
    requires channels > 0
    ensures frames * channels * 4 <= count
  {
    WholeFrames(count, channels, count / (BYTES_PER_SAMPLE * channels));
    count / (BYTES_PER_SAMPLE * channels)
  }

  lemma WholeFrames(count: nat, channels: nat, frames: nat)
    requires channels > 0 && frames == count / (BYTES_PER_SAMPLE * channels)
    ensures frames * channels * 4 <= count
  {
    var k := BYTES_PER_SAMPLE * channels;
    assert k > 0 && count == k * (count / k) + count % k;
    assert frames * channels * 4 == k * frames;
  }

  function Decode(d: seq<Byte>, format: Format, span: Span): Result<CAF> {
    if format.id != LPCM || format.flags % 4 != FLOAT_LITTLE_ENDIAN || format.bits != BITS_PER_SAMPLE
    then Failed(Unsupported)
    else
      var channels := if format.channels < 1 then 1 else format.channels;
      var frames := FramesIn(span.count, channels);
      Read(CAF(format.rate, Lanes(d, span.at, frames, channels)))
  }

  /** What reading a file gives. */
  function ReadOf(d: seq<Byte>): Result<CAF> {
    if |d| < 8 || Part(d, 0, 4) != CAFF then Failed(NoHeader)
    else
      match Walk(d, 8, None, None)
      case Failed(why) => Failed(why)
      case Read((None, _)) => Failed(NoDesc)
      case Read((_, None)) => Failed(NoData)
      case Read((Some(format), Some(span))) => Decode(d, format, span)
  }

  // What a written file reads as.

  /** Channel `c` of the first `frames` frames of interleaved samples. */
  function Deinterleaved(samples: seq<Word>, frames: nat, channels: nat, c: nat): (lane: seq<nat>)
    requires c < channels && frames * channels <= |samples|
  {
    seq(frames, f requires 0 <= f < frames => (FrameFits(f, frames, channels, c); samples[f * channels + c]))
  }

  lemma FrameFits(f: nat, frames: nat, channels: nat, c: nat)
    requires f < frames && c < channels
    ensures f * channels + c < frames * channels
  {
    assert (f + 1) * channels <= frames * channels;
  }

  function Frames(samples: seq<Word>, frames: nat, channels: nat): seq<seq<nat>>
    requires frames * channels <= |samples|
  {
    seq(channels, c requires 0 <= c < channels => Deinterleaved(samples, frames, channels, c))
  }

  lemma DescriptionFields(rate: nat, channels: nat)
    ensures var b := Description(rate, channels);
      && |b| == DESC_SIZE
      && Part(b, 0, 8) == Big(rate, 8) && Part(b, 8, 4) == LPCM && Part(b, 12, 4) == Big(FLOAT_LITTLE_ENDIAN, 4)
      && Part(b, 24, 4) == Big(channels, 4) && Part(b, 28, 4) == Big(BITS_PER_SAMPLE, 4)
  {
    hide Big;
    var b := Description(rate, channels);
    assert b[28..] == Big(BITS_PER_SAMPLE, 4) && b[28..32] == b[28..];
  }

  lemma HeadFields(rate: nat, channels: nat)
    ensures var h := Head(rate, channels);
      && |h| == DATA_SIZE_OFFSET
      && Part(h, 0, 4) == CAFF && Part(h, 8, 4) == DESC && Part(h, 12, 8) == Big(DESC_SIZE, 8)
      && Part(h, 20, DESC_SIZE) == Description(rate, channels) && Part(h, 52, 4) == DATA
  {
    DescriptionFields(rate, channels);
    hide Big, Description;
  }

  ghost predicate Writable(rate: nat, channels: nat) {
    0 < channels && channels * BYTES_PER_SAMPLE < Range(4) && rate < Range(8)
  }

  function WrittenFormat(rate: nat, channels: nat): Format {
    Format(rate, FLOAT_LITTLE_ENDIAN, channels, BITS_PER_SAMPLE, LPCM)
  }

  lemma FormatOfHead(rate: nat, channels: nat, d: seq<Byte>)
    requires Writable(rate, channels)
    requires |d| >= DATA_SIZE_OFFSET && d[..DATA_SIZE_OFFSET] == Head(rate, channels)
    ensures FormatAt(d, 20) == WrittenFormat(rate, channels)
  {
    var b := Description(rate, channels);
    HeadFields(rate, channels);
    DescriptionFields(rate, channels);
    hide Big, BigValue, Head, Description, Range;
    PrefixPart(d, Head(rate, channels), 20, DESC_SIZE);
    assert d[20..52] == b;
    assert Part(d, 20, 8) == Part(b, 0, 8) && Part(d, 28, 4) == Part(b, 8, 4) && Part(d, 32, 4) == Part(b, 12, 4);
    assert Part(d, 44, 4) == Part(b, 24, 4) && Part(d, 48, 4) == Part(b, 28, 4);
    RangeOf48();
    BigBack(rate, 8);
    BigBack(FLOAT_LITTLE_ENDIAN, 4);
    BigBack(channels, 4);
    BigBack(BITS_PER_SAMPLE, 4);
  }

  lemma DescSize()
    ensures Signed(Big(DESC_SIZE, 8)) == DESC_SIZE
  {
    RangeOf48();
    SignedBack(DESC_SIZE, 8);
  }

  /** Reading a written header: the format, and the samples as far as the size field and the file go. */
  lemma WalkOfWritten(rate: nat, channels: nat, size: seq<Byte>, payload: seq<Byte>)
    requires Writable(rate, channels) && |size| == 8
    ensures var d := Header(rate, channels, size) + payload;
      && |d| == HEADER_SIZE + |payload| && Part(d, 0, 4) == CAFF
      && var format, span := Some(WrittenFormat(rate, channels)), Some(SpanAt(d, 64, Signed(size)));
        && Walk(d, 8, None, None) == (
          if Signed(size) < 0 then Read((format, span))
          else if 64 + Signed(size) >= INT64_END then Failed(Overflow)
          else Walk(d, 64 + Signed(size), format, span))
  {
    var h, d := Head(rate, channels), Header(rate, channels, size) + payload;
    hide Big, BigValue, Head, Description, Range, FormatAt, SpanAt, Signed, Walk;
    HeadFields(rate, channels);
    DescSize();
    assert d[..DATA_SIZE_OFFSET] == h;
    FormatOfHead(rate, channels, d);
    PrefixPart(d, h, 0, 4);
    PrefixPart(d, h, 8, 4);
    PrefixPart(d, h, 12, 8);
    PrefixPart(d, h, 52, 4);
    assert Part(d, 56, 8) == size;
    WalkStep(d, 8, None, None);
    WalkStep(d, 52, Some(FormatAt(d, 20)), None);
  }

  /** One chunk of the walk. */
  lemma WalkStep(d: seq<Byte>, offset: nat, format: Option<Format>, span: Option<Span>)
    requires offset + 16 <= |d|
    ensures var id, size, body := Part(d, offset, 4), Signed(Part(d, offset + 4, 8)), offset + 12;
      && (id == DESC && size >= DESC_SIZE && body + size < INT64_END && body + DESC_SIZE <= |d|
        ==> Walk(d, offset, format, span) == Walk(d, body + size, Some(FormatAt(d, body)), span))
      && (id == DATA && size < 0 ==> Walk(d, offset, format, span) == Read((format, Some(SpanAt(d, body, size)))))
      && (id == DATA && size >= 0 && body + size >= INT64_END ==> Walk(d, offset, format, span) == Failed(Overflow))
      && (id == DATA && size >= 0 && body + size < INT64_END
        ==> Walk(d, offset, format, span) == Walk(d, body + size, format, Some(SpanAt(d, body, size))))
  {
    hide FormatAt, SpanAt, Signed;
  }

  /** A lane decoded from the bytes of samples is that lane of the samples. */
  lemma LaneOfPacked(d: seq<Byte>, samples: seq<Word>, n: nat, frames: nat, channels: nat, c: nat)
    requires HEADER_SIZE + n <= |d| && n <= |Packed(samples, 4)| && Part(d, HEADER_SIZE, n) == Packed(samples, 4)[..n]
    requires c < channels && frames * channels * 4 <= n && frames * channels <= |samples|
    ensures Lane(d, HEADER_SIZE, frames, channels, c) == Deinterleaved(samples, frames, channels, c)
  {
    hide LittleValue, Packed, Little, Range;
    forall f | 0 <= f < frames
      ensures SampleAt(d, HEADER_SIZE, f * channels + c) == Deinterleaved(samples, frames, channels, c)[f]
    {
      FrameFits(f, frames, channels, c);
      var i := f * channels + c;
      SampleOfPacked(d, samples, n, i);
    }
  }

  lemma SampleOfPacked(d: seq<Byte>, samples: seq<Word>, n: nat, i: nat)
    requires HEADER_SIZE + n <= |d| && n <= |Packed(samples, 4)| && Part(d, HEADER_SIZE, n) == Packed(samples, 4)[..n]
    requires i < |samples| && 4 * i + 4 <= n
    ensures SampleAt(d, HEADER_SIZE, i) == samples[i]
  {
    hide LittleValue, Packed, Little, Range;
    PackedAt(samples, 4, i);
    var p, held := Packed(samples, 4), Part(d, HEADER_SIZE, n);
    assert held[4 * i..4 * i + 4] == p[..n][4 * i..4 * i + 4] == p[4 * i..4 * i + 4];
    SubPart(d, HEADER_SIZE, n, 4 * i, 4);
    RangeOf48();
    LittleBack(samples[i], 4);
  }

  /** The whole frames of the first `n` bytes of samples, channel by channel. */
  function Whole(rate: nat, channels: nat, samples: seq<Word>, n: nat): CAF
    requires channels > 0 && n <= 4 * |samples|
  {
    CAF(rate, Frames(samples, FramesIn(n, channels), channels))
  }

  /** Main result: whatever the size field says, as long as it reaches the end of the file, and wherever
      the file was cut, reading gives exactly the whole frames the cut left, channel by channel. */
  lemma CutFileReadsWholeFrames(rate: nat, channels: nat, size: seq<Byte>, samples: seq<Word>, n: nat)
    requires Writable(rate, channels) && |size| == 8 && n <= 4 * |samples|
    requires Signed(size) < 0 || (EDIT_COUNT_SIZE + n <= Signed(size) && 64 + Signed(size) < INT64_END)
    ensures n <= |Packed(samples, 4)|
    ensures ReadOf(Header(rate, channels, size) + Packed(samples, 4)[..n]) == Read(Whole(rate, channels, samples, n))
  {
    PackedLength(samples, 4);
    var payload := Packed(samples, 4)[..n];
    var d := Header(rate, channels, size) + payload;
    WalkOfWritten(rate, channels, size, payload);
    HeaderThen(rate, channels, size, payload);
    DecodeOfPacked(d, rate, channels, samples, n);
    hide Packed, Header, Signed, Range, Decode, Whole, Walk;
    assert SpanAt(d, 64, Signed(size)) == Span(HEADER_SIZE, n);
    assert Walk(d, 8, None, None) == Read((Some(WrittenFormat(rate, channels)), Some(Span(HEADER_SIZE, n)))) by {
      if Signed(size) >= 0 { WalkEnds(d, 64 + Signed(size), Some(WrittenFormat(rate, channels)), Some(Span(HEADER_SIZE, n))); }
    }
  }

  lemma WalkEnds(d: seq<Byte>, offset: nat, format: Option<Format>, span: Option<Span>)
    requires offset + 12 > |d|
    ensures Walk(d, offset, format, span) == Read((format, span))
  {}

  lemma DecodeOfPacked(d: seq<Byte>, rate: nat, channels: nat, samples: seq<Word>, n: nat)
    requires channels > 0 && n <= 4 * |samples|
    requires HEADER_SIZE + n <= |d| && n <= |Packed(samples, 4)| && Part(d, HEADER_SIZE, n) == Packed(samples, 4)[..n]
    ensures Decode(d, WrittenFormat(rate, channels), Span(HEADER_SIZE, n)) == Read(Whole(rate, channels, samples, n))
  {
    hide Packed, Lane, Deinterleaved, FramesIn;
    var frames := FramesIn(n, channels);
    forall c | 0 <= c < channels
      ensures Lane(d, HEADER_SIZE, frames, channels, c) == Deinterleaved(samples, frames, channels, c)
    {
      LaneOfPacked(d, samples, n, frames, channels, c);
    }
    assert Lanes(d, HEADER_SIZE, frames, channels) == Frames(samples, frames, channels);
  }

  lemma HeaderThen(rate: nat, channels: nat, size: seq<Byte>, payload: seq<Byte>)
    requires |size| == 8
    ensures |Header(rate, channels, size)| == HEADER_SIZE
    ensures (Header(rate, channels, size) + payload)[HEADER_SIZE..] == payload
  {
    HeadFields(rate, channels);
  }

  /** A crash while recording, after any number of sample bytes. */
  lemma CrashWhileRecording(rate: nat, channels: nat, samples: seq<Word>, n: nat)
    requires Writable(rate, channels) && n <= 4 * |samples|
    ensures n <= |Packed(samples, 4)|
    ensures ReadOf(Header(rate, channels, OPEN_END) + Packed(samples, 4)[..n]) == Read(Whole(rate, channels, samples, n))
  {
    OpenEnd();
    CutFileReadsWholeFrames(rate, channels, OPEN_END, samples, n);
  }

  lemma OpenEnd()
    ensures Signed(OPEN_END) < 0
  {
    BigBelow(OPEN_END);
  }

  /** The size field once `k` of its eight bytes have been patched. */
  function Patched(size: nat, k: nat): (field: seq<Byte>)
    requires k <= 8
    ensures |field| == 8
  {
    Big(size, 8)[..k] + OPEN_END[k..]
  }

  /** Of a size from here on the first byte alone, before the open end's others, makes a chunk that ends
      past every Int64. */
  const PATCH_END: nat := 0x7F00_0000_0000_0000

  /** Main result: a crash inside the patch of the size loses nothing, whichever of its bytes reached the
      disk, exactly as long as the size is below `PATCH_END`: the field then reaches past the file or stays
      open. */
  lemma CrashWhilePatching(rate: nat, channels: nat, samples: seq<Word>)
    requires Writable(rate, channels) && HEADER_SIZE + 4 * |samples| < INT64_END
    ensures (forall k: nat :: k <= 8 ==> PatchedReads(rate, channels, samples, k))
        <==> EDIT_COUNT_SIZE + 4 * |samples| < PATCH_END
  {
    hide PatchedReads;
    var size := EDIT_COUNT_SIZE + 4 * |samples|;
    if size < PATCH_END {
      forall k: nat | k <= 8 ensures PatchedReads(rate, channels, samples, k) { PatchLosesNothing(rate, channels, samples, k); }
    } else {
      HugePatchTraps(rate, channels, samples);
      assert !PatchedReads(rate, channels, samples, 1);
    }
  }

  /** A file whose size field has had `k` bytes patched reads back whole. */
  predicate PatchedReads(rate: nat, channels: nat, samples: seq<Word>, k: nat)
    requires channels > 0 && k <= 8
  {
    ReadOf(Header(rate, channels, Patched(EDIT_COUNT_SIZE + 4 * |samples|, k)) + Packed(samples, 4))
      == Read(Whole(rate, channels, samples, 4 * |samples|))
  }

  lemma PatchLosesNothing(rate: nat, channels: nat, samples: seq<Word>, k: nat)
    requires Writable(rate, channels) && k <= 8 && EDIT_COUNT_SIZE + 4 * |samples| < PATCH_END
    ensures PatchedReads(rate, channels, samples, k)
  {
    hide Packed, Patched, Signed, Range, Header, ReadOf, Whole;
    var size := EDIT_COUNT_SIZE + 4 * |samples|;
    PackedLength(samples, 4);
    assert Packed(samples, 4)[..4 * |samples|] == Packed(samples, 4);
    PatchReaches(size, k);
    CutFileReadsWholeFrames(rate, channels, Patched(size, k), samples, 4 * |samples|);
  }

  lemma HugePatchTraps(rate: nat, channels: nat, samples: seq<Word>)
    requires Writable(rate, channels) && PATCH_END <= EDIT_COUNT_SIZE + 4 * |samples| < INT64_END
    ensures !PatchedReads(rate, channels, samples, 1)
  {
    hide Packed, Patched, Signed, Range, Header, Whole, Walk;
    var size := EDIT_COUNT_SIZE + 4 * |samples|;
    FirstPatchByte(size);
    WalkOfWritten(rate, channels, Patched(size, 1), Packed(samples, 4));
  }

  lemma FirstPatchByte(size: nat)
    requires PATCH_END <= size < INT64_END
    ensures Signed(Patched(size, 1)) == INT64_END - 1
  {
    var field := Patched(size, 1);
    RangeOf48();
    BigFirst(size, 8, 127);
    BigFirst(size, 8, 128);
    assert field == [127, 255, 255, 255, 255, 255, 255, 255];
    assert field[..1] == [127] && [127][..0] == [];
    assert field[..2] == [127, 255] && field[..2][..1] == field[..1] && field[..3][..2] == field[..2];
    assert field[..4][..3] == field[..3] && field[..5][..4] == field[..4] && field[..6][..5] == field[..5];
    assert field[..7][..6] == field[..6] && field[..8][..7] == field[..7];
    assert BigValue(field[..1]) == 127;
    assert BigValue(field[..2]) == 0x7FFF;
    assert BigValue(field[..3]) == 0x7F_FFFF;
    assert BigValue(field[..4]) == 0x7FFF_FFFF;
    assert BigValue(field[..5]) == 0x7F_FFFF_FFFF;
    assert BigValue(field[..6]) == 0x7FFF_FFFF_FFFF;
    assert BigValue(field[..7]) == 0x7F_FFFF_FFFF_FFFF;
  }

  lemma SizeBack(count: nat)
    requires EDIT_COUNT_SIZE + 4 * count < INT64_END
    ensures Signed(SizeBytes(count)) == EDIT_COUNT_SIZE + 4 * count
  {
    RangeOf48();
    SignedBack(EDIT_COUNT_SIZE + 4 * count, 8);
  }

  /** A finished file holds everything. */
  lemma FinishedFileReadsAll(rate: nat, channels: nat, samples: seq<Word>)
    requires Writable(rate, channels) && HEADER_SIZE + 4 * |samples| < INT64_END
    ensures ReadOf(Header(rate, channels, SizeBytes(|samples|)) + Packed(samples, 4))
         == Read(Whole(rate, channels, samples, 4 * |samples|))
  {
    hide Packed, SizeBytes, Signed, Range, Header, ReadOf, Whole;
    PackedLength(samples, 4);
    SizeBack(|samples|);
    assert Packed(samples, 4)[..4 * |samples|] == Packed(samples, 4);
    CutFileReadsWholeFrames(rate, channels, SizeBytes(|samples|), samples, 4 * |samples|);
  }

  lemma {:induction false} BigMonotone(a: seq<Byte>, b: seq<Byte>)
    requires |a| == |b| && forall i :: 0 <= i < |a| ==> a[i] <= b[i]
    ensures BigValue(a) <= BigValue(b)
  {
    if a != [] { BigMonotone(a[..|a| - 1], b[..|b| - 1]); }
  }

  lemma PatchReaches(size: nat, k: nat)
    requires size < PATCH_END && k <= 8
    ensures var field := Patched(size, k);
      Signed(field) < 0 || (size <= Signed(field) && 64 + Signed(field) < INT64_END)
  {
    var full, field := Big(size, 8), Patched(size, k);
    RangeOf48();
    if k == 0 {
      assert field == OPEN_END;
      OpenEnd();
    } else {
      BigFirst(size, 8, 127);
      forall i | 0 <= i < 8 ensures full[i] <= field[i] {}
      BigMonotone(full, field);
      BigBack(size, 8);
      BigBelowTop(field, 127);
    }
  }

  // The writer.

  /** Appends whole frames and patches the size at the end. `accepted` holds the samples of the writes
      that succeeded before any was cut short, `torn` every byte from the first cut write on, and `late`
      the samples of the writes counted after it. */
  class CAFStreamWriter {
    const rate: nat
    const channels: nat
    var file: seq<Byte>
    var framesWritten: nat
    var isFinished: bool
    ghost var accepted: seq<Word>
    ghost var torn: seq<Byte>
    ghost var late: nat

    ghost predicate Valid()
      reads this
    {
      && Writable(rate, channels)
      && framesWritten * channels == |accepted| + late && (torn == [] ==> late == 0)
      && file == Header(rate, channels, SizeField(isFinished, |accepted| + late)) + (Packed(accepted, 4) + torn)
    }

    constructor (rate: nat, channels: nat)
      requires Writable(rate, channels)
      ensures Valid() && this.rate == rate && this.channels == channels && !isFinished
      ensures accepted == [] && torn == [] && framesWritten == 0
    {
      this.rate := rate;
      this.channels := channels;
      file := Header(rate, channels, OPEN_END);
      framesWritten := 0;
      isFinished := false;
      accepted, torn, late := [], [], 0;
      new;
      hide Header;
      assert file == Header(rate, channels, OPEN_END) + ([] + []);
    }

    /** `room` is how many more bytes the disk takes; a write past it fails part way. What comes after a
        cut write stays behind it. */
    method Write(interleaved: array<Word>, frameCount: nat, room: nat) returns (ok: bool)
      requires Valid() && frameCount * channels <= interleaved.Length
      modifies this
      ensures Valid() && isFinished == old(isFinished)
      ensures frameCount == 0 || isFinished ==>
        ok && accepted == old(accepted) && torn == old(torn) && late == old(late)
      ensures frameCount > 0 && !isFinished ==>
        Appended(old(accepted), old(torn), old(late), interleaved[..frameCount * channels], room, ok)
      ensures framesWritten == old(framesWritten) + (if ok && !isFinished then frameCount else 0)
    {
      if frameCount == 0 || isFinished { return true; }
      ok := Append(interleaved[..frameCount * channels], frameCount, room);
    }

    /** What appending `samples` leaves of what was there before. */
    ghost predicate Appended(accepted: seq<Word>, torn: seq<Byte>, late: nat, samples: seq<Word>, room: nat, ok: bool)
      reads this
    {
      && ok == (4 * |samples| <= room)
      && (if torn == [] && ok then this.accepted == accepted + samples && this.torn == [] && this.late == 0
          else
            && this.accepted == accepted && this.torn == torn + Fitting(Packed(samples, 4), room)
            && this.late == late + if ok then |samples| else 0)
    }

    /** The bytes of some frames behind the rest, as far as the disk takes them. */
    method Append(samples: seq<Word>, frameCount: nat, room: nat) returns (ok: bool)
      requires Valid() && !isFinished && |samples| == frameCount * channels
      modifies this`file, this`framesWritten, this`accepted, this`torn, this`late
      ensures Valid() && Appended(old(accepted), old(torn), old(late), samples, room, ok)
      ensures framesWritten == old(framesWritten) + if ok then frameCount else 0
    {
      hide Header, Packed, Writable;
      var bytes := Packed(samples, 4);
      PackedLength(samples, 4);
      AppendBytes(Header(rate, channels, OPEN_END), accepted, samples, 4, room);
      AppendBehind(Header(rate, channels, OPEN_END), Packed(accepted, 4), torn, Fitting(bytes, room));
      file := file + if |bytes| > room then bytes[..room] else bytes;
      ok := |bytes| <= room;
      if ok && torn == [] {
        accepted := accepted + samples;
      } else {
        torn := torn + Fitting(bytes, room);
        late := late + if ok then |samples| else 0;
      }
      if ok {
        FramesAdd(framesWritten, frameCount, channels);
        framesWritten := framesWritten + frameCount;
      }
    }

    /** Writes the size over the open end. */
    method Finish()
      requires Valid() && HEADER_SIZE + 4 * (|accepted| + late) < INT64_END
      modifies this`file, this`isFinished
      ensures Valid() && isFinished
    {
      if isFinished { return; }
      isFinished := true;
      var patch := SizeBytes(framesWritten * channels);
      hide Header, Packed, Writable, SizeBytes;
      PatchedHeader(rate, channels, OPEN_END, patch, Packed(accepted, 4) + torn);
      file := file[..DATA_SIZE_OFFSET] + patch + file[DATA_SIZE_OFFSET + 8..];
    }
  }

  ghost function SizeField(isFinished: bool, count: nat): (field: seq<Byte>)
    ensures |field| == 8
  {
    if isFinished then SizeBytes(count) else OPEN_END
  }

  lemma FramesAdd(a: nat, b: nat, channels: nat)
    ensures (a + b) * channels == a * channels + b * channels
  {}

  lemma PatchedHeader(rate: nat, channels: nat, before: seq<Byte>, after: seq<Byte>, payload: seq<Byte>)
    requires |before| == 8 && |after| == 8
    ensures var file := Header(rate, channels, before) + payload;
      && |file| >= HEADER_SIZE
      && file[..DATA_SIZE_OFFSET] + after + file[DATA_SIZE_OFFSET + 8..] == Header(rate, channels, after) + payload
  {
    HeadFields(rate, channels);
    hide Head, Big;
  }

  // A file finished over a torn write.

  /** From `offset` on the walk meets a short chunk it cannot do without, or one that ends past every
      Int64. */
  predicate Broken(d: seq<Byte>, offset: nat)
    decreases |d| - offset
  {
    offset + 12 <= |d|
    && (var id, size, body := Part(d, offset, 4), Signed(Part(d, offset + 4, 8)), offset + 12;
        || (id == DESC && (size < DESC_SIZE || body + DESC_SIZE > |d|))
        || (id == DATA && body + EDIT_COUNT_SIZE > |d|)
        || (size >= 0 && (body + size >= INT64_END || Broken(d, body + size))))
  }

  /** From `offset` on the walk meets a data chunk. */
  predicate MeetsData(d: seq<Byte>, offset: nat)
    decreases |d| - offset
  {
    offset + 12 <= |d|
    && (var id, size, body := Part(d, offset, 4), Signed(Part(d, offset + 4, 8)), offset + 12;
        id == DATA || (0 <= size && body + size < INT64_END && MeetsData(d, body + size)))
  }

  /** What the last `desc` chunk from `offset` on says, or `format` where there is none. */
  function LastFormat(d: seq<Byte>, offset: nat, format: Format): Format
    requires !Broken(d, offset)
    decreases |d| - offset
  {
    if offset + 12 > |d| then format
    else
      var id, size, body := Part(d, offset, 4), Signed(Part(d, offset + 4, 8)), offset + 12;
      var f := if id == DESC then FormatAt(d, body) else format;
      if size < 0 then f else LastFormat(d, body + size, f)
  }

  /** Where the last data chunk from `offset` on has its samples, or `span` where there is none. */
  function LastSpan(d: seq<Byte>, offset: nat, span: Span): Span
    requires !Broken(d, offset)
    decreases |d| - offset
  {
    if offset + 12 > |d| then span
    else
      var id, size, body := Part(d, offset, 4), Signed(Part(d, offset + 4, 8)), offset + 12;
      var s := if id == DATA then SpanAt(d, body, size) else span;
      if size < 0 then s else LastSpan(d, body + size, s)
  }

  lemma {:induction false} WalkOutcome(d: seq<Byte>, offset: nat, format: Format, span: Span)
    ensures Walk(d, offset, Some(format), Some(span)).Failed? <==> Broken(d, offset)
    ensures !Broken(d, offset) ==>
      Walk(d, offset, Some(format), Some(span)) == Read((Some(LastFormat(d, offset, format)), Some(LastSpan(d, offset, span))))
    decreases |d| - offset
  {
    hide Signed, FormatAt, SpanAt;
    if offset + 12 <= |d| {
      var id, size, body := Part(d, offset, 4), Signed(Part(d, offset + 4, 8)), offset + 12;
      if size >= 0 && !(id == DESC && (size < DESC_SIZE || body + DESC_SIZE > |d|))
         && !(id == DATA && body + EDIT_COUNT_SIZE > |d|) {
        WalkOutcome(d, body + size, if id == DESC then FormatAt(d, body) else format,
                    if id == DATA then SpanAt(d, body, size) else span);
      }
    }
  }

  /** The samples found so far are replaced exactly when a data chunk is met later. */
  lemma {:induction false} LaterDataReplacesTheSamples(d: seq<Byte>, offset: nat, span: Span)
    requires span.at < offset + 16 && !Broken(d, offset)
    ensures LastSpan(d, offset, span) == span <==> !MeetsData(d, offset)
    ensures MeetsData(d, offset) ==>
      offset + 16 <= LastSpan(d, offset, span).at && LastSpan(d, offset, span).at + LastSpan(d, offset, span).count <= |d|
    decreases |d| - offset
  {
    hide Signed;
    if offset + 12 <= |d| {
      var id, size, body := Part(d, offset, 4), Signed(Part(d, offset + 4, 8)), offset + 12;
      var s := if id == DATA then SpanAt(d, body, size) else span;
      if size >= 0 {
        LaterDataReplacesTheSamples(d, body + size, s);
      }
    }
  }

  /** Exactly when a tail leaves the walk with the format `want` and the samples it had: it has no data
      chunk, breaks off nowhere, and its last `desc`, if any, says `want`. */
  lemma {:induction false} TailLeavesTheWalk(d: seq<Byte>, offset: nat, now: Format, want: Format, span: Span)
    requires span.at < offset + 16
    ensures Walk(d, offset, Some(now), Some(span)) == Read((Some(want), Some(span))) <==>
      !Broken(d, offset) && !MeetsData(d, offset) && LastFormat(d, offset, now) == want
  {
    WalkOutcome(d, offset, now, span);
    if !Broken(d, offset) { LaterDataReplacesTheSamples(d, offset, span); }
  }

  /** A finished file with bytes behind its samples. */
  function FinishedOver(rate: nat, channels: nat, samples: seq<Word>, torn: seq<Byte>): seq<Byte> {
    Header(rate, channels, SizeBytes(|samples|)) + (Packed(samples, 4) + torn)
  }

  lemma WalkOfFinished(rate: nat, channels: nat, samples: seq<Word>, torn: seq<Byte>)
    requires Writable(rate, channels) && HEADER_SIZE + 4 * |samples| < INT64_END
    ensures var d, end := FinishedOver(rate, channels, samples, torn), HEADER_SIZE + 4 * |samples|;
      && |d| == end + |torn| && Part(d, 0, 4) == CAFF
      && Walk(d, 8, None, None)
         == Walk(d, end, Some(WrittenFormat(rate, channels)), Some(Span(HEADER_SIZE, 4 * |samples|)))
  {
    hide Packed, SizeBytes, Header, Signed, Range, Walk, SpanAt;
    var n, size, d := 4 * |samples|, SizeBytes(|samples|), FinishedOver(rate, channels, samples, torn);
    PackedLength(samples, 4);
    SizeBack(|samples|);
    WalkOfWritten(rate, channels, size, Packed(samples, 4) + torn);
    SpanBefore(d, n);
  }

  /** A format that decodes as the written one does. */
  predicate ReadsLike(f: Format, rate: nat, channels: nat) {
    && f.id == LPCM && f.flags % 4 == FLOAT_LITTLE_ENDIAN && f.bits == BITS_PER_SAMPLE
    && f.rate == rate && (if f.channels < 1 then 1 else f.channels) == channels
  }

  /** A span that decodes to the whole frames of `samples`. */
  predicate Holds(d: seq<Byte>, span: Span, channels: nat, samples: seq<Word>)
    requires channels > 0
  {
    Lanes(d, span.at, FramesIn(span.count, channels), channels) == Frames(samples, FramesIn(4 * |samples|, channels), channels)
  }

  lemma DecodesLike(d: seq<Byte>, f: Format, span: Span, rate: nat, channels: nat, samples: seq<Word>)
    requires channels > 0
    ensures Decode(d, f, span) == Read(Whole(rate, channels, samples, 4 * |samples|))
        <==> ReadsLike(f, rate, channels) && Holds(d, span, channels, samples)
  {
    hide FramesIn, Lane, Deinterleaved;
    var count := if f.channels < 1 then 1 else f.channels;
    assert |Lanes(d, span.at, FramesIn(span.count, count), count)| == count;
    assert |Frames(samples, FramesIn(4 * |samples|, channels), channels)| == channels;
  }

  /** Main result: exactly when a file finished over a write the disk cut short reads back as what was
      written before it. The walk over the torn bytes may not break off, its last `desc` must decode as
      the written one, and a data chunk in them would have to hold the same samples. */
  lemma FinishedOverTornWrite(rate: nat, channels: nat, samples: seq<Word>, torn: seq<Byte>)
    requires Writable(rate, channels) && HEADER_SIZE + 4 * |samples| < INT64_END
    ensures var d, end := FinishedOver(rate, channels, samples, torn), HEADER_SIZE + 4 * |samples|;
      ReadOf(d) == Read(Whole(rate, channels, samples, 4 * |samples|)) <==>
        && !Broken(d, end)
        && ReadsLike(LastFormat(d, end, WrittenFormat(rate, channels)), rate, channels)
        && (MeetsData(d, end) ==> Holds(d, LastSpan(d, end, Span(HEADER_SIZE, 4 * |samples|)), channels, samples))
  {
    hide FinishedOver, Walk, Decode, Whole, Broken, MeetsData, LastFormat, LastSpan, ReadsLike, Holds, Part, Range;
    var d, end := FinishedOver(rate, channels, samples, torn), HEADER_SIZE + 4 * |samples|;
    var format, span := WrittenFormat(rate, channels), Span(HEADER_SIZE, 4 * |samples|);
    WalkOfFinished(rate, channels, samples, torn);
    WalkOutcome(d, end, format, span);
    if !Broken(d, end) {
      var f, s := LastFormat(d, end, format), LastSpan(d, end, span);
      DecodesLike(d, f, s, rate, channels, samples);
      LaterDataReplacesTheSamples(d, end, span);
      if !MeetsData(d, end) { WrittenHolds(rate, channels, samples, torn); }
    }
  }

  lemma WrittenHolds(rate: nat, channels: nat, samples: seq<Word>, torn: seq<Byte>)
    requires Writable(rate, channels)
    ensures Holds(FinishedOver(rate, channels, samples, torn), Span(HEADER_SIZE, 4 * |samples|), channels, samples)
  {
    hide Packed, FinishedOver, Decode, Whole, ReadsLike, Holds, Part;
    TornPart(rate, channels, samples, torn);
    DecodeOfPacked(FinishedOver(rate, channels, samples, torn), rate, channels, samples, 4 * |samples|);
    DecodesLike(FinishedOver(rate, channels, samples, torn), WrittenFormat(rate, channels), Span(HEADER_SIZE, 4 * |samples|),
                rate, channels, samples);
  }

  /** Where less was torn than was written, a data chunk in it cannot hold the same samples: the file
      reads back exactly when the torn bytes have none, do not break off, and end on a like format. */
  lemma FinishedOverLessThanWritten(rate: nat, channels: nat, samples: seq<Word>, torn: seq<Byte>)
    requires Writable(rate, channels) && HEADER_SIZE + 4 * |samples| < INT64_END
    requires |samples| % channels == 0 && |torn| < 16 + 4 * |samples|
    ensures var d, end := FinishedOver(rate, channels, samples, torn), HEADER_SIZE + 4 * |samples|;
      ReadOf(d) == Read(Whole(rate, channels, samples, 4 * |samples|)) <==>
        && !Broken(d, end) && !MeetsData(d, end)
        && ReadsLike(LastFormat(d, end, WrittenFormat(rate, channels)), rate, channels)
  {
    hide FinishedOver, Walk, ReadOf, Whole, Broken, MeetsData, LastFormat, LastSpan, ReadsLike, Holds, Part, Range;
    var d, end := FinishedOver(rate, channels, samples, torn), HEADER_SIZE + 4 * |samples|;
    var span := Span(HEADER_SIZE, 4 * |samples|);
    FinishedOverTornWrite(rate, channels, samples, torn);
    WalkOfFinished(rate, channels, samples, torn);
    if !Broken(d, end) && MeetsData(d, end) {
      LaterDataReplacesTheSamples(d, end, span);
      FewerFramesDiffer(d, LastSpan(d, end, span), channels, samples);
    }
  }

  lemma FewerFramesDiffer(d: seq<Byte>, span: Span, channels: nat, samples: seq<Word>)
    requires channels > 0 && |samples| % channels == 0 && span.count < 4 * |samples|
    ensures !Holds(d, span, channels, samples)
  {
    var few, all := FramesIn(span.count, channels), FramesIn(4 * |samples|, channels);
    FewerFrames(span.count, |samples|, channels);
    assert |Lanes(d, span.at, few, channels)[0]| == few && |Frames(samples, all, channels)[0]| == all;
  }

  lemma FewerFrames(count: nat, length: nat, channels: nat)
    requires channels > 0 && length % channels == 0 && count < 4 * length
    ensures FramesIn(count, channels) < FramesIn(4 * length, channels)
  {
    var k, all := BYTES_PER_SAMPLE * channels, length / channels;
    assert 4 * length == all * k;
    ModUnique(4 * length, k, all, 0);
    DivBound(count, all, k);
  }

  lemma TornPart(rate: nat, channels: nat, samples: seq<Word>, torn: seq<Byte>)
    ensures var d, n := FinishedOver(rate, channels, samples, torn), 4 * |samples|;
      && |d| == HEADER_SIZE + n + |torn| && |Packed(samples, 4)| == n
      && Part(d, HEADER_SIZE, n) == Packed(samples, 4)[..n]
      && Part(d, HEADER_SIZE + n, |torn|) == torn
  {
    hide Packed, SizeBytes, Header;
    var header := Header(rate, channels, SizeBytes(|samples|));
    PackedLength(samples, 4);
    HeaderThen(rate, channels, SizeBytes(|samples|), Packed(samples, 4) + torn);
    MiddlePart(header, Packed(samples, 4), torn);
    assert FinishedOver(rate, channels, samples, torn) == header + Packed(samples, 4) + torn;
  }

  lemma SpanBefore(d: seq<Byte>, n: nat)
    requires HEADER_SIZE + n <= |d|
    ensures SpanAt(d, 64, EDIT_COUNT_SIZE + n) == Span(HEADER_SIZE, n)
  {}

  lemma MiddlePart(front: seq<Byte>, middle: seq<Byte>, back: seq<Byte>)
    ensures Part(front + (middle + back), |front|, |middle|) == middle
  {
    Middle(front, middle, back);
  }

  // Torn bytes that hide the recording.

  const DESC_WORD: Word := 0x6373_6564
  const DATA_WORD: Word := 0x6174_6164

  /** What the writer leaves: whole frames, then a write the disk cuts short at `room`, then the end. */
  method FinishOverCutWrite(rate: nat, channels: nat, samples: array<Word>, frames: nat, more: array<Word>, count: nat, room: nat)
    returns (writer: CAFStreamWriter)
    requires Writable(rate, channels) && frames * channels == samples.Length && count * channels == more.Length
    requires room < 4 * more.Length && HEADER_SIZE + 4 * samples.Length < INT64_END
    ensures writer.isFinished && writer.framesWritten == frames
    ensures writer.file == FinishedOver(rate, channels, samples[..], Fitting(Packed(more[..], 4), room))
  {
    hide Header, Packed, SizeBytes;
    writer := new CAFStreamWriter(rate, channels);
    var ok := writer.Write(samples, frames, 4 * samples.Length);
    assert samples[..frames * channels] == samples[..] && more[..count * channels] == more[..];
    assert frames == 0 ==> samples[..] == [];
    assert writer.accepted == samples[..] && writer.torn == [];
    PackedLength(more[..], 4);
    assert count > 0;
    ok := writer.Write(more, count, room);
    assert !ok && writer.torn == [] + Fitting(Packed(more[..], 4), room) == Fitting(Packed(more[..], 4), room);
    writer.Finish();
  }

  /** A write of ordinary samples, cut after its third, that makes the whole file unreadable: the three
      spell a `desc` chunk of size 0. */
  lemma TornDescHidesTheRecording(rate: nat, samples: seq<Word>, last: Word)
    requires rate < Range(8) && HEADER_SIZE + 4 * |samples| < INT64_END
    ensures ReadOf(FinishedOver(rate, 1, samples, Fitting(Packed([DESC_WORD, 0, 0, last], 4), 12))) == Failed(ShortDesc)
  {
    hide Packed, Fitting, FinishedOver, Signed, Range, Header;
    var torn := Packed([DESC_WORD, 0, 0], 4);
    var d, end := FinishedOver(rate, 1, samples, torn), HEADER_SIZE + 4 * |samples|;
    RangeOf48();
    assert [DESC_WORD, 0, 0] + [last] == [DESC_WORD, 0, 0, last];
    CutAfter([DESC_WORD, 0, 0], last);
    DescSpelled();
    ZeroSize();
    WalkOfFinished(rate, 1, samples, torn);
    TornPart(rate, 1, samples, torn);
    SubPart(d, end, 12, 0, 4);
    SubPart(d, end, 12, 4, 8);
  }

  /** One cut after its fourth sample empties the recording: the four spell an empty data chunk. */
  lemma TornDataHidesTheRecording(rate: nat, samples: seq<Word>, last: Word)
    requires rate < Range(8) && HEADER_SIZE + 4 * (|samples| + 3) < INT64_END
    ensures ReadOf(FinishedOver(rate, 1, samples, Fitting(Packed([DATA_WORD, 0, 0, 0, last], 4), 16)))
         == Read(CAF(rate, [[]]))
  {
    hide Packed, Fitting, FinishedOver, Signed, Range, Header, Decode, Walk, SpanAt;
    var torn := Packed([DATA_WORD, 0, 0, 0], 4);
    var d, end := FinishedOver(rate, 1, samples, torn), HEADER_SIZE + 4 * |samples|;
    var format := Some(WrittenFormat(rate, 1));
    RangeOf48();
    assert [DATA_WORD, 0, 0, 0] + [last] == [DATA_WORD, 0, 0, 0, last];
    CutAfter([DATA_WORD, 0, 0, 0], last);
    DataSpelled();
    ZeroSize();
    WalkOfFinished(rate, 1, samples, torn);
    TornPart(rate, 1, samples, torn);
    SubPart(d, end, 16, 0, 4);
    SubPart(d, end, 16, 4, 8);
    WalkStep(d, end, format, Some(Span(HEADER_SIZE, 4 * |samples|)));
    EmptyData(d, end + 12);
    WalkEnds(d, end + 12, format, Some(Span(end + 16, 0)));
    EmptyDecode(d, rate, end + 16);
  }

  /** A data chunk of size 0 has no samples. */
  lemma EmptyData(d: seq<Byte>, body: nat)
    requires body + EDIT_COUNT_SIZE <= |d|
    ensures SpanAt(d, body, 0) == Span(body + EDIT_COUNT_SIZE, 0)
  {}

  lemma EmptyDecode(d: seq<Byte>, rate: nat, at: nat)
    ensures Decode(d, WrittenFormat(rate, 1), Span(at, 0)) == Read(CAF(rate, [[]]))
  {
    assert FramesIn(0, 1) == 0;
    assert Lanes(d, at, 0, 1) == [Lane(d, at, 0, 1, 0)] && Lane(d, at, 0, 1, 0) == [];
  }

  lemma CutAfter(kept: seq<Word>, last: Word)
    ensures Fitting(Packed(kept + [last], 4), 4 * |kept|) == Packed(kept, 4)
  {
    hide Packed;
    PackedJoin(kept, [last], 4);
    PackedLength(kept, 4);
    PackedLength([last], 4);
  }

  lemma DescSpelled()
    ensures Packed([DESC_WORD, 0, 0], 4) == DESC + Big(0, 8)
  {
    PackedThree(DESC_WORD, 0, 0);
    LittleFour(DESC_WORD);
    LittleFour(0);
    ZeroBytes();
  }

  lemma DataSpelled()
    ensures Packed([DATA_WORD, 0, 0, 0], 4) == DATA + Big(0, 8) + [0, 0, 0, 0]
  {
    hide Packed;
    PackedJoin([DATA_WORD, 0, 0], [0], 4);
    assert [DATA_WORD, 0, 0] + [0] == [DATA_WORD, 0, 0, 0];
    PackedThree(DATA_WORD, 0, 0);
    PackedOne(0);
    LittleFour(DATA_WORD);
    LittleFour(0);
    ZeroBytes();
  }

  lemma PackedOne(a: Word)
    ensures Packed([a], 4) == Little(a, 4)
  {
    assert Packed([a], 4) == Little(a, 4) + [];
  }

  lemma PackedThree(a: Word, b: Word, c: Word)
    ensures Packed([a, b, c], 4) == Little(a, 4) + Little(b, 4) + Little(c, 4)
  {
    hide Little;
    assert [a, b, c][1..] == [b, c] && [b, c][1..] == [c] && [c][1..] == [];
    assert Packed([c], 4) == Little(c, 4) + [];
  }

  lemma LittleFour(w: Word)
    ensures Little(w, 4) == [w % 256, w / 256 % 256, w / 256 / 256 % 256, w / 256 / 256 / 256 % 256]
  {
    assert Little(w, 4) == [w % 256] + Little(w / 256, 3);
    assert Little(w / 256, 3) == [w / 256 % 256] + Little(w / 256 / 256, 2);
    assert Little(w / 256 / 256, 2) == [w / 256 / 256 % 256] + Little(w / 256 / 256 / 256, 1);
    assert Little(w / 256 / 256 / 256, 1) == [w / 256 / 256 / 256 % 256] + [];
  }

  lemma ZeroBytes()
    ensures Big(0, 8) == [0, 0, 0, 0, 0, 0, 0, 0]
  {
    assert Big(0, 1) == [0] && Big(0, 2) == [0, 0] && Big(0, 3) == [0, 0, 0];
    assert Big(0, 4) == [0, 0, 0, 0] && Big(0, 5) == [0, 0, 0, 0, 0] && Big(0, 6) == [0, 0, 0, 0, 0, 0];
    assert Big(0, 7) == [0, 0, 0, 0, 0, 0, 0];
  }

  lemma ZeroSize()
    ensures Signed(Big(0, 8)) == 0
  {
    RangeOf48();
    SignedBack(0, 8);
  }

  // The reader.

  /** Walks the chunks and fills the channels. */
  method ReadFile(d: seq<Byte>) returns (r: Result<CAF>)
    ensures r == ReadOf(d)
  {
    hide FormatAt, SpanAt, Signed, FramesIn, SampleAt;
    if |d| < 8 || Part(d, 0, 4) != CAFF { return Failed(NoHeader); }
    var offset: nat := 8;
    var format: Option<Format> := None;
    var span: Option<Span> := None;
    while offset + 12 <= |d|
      invariant Walk(d, 8, None, None) == Walk(d, offset, format, span)
      decreases |d| - offset
    {
      var id := Part(d, offset, 4);
      var size := Signed(Part(d, offset + 4, 8));
      var body := offset + 12;
      if id == DESC {
        if size < DESC_SIZE || body + DESC_SIZE > |d| { return Failed(ShortDesc); }
        format := Some(FormatAt(d, body));
      } else if id == DATA {
        if body + EDIT_COUNT_SIZE > |d| { return Failed(ShortData); }
        span := Some(SpanAt(d, body, size));
      }
      if size < 0 {
        offset := |d|;
        assert Walk(d, offset, format, span) == Read((format, span));
        break;
      }
      if body + size >= INT64_END { return Failed(Overflow); }
      offset := body + size;
    }
    assert Walk(d, 8, None, None) == Read((format, span));
    if format.None? { return Failed(NoDesc); }
    if span.None? { return Failed(NoData); }
    var f, s := format.value, span.value;
    if f.id != LPCM || f.flags % 4 != FLOAT_LITTLE_ENDIAN || f.bits != BITS_PER_SAMPLE { return Failed(Unsupported); }
    var count := if f.channels < 1 then 1 else f.channels;
    var frames := FramesIn(s.count, count);
    var channels := Fill(d, s.at, frames, count);
    r := Read(CAF(f.rate, channels));
  }

  method Fill(d: seq<Byte>, at: nat, frames: nat, count: nat) returns (channels: seq<seq<nat>>)
    ensures channels == Lanes(d, at, frames, count)
  {
    hide InFrame;
    channels := seq(count, c => seq(frames, f => 0));
    for frame := 0 to frames
      invariant |channels| == count && forall c :: 0 <= c < count ==> |channels[c]| == frames
      invariant forall c, f :: 0 <= c < count && 0 <= f < frame ==> channels[c][f] == InFrame(d, at, count, f, c)
    {
      for channel := 0 to count
        invariant |channels| == count && forall c :: 0 <= c < count ==> |channels[c]| == frames
        invariant forall c, f :: 0 <= c < count && 0 <= f < frame ==> channels[c][f] == InFrame(d, at, count, f, c)
        invariant forall c :: 0 <= c < channel ==> channels[c][frame] == InFrame(d, at, count, frame, c)
      {
        var lane: seq<nat> := channels[channel];
        lane := lane[frame := InFrame(d, at, count, frame, channel)];
        channels := channels[channel := lane];
      }
    }
    forall c | 0 <= c < count ensures channels[c] == Lane(d, at, frames, count, c) {}
  }
}
