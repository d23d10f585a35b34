/** What the converter and the decimator compute, over exact arithmetic: filters of the signal around the
    exact position of each output, the converter's interpolated linearly between phases. */
module Interpolation {
  import opened Arithmetic
  import opened Samples
  import opened RateConverter
  import D = Resampler

  /** Sample arithmetic without rounding. */
  const REALS: Arith<real> := Arith(
    0.0, (a: real, b: real) => a + b, (a: real, b: real) => a - b, (a: real, b: real) => a * b,
    (a: int, b: int) => if b == 0 then 0.0 else a as real / b as real)

  /** Where output `n` sits in the input. */
  function PositionOf(inputRate: nat, outputRate: nat, n: nat): (p: real)
    requires outputRate > 0
    ensures p >= 0.0
  {
    RatioSign(n * inputRate, outputRate);
    (n * inputRate) as real / outputRate as real
  }

  lemma RatioSign(a: nat, b: nat)
    requires b > 0
    ensures a as real / b as real >= 0.0
  {}

  /** The input around itself is silence. */
  function Heard(x: seq<real>, i: int): real {
    if 0 <= i < |x| then x[i] else 0.0
  }

  /** Coefficient `k` of the sub-filter at phase `t`: of the two rows around it, the nearer the more. */
  function Between(table: seq<real>, t: real, k: nat): real
    requires |table| == (PHASES + 1) * TAPS && 0.0 <= t < PHASES as real && k < TAPS
  {
    var b := t - t.Floor as real;
    (1.0 - b) * table[t.Floor * TAPS + k] + b * table[(t.Floor + 1) * TAPS + k]
  }

  /** The first `taps` terms of the filter at a position: tap `k` is on the input sample `k - 31` samples
      from the position's whole part, and the phase is the position's fraction. */
  function FilteredAt(table: seq<real>, x: seq<real>, position: real, taps: nat): real
    requires |table| == (PHASES + 1) * TAPS && position >= 0.0 && taps <= TAPS
  {
    if taps == 0 then 0.0
    else
      var whole, k := position.Floor, taps - 1;
      FilteredAt(table, x, position, k) + Between(table, PhaseAt(position), k) * Heard(x, whole - 31 + k)
  }

  function PhaseAt(position: real): (t: real)
    ensures 0.0 <= t < PHASES as real
  {
    PHASES as real * (position - position.Floor as real)
  }

  /** Main result: the samples of the converter over any chunks are, one for each position whose taps the
      input covers and no other, the filter at that position. */
  method ConvertsByInterpolation(c: Polyphase<real>, chunks: seq<seq<real>>, maximumInput: nat) returns (y: seq<real>)
    requires c.Valid() && c.arith == REALS
    requires forall chunk :: chunk in chunks ==> |chunk| <= maximumInput
    ensures forall n: nat :: n < |y| <==> PositionOf(c.inputRate, c.outputRate, n).Floor + 32 < |Flatten(chunks)|
    ensures forall n: nat :: n < |y| ==>
      y[n] == FilteredAt(c.table, Flatten(chunks), PositionOf(c.inputRate, c.outputRate, n), TAPS)
  {
    hide Flatten, FilteredAt, PositionOf;
    var converter := new RateConverter<real>(c.inputRate, c.outputRate, maximumInput, c.table, c.arith);
    y := converter.ProcessAll(chunks);
    NothingConverted(c);
    ghost var x := Flatten(chunks);
    assert [] + x == x && y == c.Converted(x);
    forall n: nat ensures n < |y| <==> PositionOf(c.inputRate, c.outputRate, n).Floor + 32 < |x| {
      c.CountIsExact(|x|, n);
      WholePosition(c, n);
    }
    forall n: nat | n < |y| ensures y[n] == FilteredAt(c.table, x, PositionOf(c.inputRate, c.outputRate, n), TAPS) {
      OutputIsFiltered(c, x, n);
    }
  }

  /** A quotient of whole numbers, its whole part and the rest. */
  lemma FloorOfRatio(a: nat, b: nat)
    requires b > 0
    ensures (a as real / b as real).Floor == a / b
    ensures a as real / b as real - (a / b) as real == (a % b) as real / b as real
  {
    var q, r := a / b, a % b;
    assert a == q * b + r;
    assert a as real == q as real * b as real + r as real;
    assert a as real / b as real == q as real + r as real / b as real by { SplitRatio(q as real, r as real, b as real); }
    assert 0.0 <= r as real / b as real < 1.0 by { BelowOne(r as real, b as real); }
  }

  lemma SplitRatio(q: real, r: real, b: real)
    requires b > 0.0
    ensures (q * b + r) / b == q + r / b
  {}

  lemma BelowOne(r: real, b: real)
    requires 0.0 <= r < b
    ensures 0.0 <= r / b < 1.0
  {}

  lemma WholePosition(c: Polyphase<real>, n: nat)
    requires c.outputRate > 0
    ensures PositionOf(c.inputRate, c.outputRate, n).Floor == c.Position(n)
    ensures PositionOf(c.inputRate, c.outputRate, n) - c.Position(n) as real == c.Remainder(n) as real / c.outputRate as real
  {
    FloorOfRatio(n * c.inputRate, c.outputRate);
  }

  /** The phase and the blend of the code are the whole part and the fraction of the phase. */
  lemma PhaseOf(c: Polyphase<real>, n: nat)
    requires c.Valid()
    ensures var t, scaled := PhaseAt(PositionOf(c.inputRate, c.outputRate, n)), c.Remainder(n) * PHASES;
      && t.Floor == scaled / c.outputRate
      && t - t.Floor as real == REALS.ratio(scaled % c.outputRate, c.outputRate)
  {
    var scaled, b := c.Remainder(n) * PHASES, c.outputRate;
    WholePosition(c, n);
    assert PhaseAt(PositionOf(c.inputRate, c.outputRate, n)) == PHASES as real * (c.Remainder(n) as real / b as real);
    Scaled(PHASES as real, c.Remainder(n) as real, b as real);
    assert scaled as real == PHASES as real * c.Remainder(n) as real;
    FloorOfRatio(scaled, b);
  }

  lemma Scaled(k: real, r: real, b: real)
    requires b > 0.0
    ensures k * (r / b) == (k * r) / b
  {}

  lemma OutputIsFiltered(c: Polyphase<real>, x: seq<real>, n: nat)
    requires c.Valid() && c.arith == REALS && n < c.OutputCount(|x|)
    ensures c.Converted(x)[n] == FilteredAt(c.table, x, PositionOf(c.inputRate, c.outputRate, n), TAPS)
  {
    c.CountIsExact(|x|, n);
    var p, scaled := c.Position(n), c.Remainder(n) * PHASES;
    var window := c.Padded(x)[p..p + TAPS];
    c.WindowIsOutput(x, n, p, window);
    c.PhaseInTable(c.Remainder(n));
    PhaseOf(c, n);
    WholePosition(c, n);
    forall k: nat | k < TAPS ensures window[k] == Heard(x, p - 31 + k) { assert window[k] == c.Padded(x)[p + k]; }
    hide Polyphase.Converted, Polyphase.Position, Polyphase.Remainder, PositionOf, PhaseAt, Polyphase.OutputCount, Heard;
    DotIsFiltered(c, x, PositionOf(c.inputRate, c.outputRate, n), scaled / c.outputRate,
                  REALS.ratio(scaled % c.outputRate, c.outputRate), window, TAPS);
  }

  /** Tap by tap, the loop's sum is the filter. */
  lemma {:induction false} DotIsFiltered(
      c: Polyphase<real>, x: seq<real>, position: real, phase: nat, blend: real, window: seq<real>, taps: nat)
    requires c.Valid() && c.arith == REALS && position >= 0.0 && taps <= TAPS == |window|
    requires phase < PHASES && PhaseAt(position).Floor == phase && PhaseAt(position) - phase as real == blend
    requires forall k: nat :: k < TAPS ==> window[k] == Heard(x, position.Floor - 31 + k)
    ensures c.Dot(phase, blend, window, taps) == FilteredAt(c.table, x, position, taps)
  {
    if taps > 0 {
      hide PhaseAt, Heard;
      var k := taps - 1;
      DotIsFiltered(c, x, position, phase, blend, window, k);
      Blend(c.table[phase * TAPS + k], c.table[(phase + 1) * TAPS + k], blend);
      assert window[k] == Heard(x, position.Floor - 31 + k);
    }
  }

  lemma Blend(low: real, high: real, b: real)
    ensures low + (high - low) * b == (1.0 - b) * low + b * high
  {}

  /** Rows that change evenly from one to the next are read exactly at every phase. */
  lemma EvenRowsAreReadExactly(table: seq<real>, first: seq<real>, step: seq<real>, t: real, k: nat)
    requires |table| == (PHASES + 1) * TAPS && |first| == |step| == TAPS && 0.0 <= t < PHASES as real && k < TAPS
    requires forall p: nat, j: nat :: p <= PHASES && j < TAPS ==> table[Row(p, j)] == first[j] + p as real * step[j]
    ensures Between(table, t, k) == first[k] + t * step[k]
  {
    var p := t.Floor;
    assert table[Row(p, k)] == first[k] + p as real * step[k];
    assert table[Row(p + 1, k)] == first[k] + (p + 1) as real * step[k];
    var b := t - p as real;
    assert (1.0 - b) * (p as real * step[k]) + b * ((p + 1) as real * step[k]) == (p as real + b) * step[k];
  }

  /** Coefficient `j` of row `p` in the table. */
  function Row(p: nat, j: nat): (i: nat)
    requires p <= PHASES && j < TAPS
    ensures i < (PHASES + 1) * TAPS
  {
    p * TAPS + j
  }

  // The decimator.

  /** The first `taps` terms of a filter whose newest sample is `at`. */
  function ConvolvedAt(coefficients: seq<real>, x: seq<real>, at: int, taps: nat): real
    requires taps <= |coefficients|
  {
    if taps == 0 then 0.0
    else ConvolvedAt(coefficients, x, at, taps - 1) + coefficients[taps - 1] * Heard(x, at - (taps - 1))
  }

  /** Main result: the decimated signal is the convolution at every third sample, the newest one included. */
  lemma DecimatesByConvolution<H>(f: D.Filter<real, H>, x: seq<real>)
    requires f.Valid() && f.arith == REALS
    ensures |f.Filtered(x)| == |x| / 3
    ensures forall m :: 0 <= m < |x| / 3 ==> f.Filtered(x)[m] == f.quantise(ConvolvedAt(f.coefficients, x, 3 * m, 192))
  {
    forall m | 0 <= m < |x| / 3 ensures f.Filtered(x)[m] == f.quantise(ConvolvedAt(f.coefficients, x, 3 * m, 192)) {
      SumIsConvolved(f, x, 3 * m, 192);
      assert f.Filtered(x)[m] == f.OutputAt(x, m);
    }
  }

  lemma {:induction false} SumIsConvolved<H>(f: D.Filter<real, H>, x: seq<real>, at: nat, taps: nat)
    requires f.Valid() && f.arith == REALS && at < |x| && taps <= 192
    ensures f.Sum(f.Padded(x), at + 191, taps) == ConvolvedAt(f.coefficients, x, at, taps)
  {
    if taps > 0 {
      var k := taps - 1;
      SumIsConvolved(f, x, at, k);
      assert f.Padded(x)[at + 191 - k] == Heard(x, at - k);
    }
  }

  /** Frame by frame, as the writer runs it. */
  method DecimatesFrames<H(0)>(f: D.Filter<real, H>, frameSize: nat, frames: seq<seq<real>>) returns (y: seq<H>)
    requires f.Valid() && f.arith == REALS && frameSize % 3 == 0 && forall frame :: frame in frames ==> |frame| == frameSize
    ensures |y| == |Flatten(frames)| / 3
    ensures forall m :: 0 <= m < |y| ==> y[m] == f.quantise(ConvolvedAt(f.coefficients, Flatten(frames), 3 * m, 192))
  {
    hide Flatten, ConvolvedAt, D.Filter.Filtered, D.Filter.Padded, D.Filter.Valid;
    var decimator := new D.Resampler48kTo16k<real, H>(f, frameSize);
    NothingFlat<real>();
    NothingFiltered(f);
    y := [];
    for k := 0 to |frames|
      invariant decimator.Valid() && decimator.filter == f && decimator.frameSize == frameSize
      invariant decimator.signal == Flatten(frames[..k]) && y == decimator.produced
    {
      var frame := frames[k];
      assert frame in frames && frames[..k + 1] == frames[..k] + [frame];
      FlattenAppend(frames[..k], frame);
      var input := new real[frameSize](i requires 0 <= i < frameSize => frame[i]);
      var output := new H[decimator.outputFrameSize];
      assert input[..] == frame;
      decimator.Process(input, output);
      y := y + output[..];
      assert output[..] == output[..decimator.outputFrameSize];
    }
    assert frames[..|frames|] == frames;
    DecimatesByConvolution(f, Flatten(frames));
    assert y == f.Filtered(Flatten(frames)) by { ProducedIs(decimator); }
  }

  lemma ProducedIs<H>(decimator: D.Resampler48kTo16k<real, H>)
    requires decimator.Valid()
    ensures decimator.produced == decimator.filter.Filtered(decimator.signal)
  {}

  lemma NothingFiltered<H>(f: D.Filter<real, H>)
    requires f.Valid()
    ensures f.Filtered([]) == []
  {}
}
