/** The 3:1 decimator of the sidecars (`Resampler48kTo16k.swift`), refined to a filter of the whole signal. */
module Resampler {
  import opened Samples

  const FACTOR: nat := 3
  const TAPS: nat := 192

  /** The low-pass filter: its coefficients, and what clamps and rounds a sample to an `H`. */
  datatype Filter<!S, !H> = Filter(coefficients: seq<S>, quantise: S -> H, arith: Arith<S>) {

    ghost predicate Valid() {
      |coefficients| == TAPS
    }

    /** The signal behind as many zeros as one output looks back. */
    function Padded(x: seq<S>): (p: seq<S>)
      ensures |p| == TAPS - 1 + |x|
    {
      Zeros(arith, TAPS - 1) + x
    }

    /** The first `k` terms of the filter whose newest sample is `p[newest]`. */
    function Sum(p: seq<S>, newest: nat, k: nat): S
      requires k <= |coefficients| && k <= newest + 1 && newest < |p|
    {
      if k == 0 then arith.zero
      else arith.add(Sum(p, newest, k - 1), arith.mul(coefficients[k - 1], p[newest - (k - 1)]))
    }

    /** Output `m`: the whole filter, its newest sample `x[3 * m]`. */
    function OutputAt(x: seq<S>, m: nat): H
      requires Valid() && m * FACTOR < |x|
    {
      quantise(Sum(Padded(x), m * FACTOR + TAPS - 1, |coefficients|))
    }

    /** The decimated signal, one output for every three whole inputs. */
    function Filtered(x: seq<S>): (y: seq<H>)
      requires Valid()
      ensures |y| == |x| / FACTOR
    {
      seq(|x| / FACTOR, m requires 0 <= m < |x| / FACTOR => OutputAt(x, m))
    }

    /** A sum over a window is the sum over the signal it was cut from. */
    lemma {:induction false} SumOfWindow(p: seq<S>, w: seq<S>, from: nat, newest: nat, k: nat)
      requires k <= |coefficients| && k <= newest + 1 && newest < |w|
      requires from + |w| <= |p| && w == p[from..from + |w|]
      ensures Sum(w, newest, k) == Sum(p, from + newest, k)
    {
      if k > 0 {
        SumOfWindow(p, w, from, newest, k - 1);
        assert w[newest - (k - 1)] == p[from + newest - (k - 1)];
      }
    }

    /** More input changes no output. */
    lemma FilteredExtends(x: seq<S>, more: seq<S>)
      requires Valid()
      ensures |Filtered(x)| <= |Filtered(x + more)| && Filtered(x + more)[..|Filtered(x)|] == Filtered(x)
    {
      var y, z := Filtered(x), Filtered(x + more);
      forall m | 0 <= m < |y| ensures z[m] == y[m] {
        var p, w := Padded(x + more), Padded(x);
        assert w == p[0..0 + |w|];
        SumOfWindow(p, w, 0, m * FACTOR + TAPS - 1, |coefficients|);
      }
    }

    /** One output from a window of the padded signal. */
    lemma OutputOfWindow(x: seq<S>, window: seq<S>, from: nat, n: nat)
      requires Valid() && from % FACTOR == 0 && from <= |x| && window == Padded(x)[from..]
      requires from + n * FACTOR + FACTOR <= |x|
      ensures Filtered(x)[from / FACTOR + n] == quantise(Sum(window, n * FACTOR + TAPS - 1, |coefficients|))
    {
      var p := Padded(x);
      assert window == p[from..from + |window|];
      SumOfWindow(p, window, from, n * FACTOR + TAPS - 1, |coefficients|);
      var m := from / FACTOR + n;
      assert m * FACTOR == from + n * FACTOR;
      assert Filtered(x)[m] == OutputAt(x, m);
    }
  }

  // The decimator.

  class Resampler48kTo16k<S(0), H> {
    const filter: Filter<S, H>
    const frameSize: nat
    const outputFrameSize: nat
    const history: array<S>
    /** Every input since the last reset, and every output. */
    ghost var signal: seq<S>
    ghost var produced: seq<H>

    ghost predicate Valid()
      reads this, history
    {
      && filter.Valid()
      && frameSize == outputFrameSize * FACTOR
      && history.Length == TAPS - 1 + frameSize
      && |signal| % FACTOR == 0
      && history[..TAPS - 1] == filter.Padded(signal)[|signal|..]
      && produced == filter.Filtered(signal)
    }

    constructor (filter: Filter<S, H>, frameSize: nat)
      requires filter.Valid() && frameSize % FACTOR == 0
      ensures Valid() && signal == [] && this.filter == filter && this.frameSize == frameSize && fresh(history)
    {
      this.filter := filter;
      this.frameSize := frameSize;
      outputFrameSize := frameSize / FACTOR;
      history := new S[TAPS - 1 + frameSize](_ => filter.arith.zero);
      signal, produced := [], [];
    }

    /** Main result: frame by frame, the outputs are those of the whole signal. */
    method Process(input: array<S>, output: array<H>)
      requires Valid() && input.Length == frameSize && output.Length >= outputFrameSize
      requires input != history && (output as object) != history && (output as object) != input
      modifies this`signal, this`produced, history, output
      ensures Valid()
      ensures signal == old(signal) + input[..]
      ensures produced == old(produced) + output[..outputFrameSize]
      ensures forall i :: outputFrameSize <= i < output.Length ==> output[i] == old(output[i])
    {
      hide Filter.Filtered, Filter.Padded, Filter.Sum;
      var offset := TAPS - 1;
      ghost var kept, frame := history[..offset], input[..];
      ghost var whole := signal + frame;
      forall i | 0 <= i < frameSize { history[offset + i] := input[i]; }
      ghost var window := history[..];
      assert window == kept + frame;
      WindowOf(signal, frame, kept, window);
      PaddedLonger(signal, frame);
      Decimate(output, whole);
      // Keep the last inputs for the next call.
      forall i | 0 <= i < offset { history[i] := history[frameSize + i]; }
      assert history[..offset] == window[frameSize..] == filter.Padded(whole)[|whole|..];
      filter.FilteredExtends(signal, frame);
      ghost var full, done := filter.Filtered(whole), |signal| / FACTOR;
      assert full == full[..done] + full[done..done + outputFrameSize];
      signal := whole;
      produced := full;
    }

    /** The outputs of the frame in the history, which ends the signal `whole`. */
    method Decimate(output: array<H>, ghost whole: seq<S>)
      requires filter.Valid() && frameSize == outputFrameSize * FACTOR && history.Length == TAPS - 1 + frameSize
      requires output.Length >= outputFrameSize && (output as object) != history
      requires |whole| >= frameSize && |whole| % FACTOR == 0
      requires history[..] == filter.Padded(whole)[|whole| - frameSize..]
      modifies output
      ensures var done := (|whole| - frameSize) / FACTOR;
        && done + outputFrameSize <= |filter.Filtered(whole)|
        && output[..outputFrameSize] == filter.Filtered(whole)[done..done + outputFrameSize]
      ensures forall i :: outputFrameSize <= i < output.Length ==> output[i] == old(output[i])
    {
      hide Filter.Filtered, Filter.Padded, Filter.Sum;
      ghost var full, from := filter.Filtered(whole), |whole| - frameSize;
      ghost var done := from / FACTOR;
      var n := 0;
      while n < outputFrameSize
        invariant 0 <= n <= outputFrameSize
        invariant output[..n] == full[done..done + n]
        invariant forall i :: outputFrameSize <= i < output.Length ==> output[i] == old(output[i])
      {
        var newest := n * FACTOR + (TAPS - 1);
        var accumulator := Accumulate(newest);
        filter.OutputOfWindow(whole, history[..], from, n);
        output[n] := filter.quantise(accumulator);
        n := n + 1;
      }
    }

    method Accumulate(newest: nat) returns (accumulator: S)
      requires filter.Valid() && TAPS <= newest + 1 && newest < history.Length
      ensures accumulator == filter.Sum(history[..], newest, |filter.coefficients|)
    {
      accumulator := filter.arith.zero;
      var k := 0;
      while k < TAPS
        invariant 0 <= k <= TAPS
        invariant accumulator == filter.Sum(history[..], newest, k)
      {
        accumulator := filter.arith.add(accumulator, filter.arith.mul(filter.coefficients[k], history[newest - k]));
        k := k + 1;
      }
    }

    /** The history over a frame is the padded signal from the frame's first look-back on. */
    lemma WindowOf(before: seq<S>, frame: seq<S>, kept: seq<S>, window: seq<S>)
      requires kept == filter.Padded(before)[|before|..] && window == kept + frame
      ensures filter.Padded(before + frame)[|before|..] == window
    {
      assert filter.Padded(before + frame) == filter.Padded(before) + frame;
    }

    lemma PaddedLonger(before: seq<S>, frame: seq<S>)
      ensures filter.Padded(before + frame)[|before| + |frame|..] == (filter.Padded(before + frame)[|before|..])[|frame|..]
    {}

    method Reset()
      requires Valid()
      modifies this`signal, this`produced, history
      ensures Valid() && signal == [] && produced == []
    {
      forall i | 0 <= i < history.Length { history[i] := filter.arith.zero; }
      signal, produced := [], [];
    }
  }
}
