/** The streaming polyphase rate converter (`RateConverter.swift`), refined to a definition over the
    whole signal. */
module RateConverter {
  import opened Arithmetic
  import opened Samples
  import opened Sequences

  const TAPS: nat := 64
  const PHASES: nat := 128
  const LEADING_ZEROS: nat := TAPS / 2 - 1

  /** One pair of rates with its table of `PHASES + 1` sub-filters of `TAPS` coefficients. */
  datatype Polyphase<!S> = Polyphase(inputRate: nat, outputRate: nat, table: seq<S>, arith: Arith<S>) {

    ghost predicate Valid() {
      inputRate > 0 && outputRate > 0 && |table| == (PHASES + 1) * TAPS
    }

    /** The whole input position of output `n`: `n * inputRate / outputRate`, rounded down. */
    function Position(n: nat): nat
      requires outputRate > 0
    {
      n * inputRate / outputRate
    }

    /** Its fraction, in units of `1 / outputRate`. */
    function Remainder(n: nat): nat
      requires outputRate > 0
    {
      n * inputRate % outputRate
    }

    /** The signal as the windows see it: `LEADING_ZEROS` zeros, then the input. */
    function Padded(x: seq<S>): (p: seq<S>)
      ensures |p| == LEADING_ZEROS + |x|
    {
      Zeros(arith, LEADING_ZEROS) + x
    }

    lemma PaddedAppend(x: seq<S>, more: seq<S>)
      ensures Padded(x + more) == Padded(x) + more
    {}

    /** The first `k` terms of the blended dot product, summed left to right from zero. */
    function Dot(phase: nat, blend: S, window: seq<S>, k: nat): S
      requires Valid() && phase < PHASES && k <= TAPS <= |window|
    {
      if k == 0 then arith.zero
      else
        var low := table[phase * TAPS + (k - 1)];
        var high := table[(phase + 1) * TAPS + (k - 1)];
        arith.add(
          Dot(phase, blend, window, k - 1),
          arith.mul(arith.add(low, arith.mul(arith.sub(high, low), blend)), window[k - 1]))
    }

    /** The output at a fraction over one window. */
    function Windowed(remainder: nat, window: seq<S>): S
      requires Valid() && remainder < outputRate && |window| == TAPS
    {
      PhaseInTable(remainder);
      var scaled := remainder * PHASES;
      Dot(scaled / outputRate, arith.ratio(scaled % outputRate, outputRate), window, |window|)
    }

    lemma PhaseInTable(remainder: nat)
      requires outputRate > 0 && remainder < outputRate
      ensures 0 <= remainder * PHASES / outputRate < PHASES
    {
      DivBound(remainder * PHASES, PHASES, outputRate);
    }

    /** Output `n` of the whole signal `x`: one window of the padded input, centred on position `n`. */
    function OutputAt(x: seq<S>, n: nat): S
      requires Valid() && Position(n) + TAPS <= LEADING_ZEROS + |x|
    {
      Windowed(Remainder(n), Padded(x)[Position(n)..Position(n) + TAPS])
    }

    /** How many outputs have a whole window in an input of `length` samples. */
    function OutputCount(length: nat): nat
      requires inputRate > 0
    {
      if length + LEADING_ZEROS < TAPS then 0
      else CeilDiv((length + LEADING_ZEROS + 1 - TAPS) * outputRate, inputRate)
    }

    /** The closed form counts exactly the outputs whose window the input covers. */
    lemma CountIsExact(length: nat, n: nat)
      requires Valid()
      ensures Position(n) + TAPS <= LEADING_ZEROS + length <==> n < OutputCount(length)
    {
      if length + LEADING_ZEROS >= TAPS {
        var room := length + LEADING_ZEROS + 1 - TAPS;
        DivBelow(n * inputRate, room, outputRate);
        BelowCeilDiv(n, room * outputRate, inputRate);
      }
    }

    /** The converted signal: the definition every chunked conversion refines. */
    function Converted(x: seq<S>): (y: seq<S>)
      requires Valid()
      ensures |y| == OutputCount(|x|)
      ensures forall n :: 0 <= n < |y| ==> Position(n) + TAPS <= LEADING_ZEROS + |x| && y[n] == OutputAt(x, n)
    {
      forall n: nat | n < OutputCount(|x|) ensures Position(n) + TAPS <= LEADING_ZEROS + |x| {
        CountIsExact(|x|, n);
      }
      seq(OutputCount(|x|), n requires 0 <= n < OutputCount(|x|) => OutputAt(x, n))
    }

    /** A window of the padded signal is an output of the conversion. */
    lemma WindowIsOutput(x: seq<S>, n: nat, p: nat, window: seq<S>)
      requires Valid() && p == Position(n) && p + TAPS <= LEADING_ZEROS + |x|
      requires window == Padded(x)[p..p + TAPS]
      ensures n < OutputCount(|x|)
      ensures Converted(x)[n] == Windowed(Remainder(n), window)
    {
      CountIsExact(|x|, n);
      assert Converted(x)[n] == OutputAt(x, n);
    }

    /** More input adds outputs and changes none: what was written stays right. */
    lemma ConvertedExtends(x: seq<S>, more: seq<S>)
      requires Valid()
      ensures Converted(x) <= Converted(x + more)
    {
      var (y, z) := (Converted(x), Converted(x + more));
      CallFits(|x|, |more|, |more|);
      assert Padded(x + more)[..|Padded(x)|] == Padded(x);
      forall n | 0 <= n < |y| ensures n < |z| && y[n] == z[n] {
        CountIsExact(|x|, n);
        CountIsExact(|x + more|, n);
        var p := Position(n);
        assert Padded(x + more)[p..p + TAPS] == Padded(x)[p..p + TAPS];
      }
    }

    /** The most outputs a call with at most `maximumInput` samples writes. */
    function MaximumOutput(maximumInput: nat): nat
      requires inputRate > 0
    {
      CeilDiv(maximumInput * outputRate, inputRate) + 1
    }

    lemma CallFits(length: nat, count: nat, maximumInput: nat)
      requires Valid() && count <= maximumInput
      ensures OutputCount(length) <= OutputCount(length + count) <= OutputCount(length) + MaximumOutput(maximumInput)
    {
      var (before, after) := (RoomFor(length), RoomFor(length + count));
      assert after <= before + count;
      MulMonotone(before, after, outputRate);
      MulMonotone(after, before + count, outputRate);
      MulMonotone(count, maximumInput, outputRate);
      CeilDivMonotone(before * outputRate, after * outputRate, inputRate);
      CeilDivMonotone(after * outputRate, before * outputRate + count * outputRate, inputRate);
      CeilDivSum(before * outputRate, count * outputRate, inputRate);
      CeilDivMonotone(count * outputRate, maximumInput * outputRate, inputRate);
      CeilDivZero(inputRate);
    }

    /** Window starts an input of `length` samples allows. */
    function RoomFor(length: nat): nat {
      if length + LEADING_ZEROS < TAPS then 0 else length + LEADING_ZEROS + 1 - TAPS
    }

    /** The exact position advances by whole samples and a carried remainder, without drift. */
    lemma PositionStep(n: nat)
      requires outputRate > 0
      ensures Position(n + 1) == Position(n) + (Remainder(n) + inputRate) / outputRate
      ensures Remainder(n + 1) == (Remainder(n) + inputRate) % outputRate
    {
      var (q, r) := (Position(n), Remainder(n));
      assert (n + 1) * inputRate == q * outputRate + r + inputRate;
      DivModStep(q, r + inputRate, outputRate);
    }
  }

  function Flatten<T>(chunks: seq<seq<T>>): seq<T> {
    if chunks == [] then [] else chunks[0] + Flatten(chunks[1..])
  }

  lemma {:induction false} FlattenAppend<T>(chunks: seq<seq<T>>, last: seq<T>)
    ensures Flatten(chunks + [last]) == Flatten(chunks) + last
  {
    if chunks == [] {
      assert [last][1..] == [];
      assert [] + last == last + [];
    } else {
      FlattenAppend(chunks[1..], last);
      assert (chunks + [last])[1..] == chunks[1..] + [last];
      Associate(chunks[0], Flatten(chunks[1..]), last);
    }
  }

  lemma NothingFlat<T>()
    ensures Flatten<T>([]) == []
  {}

  /** Main result: two converters given one signal in any two ways of cutting it write the same samples,
      the conversion of the whole signal. */
  method ChunkingDoesNotMatter<S(0)>(
      c: Polyphase<S>, chunks: seq<seq<S>>, maximumInput: nat, chunks': seq<seq<S>>, maximumInput': nat)
    returns (y: seq<S>, y': seq<S>)
    requires c.Valid() && Flatten(chunks) == Flatten(chunks')
    requires forall chunk :: chunk in chunks ==> |chunk| <= maximumInput
    requires forall chunk :: chunk in chunks' ==> |chunk| <= maximumInput'
    ensures y == c.Converted(Flatten(chunks))
    ensures y' == y
  {
    hide Polyphase.Converted, Polyphase.Valid, Flatten;
    var converter := new RateConverter<S>(c.inputRate, c.outputRate, maximumInput, c.table, c.arith);
    y := converter.ProcessAll(chunks);
    converter := new RateConverter<S>(c.inputRate, c.outputRate, maximumInput', c.table, c.arith);
    y' := converter.ProcessAll(chunks');
    NothingConverted(c);
    assert [] + Flatten(chunks) == Flatten(chunks);
  }

  lemma NothingConverted<S>(c: Polyphase<S>)
    requires c.Valid()
    ensures c.Converted([]) == []
  {}

  class RateConverter<S(0)> {
    const c: Polyphase<S>
    const maximumInput: nat
    const table: array<S>
    const history: array<S>
    var filled: nat
    var index: nat
    var remainder: nat
    /** Every input sample since the last reset. */
    ghost var heard: seq<S>

    ghost predicate Valid()
      reads this, table, history
    {
      && c.Valid()
      && table != history && table[..] == c.table
      && history.Length == TAPS - 1 + maximumInput
      && filled <= TAPS - 1 && filled <= LEADING_ZEROS + |heard|
      && history[..filled] == c.Padded(heard)[Dropped()..]
      && Dropped() + index == c.Position(Emitted())
      && remainder == c.Remainder(Emitted())
    }

    /** Samples of the padded signal no later window needs. */
    ghost function Dropped(): int
      reads this
    {
      LEADING_ZEROS + |heard| - filled
    }

    ghost function Emitted(): nat
      requires c.Valid()
      reads this
    {
      c.OutputCount(|heard|)
    }

    constructor (inputRate: nat, outputRate: nat, maximumInput: nat, coefficients: seq<S>, arith: Arith<S>)
      requires Polyphase(inputRate, outputRate, coefficients, arith).Valid()
      ensures Valid() && fresh(table) && fresh(history)
      ensures c == Polyphase(inputRate, outputRate, coefficients, arith)
      ensures this.maximumInput == maximumInput && heard == []
    {
      c := Polyphase(inputRate, outputRate, coefficients, arith);
      this.maximumInput := maximumInput;
      table := new S[|coefficients|](i requires 0 <= i < |coefficients| => coefficients[i]);
      history := new S[TAPS - 1 + maximumInput](_ => arith.zero);
      filled, index, remainder := LEADING_ZEROS, 0, 0;
      heard := [];
      new;
      assert history[..filled] == c.Padded([]);
      assert c.Position(0) == 0 && c.Remainder(0) == 0;
    }

    /** Back to the start of a signal: zeros before input 0, position 0. */
    method Reset()
      requires Valid()
      modifies this, history
      ensures Valid() && heard == []
    {
      forall i | 0 <= i < history.Length { history[i] := c.arith.zero; }
      filled, index, remainder := LEADING_ZEROS, 0, 0;
      heard := [];
      assert history[..filled] == c.Padded([]);
      assert c.Position(0) == 0 && c.Remainder(0) == 0;
    }

    /** Between the fill and the compaction: `history` holds the padded signal from `dropped` on,
        and the next output is number `n`. */
    ghost predicate Converting(dropped: nat, n: nat)
      reads this, table, history
    {
      && c.Valid()
      && table != history && table[..] == c.table
      && filled <= history.Length && dropped + filled == LEADING_ZEROS + |heard|
      && history[..filled] == c.Padded(heard)[dropped..]
      && dropped + index == c.Position(n)
      && remainder == c.Remainder(n)
    }

    /** Main result: the outputs of `Process` over any chunks, end to end, are what they add to the
        conversion of everything heard. */
    method ProcessAll(chunks: seq<seq<S>>) returns (y: seq<S>)
      requires Valid() && forall chunk :: chunk in chunks ==> |chunk| <= maximumInput
      modifies this, history
      ensures Valid() && heard == old(heard) + Flatten(chunks)
      ensures c.Converted(old(heard)) + y == c.Converted(heard)
    {
      hide Valid, Polyphase.Converted, Polyphase.MaximumOutput, Flatten;
      y := [];
      ghost var before := heard;
      IsValid();
      NothingFlat<S>();
      assert before + [] == before && c.Converted(before) + [] == c.Converted(before);
      for k := 0 to |chunks|
        invariant Valid() && heard == before + Flatten(chunks[..k])
        invariant c.Converted(before) + y == c.Converted(heard)
      {
        var chunk := chunks[k];
        assert chunk in chunks && chunks[..k + 1] == chunks[..k] + [chunk];
        FlattenAppend(chunks[..k], chunk);
        var input := new S[|chunk|](i requires 0 <= i < |chunk| => chunk[i]);
        var output := new S[c.MaximumOutput(maximumInput)](_ => c.arith.zero);
        assert input[..|chunk|] == chunk;
        var written := Process(input, |chunk|, output, 0);
        Associate(before, Flatten(chunks[..k]), chunk);
        Associate(c.Converted(before), y, output[..written]);
        y := y + output[..written];
      }
      assert chunks[..|chunks|] == chunks;
    }

    lemma IsValid()
      requires Valid()
      ensures c.Valid()
    {}

    /** Converts `count` samples of `input` into `output` from `at` on. The samples written are
        exactly what the new input adds to the conversion of the whole signal. */
    method Process(input: array<S>, count: nat, output: array<S>, at: nat) returns (written: nat)
      requires Valid()
      requires count <= maximumInput && count <= input.Length
      requires at + c.MaximumOutput(maximumInput) <= output.Length
      requires output != history && output != table && output != input && input != history
      modifies this, history, output
      ensures Valid()
      ensures heard == old(heard) + old(input[..count])
      ensures old(Emitted()) + written == Emitted() && written <= c.MaximumOutput(maximumInput)
      ensures output[..at] == old(output[..at])
      ensures c.Converted(heard) == c.Converted(old(heard)) + output[at..at + written]
    {
      hide Polyphase.Position, Polyphase.Remainder, Polyphase.Padded, Polyphase.OutputCount,
           Polyphase.MaximumOutput, Polyphase.Converted;
      ghost var dropped := Dropped();
      c.CallFits(|heard|, count, maximumInput);
      c.ConvertedExtends(heard, input[..count]);
      Fill(input, count);
      written := Convert(output, at, dropped, old(Emitted()));
      Compact(dropped);
      assert output[at..at + written] == output[..at + written][at..];
      assert output[..at] == output[..at + written][..at];
    }

    /** Every output the history has a window for, from number `first` on. */
    method Convert(output: array<S>, at: nat, ghost dropped: nat, ghost first: nat) returns (written: nat)
      requires Converting(dropped, first) && first <= c.OutputCount(|heard|)
      requires at + c.OutputCount(|heard|) - first <= output.Length
      requires output != history && output != table
      modifies `index, `remainder, output
      ensures filled < index + TAPS
      ensures first + written == c.OutputCount(|heard|)
      ensures Converting(dropped, first + written)
      ensures output[..at + written] == old(output[..at]) + c.Converted(heard)[first..]
    {
      hide Polyphase.Position, Polyphase.Remainder, Polyphase.OutputCount, Polyphase.Padded, Polyphase.Converted;
      ghost var whole := c.Converted(heard);
      ghost var prefix := output[..at];
      ghost var n := first;
      written := 0;
      while index + TAPS <= filled
        invariant Converting(dropped, n)
        invariant n == first + written <= |whole|
        invariant output[..at + written] == prefix + whole[first..n]
        decreases |whole| - n
      {
        WindowOfSignal(dropped, n);
        Emit(output, at + written, dropped, n);
        SliceGrows(prefix, whole, first, n);
        n := n + 1;
        written := written + 1;
      }
      c.CountIsExact(|heard|, n);
    }

    /** Output number `n`, and on to the next position. */
    method Emit(output: array<S>, slot: nat, ghost dropped: nat, ghost n: nat)
      requires Converting(dropped, n) && index + TAPS <= filled
      requires slot < output.Length && output != history && output != table
      modifies `index, `remainder, output
      ensures Converting(dropped, n + 1)
      ensures n < c.OutputCount(|heard|)
      ensures output[..slot + 1] == old(output[..slot]) + [c.Converted(heard)[n]]
    {
      var value := Window();
      WindowOfSignal(dropped, n);
      Advance(dropped, n);
      output[slot] := value;
    }

    /** On to the next output's position. */
    method Advance(ghost dropped: nat, ghost n: nat)
      requires Converting(dropped, n)
      modifies this`index, this`remainder
      ensures Converting(dropped, n + 1)
    {
      hide Polyphase.Position, Polyphase.Remainder, Polyphase.Padded;
      c.PositionStep(n);
      remainder := remainder + c.inputRate;
      var whole := remainder / c.outputRate;
      assert whole == (c.Remainder(n) + c.inputRate) / c.outputRate;
      index := index + whole;
      remainder := remainder % c.outputRate;
    }

    /** The new input goes behind what the history still holds. */
    method Fill(input: array<S>, count: nat)
      requires Valid() && input != history
      requires count <= maximumInput && count <= input.Length
      modifies this, history
      ensures Converting(old(Dropped()), old(Emitted()))
      ensures heard == old(heard) + input[..count]
    {
      hide Polyphase.Position, Polyphase.Remainder, Polyphase.Valid;
      ghost var dropped, behind, more := Dropped(), history[..filled], input[..count];
      forall i | 0 <= i < count { history[filled + i] := input[i]; }
      assert history[..filled + count] == behind + more;
      c.PaddedAppend(heard, more);
      assert input[..count] == more;
      heard := heard + input[..count];
      filled := filled + count;
    }

    /** A window in the history is that window of the padded signal. */
    lemma WindowOfSignal(dropped: nat, n: nat)
      requires Converting(dropped, n) && index + TAPS <= filled
      ensures n < c.OutputCount(|heard|)
      ensures c.Converted(heard)[n] == c.Windowed(remainder, history[index..index + TAPS])
    {
      var p := dropped + index;
      var window := history[index..index + TAPS];
      forall k | 0 <= k < TAPS ensures window[k] == c.Padded(heard)[p..p + TAPS][k] {
        assert window[k] == history[..filled][index + k];
      }
      assert window == c.Padded(heard)[p..p + TAPS];
      c.WindowIsOutput(heard, n, p, window);
    }

    /** Keeps what the next window starts on. */
    method Compact(ghost dropped: nat)
      requires history.Length == TAPS - 1 + maximumInput
      requires c.Valid() && Converting(dropped, Emitted()) && filled < index + TAPS
      modifies this, history
      ensures Valid() && heard == old(heard)
    {
      var consumed := if index < filled then index else filled;
      assert history[..filled][consumed..] == c.Padded(heard)[dropped + consumed..];
      forall i | 0 <= i < filled - consumed { history[i] := history[consumed + i]; }
      assert history[..filled - consumed] == old(history[..filled])[consumed..];
      filled := filled - consumed;
      index := index - consumed;
    }

    /** The innermost loop: one window's blended dot product. */
    method Window() returns (accumulator: S)
      requires c.Valid() && table[..] == c.table && remainder < c.outputRate
      requires index + TAPS <= history.Length
      ensures accumulator == c.Windowed(remainder, history[index..index + TAPS])
    {
      c.PhaseInTable(remainder);
      var scaled := remainder * PHASES;
      var phase := scaled / c.outputRate;
      var blend := c.arith.ratio(scaled % c.outputRate, c.outputRate);
      var low := phase * TAPS;
      var high := low + TAPS;
      ghost var window := history[index..index + TAPS];
      accumulator := c.arith.zero;
      var k := 0;
      while k < TAPS
        invariant k <= TAPS
        invariant accumulator == c.Dot(phase, blend, window, k)
      {
        assert table[low + k] == c.table[phase * TAPS + k] && table[high + k] == c.table[(phase + 1) * TAPS + k];
        accumulator := c.arith.add(
          accumulator,
          c.arith.mul(
            c.arith.add(table[low + k], c.arith.mul(c.arith.sub(table[high + k], table[low + k]), blend)),
            history[index + k]));
        k := k + 1;
      }
    }
  }
}
