/** The drain loop of `ProcessingThread.swift`: device samples read from every lane in equal counts,
    converted in step and cut into frames. */
module ProcessingThread {
  import opened Arithmetic
  import opened Samples
  import opened RateConverter

  /** One frame: the same number of samples for every lane. */
  type Frame<S> = seq<seq<S>>

  /** One lane of the frames, end to end. */
  function LaneOf<S>(frames: seq<Frame<S>>, lane: nat): seq<S> {
    if frames == [] then []
    else
      var last := frames[|frames| - 1];
      LaneOf(frames[..|frames| - 1], lane) + (if lane < |last| then last[lane] else [])
  }

  ghost predicate Framed<S>(frames: seq<Frame<S>>, lanes: nat, size: nat) {
    forall f :: 0 <= f < |frames| ==> IsFrame(frames[f], lanes, size)
  }

  ghost predicate IsFrame<S>(frame: Frame<S>, lanes: nat, size: nat) {
    |frame| == lanes && forall l :: 0 <= l < lanes ==> |frame[l]| == size
  }

  /** Frames that spell a signal, with less than a frame left over, are that signal cut into
      frames: frame `k` is its `k`-th run of `size` samples. */
  lemma {:induction false} FramesCutTheSignal<S>(
    frames: seq<Frame<S>>, lanes: nat, lane: nat, size: nat, rest: seq<S>, signal: seq<S>, k: nat)
    requires Framed(frames, lanes, size) && lane < lanes
    requires LaneOf(frames, lane) + rest == signal && |rest| < size && k < |frames|
    ensures |frames| == |signal| / size && |rest| == |signal| % size
    ensures k * size + size <= |signal| && frames[k][lane] == signal[k * size..k * size + size]
    decreases |frames|
  {
    LaneLength(frames, lanes, lane, size);
    ModUnique(|signal|, size, |frames|, |rest|);
    var last := |frames| - 1;
    LaneLength(frames[..last], lanes, lane, size);
    assert IsFrame(frames[last], lanes, size);
    if k == last {
      assert signal[last * size..last * size + size] == frames[last][lane];
    } else {
      var shorter := signal[..last * size];
      assert shorter == LaneOf(frames[..last], lane) + [];
      FramesCutTheSignal(frames[..last], lanes, lane, size, [], shorter, k);
    }
  }

  lemma {:induction false} LaneLength<S>(frames: seq<Frame<S>>, lanes: nat, lane: nat, size: nat)
    requires Framed(frames, lanes, size) && lane < lanes
    ensures |LaneOf(frames, lane)| == |frames| * size
    decreases |frames|
  {
    if frames != [] {
      var last := |frames| - 1;
      assert IsFrame(frames[last], lanes, size);
      LaneLength(frames[..last], lanes, lane, size);
      assert |LaneOf(frames, lane)| == last * size + size;
      assert |frames| * size == last * size + size;
    }
  }

  /** One lane's buffers, all different. */
  ghost predicate LaneParts<S(0)>(
    c: Polyphase<S>, read: nat, input: array<S>, converter: RateConverter<S>, output: array<S>, buffer: array<S>)
  {
    && converter.c == c && converter.maximumInput == read
    && output != input && buffer != input && output != buffer
    && input != converter.history && input != converter.table
    && output != converter.history && output != converter.table
    && buffer != converter.history && buffer != converter.table
  }

  /** One lane's buffers and another's. */
  ghost predicate PartsApart<S(0)>(
    converter: RateConverter<S>, output: array<S>, buffer: array<S>,
    converter': RateConverter<S>, output': array<S>, buffer': array<S>)
  {
    && converter != converter' && output != output' && buffer != buffer'
    && output != buffer'
    && converter.history != converter'.history && converter.history != converter'.table
    && output != converter'.history && output != converter'.table
    && buffer != converter'.history && buffer != converter'.table
  }

  method MakeLanes<S(0)>(lanes: nat, c: Polyphase<S>, read: nat, frameSize: nat, input: array<S>)
    returns (converters: seq<RateConverter<S>>, outputs: seq<array<S>>, buffers: seq<array<S>>)
    requires c.Valid()
    ensures |converters| == |outputs| == |buffers| == lanes
    ensures forall l :: 0 <= l < lanes ==> outputs[l].Length == frameSize + c.MaximumOutput(read)
    ensures forall l :: 0 <= l < lanes ==> buffers[l].Length == frameSize
    ensures forall l :: 0 <= l < lanes ==> converters[l].Valid() && converters[l].heard == []
    ensures forall l :: 0 <= l < lanes ==> LaneParts(c, read, input, converters[l], outputs[l], buffers[l])
    ensures forall l, m :: 0 <= l < lanes && 0 <= m < lanes && l != m ==>
      PartsApart(converters[l], outputs[l], buffers[l], converters[m], outputs[m], buffers[m])
  {
    hide Polyphase.MaximumOutput, Polyphase.OutputCount, Polyphase.Position, Polyphase.Remainder, Polyphase.Padded,
         RateConverter.Valid;
    converters, outputs, buffers := [], [], [];
    while |converters| < lanes
      invariant |converters| == |outputs| == |buffers| <= lanes
      invariant forall l :: 0 <= l < |outputs| ==> outputs[l].Length == frameSize + c.MaximumOutput(read)
      invariant forall l :: 0 <= l < |buffers| ==> buffers[l].Length == frameSize
      invariant forall l :: 0 <= l < |converters| ==> converters[l].Valid() && converters[l].heard == []
      invariant forall l :: 0 <= l < |converters| ==> LaneParts(c, read, input, converters[l], outputs[l], buffers[l])
      invariant forall l, m :: 0 <= l < |converters| && 0 <= m < |converters| && l != m ==>
        PartsApart(converters[l], outputs[l], buffers[l], converters[m], outputs[m], buffers[m])
    {
      var converter := new RateConverter<S>(c.inputRate, c.outputRate, read, c.table, c.arith);
      var output := new S[frameSize + c.MaximumOutput(read)](_ => c.arith.zero);
      var buffer := new S[frameSize](_ => c.arith.zero);
      converters, outputs, buffers := converters + [converter], outputs + [output], buffers + [buffer];
    }
  }

  class ProcessingThread<S(0)> {
    const c: Polyphase<S>
    const lanes: nat
    const frameSize: nat
    /** One read of device samples: a frame's worth. */
    const read: nat
    const converters: seq<RateConverter<S>>
    const input: array<S>
    /** Converted samples a lane; the first `pending` are not yet framed. */
    const output: seq<array<S>>
    const laneBuffers: seq<array<S>>
    var pending: nat
    /** What each of the sink's rings holds. */
    var queues: seq<seq<S>>
    /** Every frame handed to `processFrame`. */
    var frames: seq<Frame<S>>
    /** Every sample the sink's producer has written, a lane. */
    ghost var arrived: seq<seq<S>>

    constructor (inputRate: nat, outputRate: nat, table: seq<S>, arith: Arith<S>, lanes: nat, frameSize: nat)
      requires Polyphase(inputRate, outputRate, table, arith).Valid() && frameSize > 0
      ensures Valid(0) && c == Polyphase(inputRate, outputRate, table, arith)
      ensures this.lanes == lanes && this.frameSize == frameSize
      ensures read == CeilDiv(frameSize * inputRate, outputRate)
      ensures frames == [] && forall l :: 0 <= l < lanes ==> arrived[l] == []
    {
      c := Polyphase(inputRate, outputRate, table, arith);
      this.lanes, this.frameSize := lanes, frameSize;
      var size := CeilDiv(frameSize * inputRate, outputRate);
      BelowCeilDiv(0, frameSize * inputRate, outputRate);
      MulMonotone(1, frameSize, inputRate);
      read := size;
      var samples := new S[size](_ => arith.zero);
      input := samples;
      var made, outputs, buffers :=
        MakeLanes(lanes, Polyphase(inputRate, outputRate, table, arith), size, frameSize, samples);
      converters, output, laneBuffers := made, outputs, buffers;
      pending := 0;
      queues, frames, arrived := seq(lanes, _ => []), [], seq(lanes, _ => []);
      new;
      hide Polyphase.MaximumOutput, Polyphase.Position, Polyphase.Remainder;
      assert c.OutputCount(0) == 0;
      assert c.Converted([]) == [];
    }

    /** The fixed parts: sizes, and buffers that are all different. */
    ghost predicate Built() {
      && c.Valid() && frameSize > 0 && read > 0
      && |converters| == |output| == |laneBuffers| == lanes
      && input.Length == read
      && (forall l :: 0 <= l < lanes ==> LaneBuilt(l))
      && (forall l :: 0 <= l < lanes ==> output[l].Length == frameSize + c.MaximumOutput(read))
      && (forall l :: 0 <= l < lanes ==> laneBuffers[l].Length == frameSize)
      && (forall l, m :: 0 <= l < lanes && 0 <= m < lanes && l != m ==> Apart(l, m))
    }

    ghost predicate LaneBuilt(l: nat)
      requires c.Valid() && l < |converters| && l < |output| && l < |laneBuffers|
    {
      LaneParts(c, read, input, converters[l], output[l], laneBuffers[l])
    }

    ghost predicate Apart(l: nat, m: nat)
      requires l < |converters| && l < |output| && l < |laneBuffers|
      requires m < |converters| && m < |output| && m < |laneBuffers|
    {
      && PartsApart(converters[l], output[l], laneBuffers[l], converters[m], output[m], laneBuffers[m])
      && PartsApart(converters[m], output[m], laneBuffers[m], converters[l], output[l], laneBuffers[l])
    }

    /** A lane that has heard `heard` samples and holds `upTo` converted ones from `from` on: those
        and the frames are its whole converted signal. */
    ghost predicate LaneHolds(l: nat, from: nat, upTo: nat, heard: nat)
      requires Built() && l < lanes
      reads `queues, `arrived, `frames, converters[l], converters[l].table, converters[l].history, output[l]
    {
      && converters[l].Valid()
      && from <= upTo <= output[l].Length
      && |converters[l].heard| == heard
      && |queues| == |arrived| == lanes
      && converters[l].heard + queues[l] == arrived[l]
      && LaneOf(frames, l) + output[l][from..upTo] == c.Converted(converters[l].heard)
    }

    ghost predicate LanesHold(first: nat, end: nat, from: nat, upTo: nat, heard: nat)
      requires Built() && end <= lanes
      reads `queues, `arrived, `frames, converters, set l | 0 <= l < |converters| :: converters[l].table
      reads set l | 0 <= l < |converters| :: converters[l].history
      reads output
    {
      forall l :: first <= l < end ==> LaneHolds(l, from, upTo, heard)
    }

    ghost predicate Valid(heard: nat)
      reads this, converters, set l | 0 <= l < |converters| :: converters[l].table
      reads set l | 0 <= l < |converters| :: converters[l].history
      reads output
    {
      && Built()
      && pending < frameSize
      && |queues| == |arrived| == lanes
      && Framed(frames, lanes, frameSize)
      && LanesHold(0, lanes, 0, pending, heard)
    }

    /** What the rings hold at least, on every lane. */
    function Available(): (available: nat)
      reads this
      ensures forall l :: 0 <= l < |queues| ==> available <= |queues[l]|
      ensures |queues| == 0 ==> available == 0
      ensures |queues| > 0 ==> exists l :: 0 <= l < |queues| && available == |queues[l]|
    {
      Shortest(queues)
    }

    /** One lane's read and conversion. The other lanes are left alone. */
    method ConvertLane(l: nat, count: nat, ghost heard: nat) returns (written: nat)
      requires Built() && l < lanes
      requires LaneHolds(l, 0, pending, heard)
      requires pending < frameSize && count <= read && count <= |queues[l]|
      modifies this`queues, converters[l], converters[l].history, output[l], input
      ensures queues == old(queues)[l := old(queues[l])[count..]]
      ensures c.OutputCount(heard) + written == c.OutputCount(heard + count)
      ensures LaneHolds(l, 0, pending + written, heard + count)
    {
      hide Polyphase.OutputCount, Polyphase.Converted, Polyphase.MaximumOutput, Polyphase.Position, Polyphase.Remainder,
           Polyphase.Padded, LaneOf, RateConverter.Valid, RateConverter.Dropped;
      assert LaneBuilt(l);
      ghost var before := converters[l].heard;
      ReadRing(l, count);
      written := converters[l].Process(input, count, output[l], pending);
      SplitAppends(LaneOf(frames, l), output[l][..pending + written], pending, c.Converted(before));
      assert before + input[..count] + queues[l] == before + (input[..count] + queues[l]);
    }

    /** Every lane takes the same number of samples, so every converter writes the same number: the
        last lane's count serves them all. */
    method ConvertLanes(count: nat, ghost heard: nat) returns (written: nat)
      requires Valid(heard) && count <= read && count <= Available()
      modifies `queues, converters, set l | 0 <= l < |converters| :: converters[l].history
      modifies output, input
      ensures |queues| == lanes && forall l :: 0 <= l < lanes ==> queues[l] == old(queues)[l][count..]
      ensures lanes > 0 ==> c.OutputCount(heard) + written == c.OutputCount(heard + count)
      ensures LanesHold(0, lanes, 0, pending + written, heard + count)
    {
      hide Polyphase.OutputCount, LaneOf, RateConverter.Valid, LaneHolds, LaneBuilt;
      written := 0;
      var index := 0;
      assert LanesHold(0, index, 0, pending + written, heard + count);
      hide LanesHold;
      while index < lanes
        invariant 0 <= index <= lanes
        invariant |queues| == lanes
        invariant forall l :: 0 <= l < lanes ==> queues[l] == if l < index then old(queues)[l][count..] else old(queues)[l]
        invariant index > 0 ==> c.OutputCount(heard) + written == c.OutputCount(heard + count)
        invariant LanesHold(0, index, 0, pending + written, heard + count)
        invariant LanesHold(index, lanes, 0, pending, heard)
      {
        written := ConvertNext(index, count, heard, written);
        index := index + 1;
      }
    }

    method ConvertNext(index: nat, count: nat, ghost heard: nat, ghost before: nat) returns (written: nat)
      requires Built() && index < lanes == |queues| && pending < frameSize
      requires count <= read && count <= |queues[index]|
      requires index > 0 ==> c.OutputCount(heard) + before == c.OutputCount(heard + count)
      requires LanesHold(0, index, 0, pending + before, heard + count)
      requires LanesHold(index, lanes, 0, pending, heard)
      modifies this`queues, converters[index], converters[index].history, output[index], input
      ensures queues == old(queues)[index := old(queues[index])[count..]]
      ensures c.OutputCount(heard) + written == c.OutputCount(heard + count)
      ensures LanesHold(0, index + 1, 0, pending + written, heard + count)
      ensures LanesHold(index + 1, lanes, 0, pending, heard)
    {
      hide Polyphase.OutputCount, LaneOf, RateConverter.Valid, RateConverter.Dropped, RateConverter.Emitted, Polyphase.Padded;
      ghost var (upTo, now) := (pending + before, heard + count);
      written := ConvertLane(index, count, heard);
      assert index > 0 ==> upTo == pending + written;
      forall l | 0 <= l < index ensures LaneHolds(l, 0, upTo, now) {
        assert LaneBuilt(l) && Apart(l, index) && Apart(index, l);
        assert old(LaneHolds(l, 0, upTo, now));
      }
      forall l | index < l < lanes ensures LaneHolds(l, 0, pending, heard) {
        assert LaneBuilt(l) && Apart(l, index) && Apart(index, l);
        assert old(LaneHolds(l, 0, pending, heard));
      }
    }

    method ReadRing(l: nat, count: nat)
      requires l < |queues| && count <= |queues[l]| && count <= input.Length
      modifies this`queues, input
      ensures queues == old(queues)[l := old(queues[l])[count..]]
      ensures input[..count] + queues[l] == old(queues[l])
    {
      forall i | 0 <= i < count { input[i] := queues[l][i]; }
      queues := queues[l := queues[l][count..]];
    }

    /** The next whole frame of every lane, from `start`, goes to `processFrame`. */
    method CutFrame(start: nat, ghost heard: nat)
      requires Built() && Framed(frames, lanes, frameSize)
      requires start + frameSize <= pending <= frameSize + c.MaximumOutput(read)
      requires |queues| == |arrived| == lanes
      requires LanesHold(0, lanes, start, pending, heard)
      modifies `frames, laneBuffers
      ensures |frames| == |old(frames)| + 1 && old(frames) == frames[..|old(frames)|]
      ensures Framed(frames, lanes, frameSize)
      ensures LanesHold(0, lanes, start + frameSize, pending, heard)
    {
      hide RateConverter.Valid, RateConverter.Dropped, RateConverter.Emitted, Polyphase.Converted, Polyphase.Padded,
           Polyphase.MaximumOutput;
      ghost var end := start + frameSize;
      CopyFrame(start);
      ProcessFrame();
      assert IsFrame(frames[|frames| - 1], lanes, frameSize);
      forall l | 0 <= l < lanes ensures LaneHolds(l, end, pending, heard) {
        assert old(LaneHolds(l, start, pending, heard));
        BuffersApart(l);
        FrameMoves(old(frames), frames, l, output[l][start..pending], frameSize);
        assert output[l][start..pending][frameSize..] == output[l][end..pending];
      }
    }

    lemma BuffersApart(l: nat)
      requires Built() && l < lanes
      ensures converters[l].history !in laneBuffers && converters[l].table !in laneBuffers && output[l] !in laneBuffers
    {
      forall m | 0 <= m < lanes
        ensures laneBuffers[m] != converters[l].history && laneBuffers[m] != converters[l].table
        ensures laneBuffers[m] != output[l]
      {
        assert LaneBuilt(l) && (m != l ==> Apart(l, m) && Apart(m, l));
      }
    }

    /** The first frame's worth of every lane's converted samples into the lane buffers. */
    method CopyFrame(start: nat)
      requires Built() && start + frameSize <= frameSize + c.MaximumOutput(read)
      modifies laneBuffers
      ensures forall l :: 0 <= l < lanes ==> laneBuffers[l][..] == output[l][start..start + frameSize]
    {
      hide Polyphase.MaximumOutput;
      var index := 0;
      while index < lanes
        invariant 0 <= index <= lanes
        invariant forall l :: 0 <= l < index ==> laneBuffers[l][..] == output[l][start..start + frameSize]
      {
        CopyLane(index, start);
        index := index + 1;
      }
    }

    method CopyLane(index: nat, start: nat)
      requires Built() && index < lanes && start + frameSize <= frameSize + c.MaximumOutput(read)
      requires forall l :: 0 <= l < index ==> laneBuffers[l][..] == output[l][start..start + frameSize]
      modifies laneBuffers[index]
      ensures forall l :: 0 <= l <= index ==> laneBuffers[l][..] == output[l][start..start + frameSize]
    {
      hide Polyphase.MaximumOutput;
      assert LaneBuilt(index);
      forall i | 0 <= i < frameSize { laneBuffers[index][i] := output[index][start + i]; }
      forall l | 0 <= l < index ensures laneBuffers[l][..] == output[l][start..start + frameSize] {
        assert Apart(l, index);
      }
    }

    /** Every whole frame the lanes hold; less than one is left, from `start` on. */
    method CutFrames(ghost heard: nat) returns (start: nat)
      requires Built() && Framed(frames, lanes, frameSize)
      requires pending <= frameSize + c.MaximumOutput(read)
      requires |queues| == |arrived| == lanes
      requires LanesHold(0, lanes, 0, pending, heard)
      modifies `frames, laneBuffers
      ensures start <= pending < start + frameSize
      ensures |frames| >= |old(frames)| && old(frames) == frames[..|old(frames)|]
      ensures Framed(frames, lanes, frameSize)
      ensures LanesHold(0, lanes, start, pending, heard)
    {
      hide LanesHold, Polyphase.MaximumOutput;
      start := 0;
      while pending - start >= frameSize
        invariant start <= pending
        invariant |frames| >= |old(frames)| && old(frames) == frames[..|old(frames)|]
        invariant Framed(frames, lanes, frameSize)
        invariant LanesHold(0, lanes, start, pending, heard)
        decreases pending - start
      {
        CutFrame(start, heard);
        start := start + frameSize;
      }
    }

    /** What is not framed yet moves to the front. */
    method Shift(start: nat, ghost heard: nat)
      requires Built() && |queues| == |arrived| == lanes
      requires start <= pending <= frameSize + c.MaximumOutput(read)
      requires LanesHold(0, lanes, start, pending, heard)
      modifies output
      ensures LanesHold(0, lanes, 0, pending - start, heard)
    {
      hide RateConverter.Valid, RateConverter.Dropped, RateConverter.Emitted, Polyphase.Converted, Polyphase.Padded,
           Polyphase.MaximumOutput, LaneOf;
      var index := 0;
      while index < lanes
        invariant 0 <= index <= lanes
        invariant LanesHold(0, index, 0, pending - start, heard)
        invariant LanesHold(index, lanes, start, pending, heard)
      {
        ShiftLane(index, start, heard);
        index := index + 1;
      }
    }

    method ShiftLane(index: nat, start: nat, ghost heard: nat)
      requires Built() && index < lanes && |queues| == |arrived| == lanes
      requires start <= pending <= frameSize + c.MaximumOutput(read)
      requires LanesHold(0, index, 0, pending - start, heard)
      requires LanesHold(index, lanes, start, pending, heard)
      modifies output[index]
      ensures LanesHold(0, index + 1, 0, pending - start, heard)
      ensures LanesHold(index + 1, lanes, start, pending, heard)
    {
      hide RateConverter.Valid, RateConverter.Dropped, RateConverter.Emitted, Polyphase.Converted, Polyphase.Padded,
           Polyphase.MaximumOutput, LaneOf;
      ghost var left := pending - start;
      assert LaneHolds(index, start, pending, heard) && LaneBuilt(index);
      forall i | 0 <= i < pending - start { output[index][i] := output[index][start + i]; }
      assert output[index][0..left] == old(output[index][start..pending]);
      forall l | 0 <= l < index ensures LaneHolds(l, 0, left, heard) {
        assert Apart(l, index) && Apart(index, l);
        assert old(LaneHolds(l, 0, left, heard));
      }
      forall l | index < l < lanes ensures LaneHolds(l, start, pending, heard) {
        assert Apart(l, index) && Apart(index, l);
        assert old(LaneHolds(l, start, pending, heard));
      }
    }

    /** What the producer has written by the next look at the rings: any number of samples on any
        lane, since it may be between two lanes of a block. */
    method Arrive(more: seq<seq<S>>, ghost heard: nat)
      requires Valid(heard) && |more| == lanes
      modifies `queues, `arrived
      ensures Valid(heard)
      ensures arrived == Joined(old(arrived), more) && queues == Joined(old(queues), more)
    {
      hide RateConverter.Valid, RateConverter.Dropped, RateConverter.Emitted, Polyphase.Converted, LaneOf;
      queues := Joined(queues, more);
      arrived := Joined(arrived, more);
      forall l | 0 <= l < lanes ensures LaneHolds(l, 0, pending, heard) {
        assert old(LaneHolds(l, 0, pending, heard));
        assert converters[l].heard + (old(queues)[l] + more[l]) == converters[l].heard + old(queues)[l] + more[l];
      }
    }

    /** One pass of the loop: read, convert and frame. */
    method DrainOnce(count: nat, ghost heard: nat)
      requires Valid(heard) && 0 < count <= read && count <= Available()
      modifies this`queues, this`pending, this`frames, converters, set l | 0 <= l < |converters| :: converters[l].history
      modifies output, input, laneBuffers
      ensures Valid(heard + count)
      ensures |old(frames)| <= |frames| && old(frames) == frames[..|old(frames)|]
      ensures forall l :: 0 <= l < lanes ==> queues[l] == old(queues)[l][count..]
    {
      hide LanesHold, LaneHolds, Polyphase.OutputCount, Polyphase.MaximumOutput;
      c.CallFits(heard, count, read);
      var written := ConvertLanes(count, heard);
      pending := pending + written;
      var start := CutFrames(heard + count);
      Shift(start, heard + count);
      pending := pending - start;
    }

    /** `drainConverted` with a producer beside it: `arrivals[k]` is what it writes before the loop's
        `k`-th look at the rings. The loop ends at the first look that finds a lane empty. */
    method DrainConverted(arrivals: seq<seq<seq<S>>>, ghost heard: nat) returns (looks: nat, ghost now: nat)
      requires Valid(heard) && forall a :: 0 <= a < |arrivals| ==> |arrivals[a]| == lanes
      modifies this`queues, this`arrived, this`pending, this`frames
      modifies converters, set l | 0 <= l < |converters| :: converters[l].history
      modifies output, input, laneBuffers
      ensures Valid(now) && heard <= now && looks <= |arrivals|
      ensures arrived == AllJoined(old(arrived), arrivals[..looks])
      ensures |old(frames)| <= |frames| && old(frames) == frames[..|old(frames)|]
      ensures Available() == 0
    {
      assert AllJoined(arrived, arrivals[..0]) == arrived;
      hide LanesHold, LaneHolds, Built, Framed, AllJoined;
      looks, now := 0, heard;
      var done := false;
      while !done
        invariant Valid(now) && heard <= now && looks <= |arrivals|
        invariant arrived == AllJoined(old(arrived), arrivals[..looks])
        invariant |old(frames)| <= |frames| && old(frames) == frames[..|old(frames)|]
        invariant done ==> Available() == 0
        decreases |arrivals| - looks, Backlog(), !done
      {
        looks, now, done := Pass(old(arrived), arrivals, looks, now);
      }
    }

    /** What the first lane's ring holds. */
    function Backlog(): nat
      reads `queues
    {
      if |queues| > 0 then |queues[0]| else 0
    }

    /** One turn of the loop: a look at the rings, then a pass over what every lane has. */
    method Pass(ghost first: seq<seq<S>>, arrivals: seq<seq<seq<S>>>, looked: nat, ghost heard: nat)
      returns (looks: nat, ghost now: nat, done: bool)
      requires Valid(heard) && looked <= |arrivals|
      requires |first| == lanes && forall a :: 0 <= a < |arrivals| ==> |arrivals[a]| == lanes
      requires arrived == AllJoined(first, arrivals[..looked])
      modifies this`queues, this`arrived, this`pending, this`frames
      modifies converters, set l | 0 <= l < |converters| :: converters[l].history
      modifies output, input, laneBuffers
      ensures Valid(now) && heard <= now && looked <= looks <= |arrivals|
      ensures arrived == AllJoined(first, arrivals[..looks])
      ensures |old(frames)| <= |frames| && old(frames) == frames[..|old(frames)|]
      ensures done ==> Available() == 0
      ensures looks > looked || Backlog() < old(Backlog()) || (done && Backlog() == old(Backlog()))
    {
      hide LanesHold, LaneHolds, Framed, Joined, Polyphase.Valid;
      looks, now := looked, heard;
      if looks < |arrivals| {
        assert arrivals[..looks + 1][..looks] == arrivals[..looks];
        Arrive(arrivals[looks], heard);
        looks := looks + 1;
      }
      var available := Available();
      var count := if available < read then available else read;
      done := count == 0;
      if !done {
        DrainOnce(count, heard);
        now := now + count;
      }
    }

    /** Main result: after any drains, what a lane's frames hold is the conversion of everything the
        lane has read, cut into frames; nothing is lost, repeated or reordered, less than a frame
        waits, and every lane has read equally much. */
    lemma FramesAreTheConvertedStream(heard: nat, l: nat, k: nat)
      requires Valid(heard) && l < lanes && k < |frames|
      ensures heard <= |arrived[l]|
      ensures pending == c.OutputCount(heard) % frameSize && |frames| == c.OutputCount(heard) / frameSize
      ensures k * frameSize + frameSize <= c.OutputCount(heard) && l < |frames[k]|
      ensures frames[k][l] == c.Converted(arrived[l][..heard])[k * frameSize..k * frameSize + frameSize]
    {
      hide Polyphase.OutputCount, Polyphase.Converted, LaneOf, RateConverter.Valid;
      assert LaneHolds(l, 0, pending, heard);
      assert arrived[l][..heard] == converters[l].heard;
      assert IsFrame(frames[k], lanes, frameSize);
      FramesCutTheSignal(frames, lanes, l, frameSize, output[l][0..pending], c.Converted(converters[l].heard), k);
    }

    method ProcessFrame()
      requires |laneBuffers| == lanes
      modifies `frames
      ensures |frames| == |old(frames)| + 1 && frames[..|old(frames)|] == old(frames)
      ensures |frames[|old(frames)|]| == lanes
      ensures forall l :: 0 <= l < lanes ==> frames[|old(frames)|][l] == laneBuffers[l][..]
    {
      var frame := [];
      while |frame| < lanes
        invariant |frame| <= lanes
        invariant forall l :: 0 <= l < |frame| ==> frame[l] == laneBuffers[l][..]
      {
        frame := frame + [laneBuffers[|frame|][..]];
      }
      frames := frames + [frame];
    }
  }

  /** The next frame taken from what a lane holds leaves what it spells unchanged. */
  lemma FrameMoves<S>(before: seq<Frame<S>>, after: seq<Frame<S>>, lane: nat, held: seq<S>, size: nat)
    requires |after| == |before| + 1 && after[..|before|] == before
    requires size <= |held| && lane < |after[|before|]| && after[|before|][lane] == held[..size]
    ensures LaneOf(after, lane) + held[size..] == LaneOf(before, lane) + held
  {
    assert held == held[..size] + held[size..];
  }

  lemma SplitAppends<T>(spelt: seq<T>, held: seq<T>, at: nat, signal: seq<T>)
    requires at <= |held| && spelt + held[..at] == signal
    ensures spelt + held == signal + held[at..]
  {
    assert held == held[..at] + held[at..];
  }

  /** Lane by lane, `more` behind `before`. */
  function Joined<S>(before: seq<seq<S>>, more: seq<seq<S>>): (j: seq<seq<S>>)
    requires |before| == |more|
    ensures |j| == |before|
    ensures forall l :: 0 <= l < |j| ==> j[l] == before[l] + more[l]
  {
    seq(|before|, l requires 0 <= l < |before| => before[l] + more[l])
  }

  function AllJoined<S>(before: seq<seq<S>>, arrivals: seq<seq<seq<S>>>): (j: seq<seq<S>>)
    requires forall a :: 0 <= a < |arrivals| ==> |arrivals[a]| == |before|
    ensures |j| == |before|
  {
    if arrivals == [] then before
    else Joined(AllJoined(before, arrivals[..|arrivals| - 1]), arrivals[|arrivals| - 1])
  }

  function Shortest<S>(queues: seq<seq<S>>): (n: nat)
    ensures forall l :: 0 <= l < |queues| ==> n <= |queues[l]|
    ensures |queues| == 0 ==> n == 0
    ensures |queues| > 0 ==> exists l :: 0 <= l < |queues| && n == |queues[l]|
  {
    if queues == [] then 0
    else
      var last := |queues[|queues| - 1]|;
      if |queues| == 1 || last < Shortest(queues[..|queues| - 1]) then last
      else Shortest(queues[..|queues| - 1])
  }
}
