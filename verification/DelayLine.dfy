/** The far-end delay line of `ProcessingThread.swift`: a ring primed with zeros that each frame of
    the system lane is written to and read from. */
module DelayLine {
  import opened LaneRing
  import opened Samples

  class DelayLine<S(0)> {
    const line: LaneRingBuffer<S>
    const delay: nat
    const frameSize: nat
    const delayedFar: array<S>
    /** The system lane so far, and what the canceller was given as its far end. */
    ghost var system: seq<S>
    ghost var farEnd: seq<S>

    /** The far end is the system lane `delay` samples late, zeros first. */
    ghost predicate Valid()
      reads this, line, line.storage
    {
      && line.Valid() && line.dropped == 0
      && delayedFar.Length == frameSize && delayedFar != line.storage
      && line.capacity >= delay + frameSize
      && |farEnd| == |system|
      && farEnd + line.Contents() == Zeros(line.arith, delay) + system
    }

    constructor (delay: nat, frameSize: nat, arith: Arith<S>)
      ensures Valid() && this.delay == delay && this.frameSize == frameSize
      ensures fresh(line) && fresh(line.storage) && fresh(delayedFar)
      ensures system == [] && line.arith == arith
    {
      var ring := new LaneRingBuffer<S>(delay + frameSize, arith);
      var primed := ring.WriteZeros(delay);
      line := ring;
      this.delay, this.frameSize := delay, frameSize;
      delayedFar := new S[frameSize](_ => arith.zero);
      system, farEnd := [], [];
    }

    /** One frame. Neither the write nor the read is ever refused. */
    method Process(frame: array<S>)
      requires Valid() && frame.Length == frameSize && frame != line.storage && frame != delayedFar
      modifies this`system, this`farEnd, line, line.storage, delayedFar
      ensures Valid()
      ensures system == old(system) + frame[..]
      ensures farEnd == old(farEnd) + delayedFar[..]
    {
      hide LaneRingBuffer.Contents;
      ghost var before := line.Contents();
      ghost var samples := frame[..];
      assert |before| == delay by {
        assert |farEnd + before| == delay + |system|;
      }
      var wrote := line.Write(frame, frameSize, 1);
      assert Strided(samples, 1, frameSize) == samples;
      assert line.Contents() == before + samples;
      var read := line.Read(delayedFar, frameSize);
      ghost var all := before + samples;
      assert frameSize == 0 || (wrote && read);
      assert delayedFar[..] == all[..frameSize] && line.Contents() == all[frameSize..];
      FrameShifts(farEnd, before, samples, Zeros(line.arith, delay), system, frameSize);
      system := system + samples;
      farEnd := farEnd + delayedFar[..];
    }

    /** Main result: sample by sample, the far end is the delayed system lane. */
    lemma FarEndIsDelayed(i: nat)
      requires Valid() && i < |farEnd|
      ensures farEnd[i] == if i < delay then line.arith.zero else system[i - delay]
    {
      assert farEnd[i] == (farEnd + line.Contents())[i];
    }
  }

  /** A frame in at the back and a frame out at the front keep the whole. */
  lemma FrameShifts<T>(out: seq<T>, held: seq<T>, frame: seq<T>, zeros: seq<T>, signal: seq<T>, size: nat)
    requires out + held == zeros + signal && size <= |held + frame|
    ensures out + (held + frame)[..size] + (held + frame)[size..] == zeros + (signal + frame)
  {
    var all := held + frame;
    assert out + all[..size] + all[size..] == out + held + frame;
    assert zeros + (signal + frame) == zeros + signal + frame;
  }
}
