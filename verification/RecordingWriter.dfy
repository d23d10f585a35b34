/** The files of a recording: one master with every lane, one decimated sidecar a lane
    (`RecordingWriter.swift`). */
module RecordingWriter {
  import opened Arithmetic
  import opened Bytes
  import opened Resampler
  import opened Samples
  import C = CAFFile
  import W = WAVFile

  type Word = C.Word
  type Half = W.Half

  const FRAME_SIZE: nat := 480
  const SIDECAR_FRAME: nat := 160
  const SIDECAR_RATE: nat := 16_000

  // Interleaving.

  function Index(frame: nat, lane: nat, lanes: nat): nat {
    frame * lanes + lane
  }

  lemma IndexFits(frame: nat, lane: nat, frames: nat, lanes: nat)
    requires frame < frames && lane < lanes
    ensures Index(frame, lane, lanes) < frames * lanes
  {
    C.FrameFits(frame, frames, lanes, lane);
  }

  lemma IndexDiffers(f: nat, c: nat, g: nat, d: nat, lanes: nat)
    requires c < lanes && d < lanes && Index(f, c, lanes) == Index(g, d, lanes)
    ensures f == g && c == d
  {
    ModUnique(Index(f, c, lanes), lanes, f, c);
    ModUnique(Index(g, d, lanes), lanes, g, d);
  }

  /** The samples of `n` frames, one of each lane after another. */
  ghost predicate Interleaves(all: seq<Word>, streams: seq<seq<Word>>, n: nat) {
    && |all| == n * |streams|
    && (forall c :: 0 <= c < |streams| ==> |streams[c]| == n)
    && forall f, c :: 0 <= f < n && 0 <= c < |streams| ==> Holds(all, streams, f, c)
  }

  ghost predicate Holds(all: seq<Word>, streams: seq<seq<Word>>, f: nat, c: nat) {
    Index(f, c, |streams|) < |all| && c < |streams| && f < |streams[c]| && all[Index(f, c, |streams|)] == streams[c][f]
  }

  function Appended(streams: seq<seq<Word>>, frame: seq<seq<Word>>): (r: seq<seq<Word>>)
    requires |streams| == |frame|
    ensures |r| == |streams|
  {
    seq(|streams|, c requires 0 <= c < |streams| => streams[c] + frame[c])
  }

  lemma InterleavesAppend(a: seq<Word>, s: seq<seq<Word>>, n: nat, b: seq<Word>, t: seq<seq<Word>>, m: nat)
    requires |s| == |t| && Interleaves(a, s, n) && Interleaves(b, t, m)
    ensures Interleaves(a + b, Appended(s, t), n + m)
  {
    hide Index;
    var all, both := a + b, Appended(s, t);
    assert (n + m) * |s| == n * |s| + m * |s|;
    forall f, c | 0 <= f < n + m && 0 <= c < |both| ensures Holds(all, both, f, c) {
      if f < n {
        assert Holds(a, s, f, c);
      } else {
        assert Holds(b, t, f - n, c);
        IndexShifts(n, f, c, |s|);
      }
    }
  }

  lemma IndexShifts(n: nat, f: nat, c: nat, lanes: nat)
    requires f >= n
    ensures Index(f, c, lanes) == n * lanes + Index(f - n, c, lanes)
  {
    assert f * lanes == n * lanes + (f - n) * lanes;
  }

  lemma LaneBack(all: seq<Word>, streams: seq<seq<Word>>, n: nat, frames: nat, c: nat)
    requires Interleaves(all, streams, n) && frames <= n && c < |streams| && frames * |streams| <= |all|
    ensures C.Deinterleaved(all, frames, |streams|, c) == streams[c][..frames]
  {
    hide Index;
    forall f | 0 <= f < frames ensures C.Deinterleaved(all, frames, |streams|, c)[f] == streams[c][..frames][f] {
      assert Holds(all, streams, f, c);
      IndexIs(f, c, |streams|);
    }
  }

  function Cut(streams: seq<seq<Word>>, frames: nat): seq<seq<nat>>
    requires forall c :: 0 <= c < |streams| ==> frames <= |streams[c]|
  {
    seq(|streams|, c requires 0 <= c < |streams| => streams[c][..frames])
  }

  /** Taking interleaved samples apart gives each lane back. */
  lemma DeinterleaveGivesLanesBack(all: seq<Word>, streams: seq<seq<Word>>, n: nat, frames: nat)
    requires Interleaves(all, streams, n) && frames <= n
    ensures frames * |streams| <= |all| && C.Frames(all, frames, |streams|) == Cut(streams, frames)
  {
    FewerFit(frames, n, |streams|);
    hide Index, Holds;
    forall c | 0 <= c < |streams| ensures C.Deinterleaved(all, frames, |streams|, c) == streams[c][..frames] {
      LaneBack(all, streams, n, frames, c);
    }
    hide C.Deinterleaved;
  }

  lemma FewerFit(a: nat, b: nat, lanes: nat)
    requires a <= b
    ensures a * lanes <= b * lanes
  {}

  lemma IndexIs(f: nat, c: nat, lanes: nat)
    ensures Index(f, c, lanes) == f * lanes + c
  {}

  /** The frame of each lane, one sample of each after another. */
  method Interleave(lanes: seq<array<Word>>, interleaved: array<Word>)
    requires lanes != [] && interleaved.Length == FRAME_SIZE * |lanes|
    requires forall i :: 0 <= i < |lanes| ==> lanes[i].Length == FRAME_SIZE && lanes[i] != interleaved
    modifies interleaved
    ensures Interleaves(interleaved[..], FramesOf(lanes), FRAME_SIZE)
  {
    hide Index;
    ghost var streams := FramesOf(lanes);
    var lane := 0;
    while lane < |lanes|
      invariant 0 <= lane <= |lanes|
      invariant FramesOf(lanes) == streams
      invariant forall f, c :: 0 <= f < FRAME_SIZE && 0 <= c < lane ==> Holds(interleaved[..], streams, f, c)
    {
      var index := 0;
      while index < FRAME_SIZE
        invariant 0 <= index <= FRAME_SIZE
        invariant FramesOf(lanes) == streams
        invariant forall f, c :: 0 <= f < FRAME_SIZE && 0 <= c < lane ==> Holds(interleaved[..], streams, f, c)
        invariant forall f :: 0 <= f < index ==> Holds(interleaved[..], streams, f, lane)
      {
        IndexFits(index, lane, FRAME_SIZE, |lanes|);
        ghost var before := interleaved[..];
        interleaved[Index(index, lane, |lanes|)] := lanes[lane][index];
        forall f, c | 0 <= f < FRAME_SIZE && 0 <= c < |lanes| && Holds(before, streams, f, c) && (f != index || c != lane)
          ensures Holds(interleaved[..], streams, f, c)
        {
          if Index(f, c, |lanes|) == Index(index, lane, |lanes|) { IndexDiffers(f, c, index, lane, |lanes|); }
        }
        index := index + 1;
      }
      lane := lane + 1;
    }
  }

  ghost function FramesOf(lanes: seq<array<Word>>): (r: seq<seq<Word>>)
    reads lanes
    ensures |r| == |lanes|
  {
    seq(|lanes|, c requires 0 <= c < |lanes| reads lanes => lanes[c][..])
  }

  lemma NothingInterleaves(lanes: nat)
    ensures Interleaves([], seq(lanes, _ => []), 0)
  {}

  // The writer.

  /** One lane's sidecar, failed or not: it counts no more than the master's `count` frames. */
  ghost predicate SidecarKept(
      file: W.WAVStreamWriter, resampler: Resampler48kTo16k<Word, Half>, filter: Filter<Word, Half>, count: nat)
    reads file, resampler, resampler.history
  {
    && file.Valid() && file.sampleRate == SIDECAR_RATE
    && resampler.Valid() && resampler.filter == filter && resampler.frameSize == FRAME_SIZE
    && 3 * file.samplesWritten <= count
  }

  /** What is written is decimated from the lane, and never more than it. */
  ghost predicate SidecarHolds(
      file: W.WAVStreamWriter, resampler: Resampler48kTo16k<Word, Half>, filter: Filter<Word, Half>, stream: seq<Word>)
    reads file, resampler, resampler.history
  {
    && file.Valid() && file.sampleRate == SIDECAR_RATE
    && resampler.Valid() && resampler.filter == filter && resampler.frameSize == FRAME_SIZE
    && file.accepted <= filter.Filtered(stream)
  }

  /** And nothing has failed: the sidecar has all of it. */
  ghost predicate SidecarWhole(
      file: W.WAVStreamWriter, resampler: Resampler48kTo16k<Word, Half>, filter: Filter<Word, Half>, stream: seq<Word>)
    reads file, resampler, resampler.history
  {
    && SidecarHolds(file, resampler, filter, stream)
    && file.torn == [] && !file.isFinished
    && resampler.signal == stream && file.accepted == filter.Filtered(stream)
  }

  /** A sidecar between writes; `whole` while nothing has failed. */
  ghost predicate SidecarAt(
      file: W.WAVStreamWriter, resampler: Resampler48kTo16k<Word, Half>, filter: Filter<Word, Half>, count: nat,
      stream: seq<Word>, whole: bool)
    reads file, resampler, resampler.history
  {
    SidecarKept(file, resampler, filter, count) && (whole ==> SidecarWhole(file, resampler, filter, stream))
  }

  lemma WholeHolds(
      file: W.WAVStreamWriter, resampler: Resampler48kTo16k<Word, Half>, filter: Filter<Word, Half>, stream: seq<Word>)
    requires SidecarWhole(file, resampler, filter, stream)
    ensures SidecarHolds(file, resampler, filter, stream)
  {}

  method FinishSidecar(file: W.WAVStreamWriter, resampler: Resampler48kTo16k<Word, Half>, ghost filter: Filter<Word, Half>,
                       ghost count: nat)
    requires SidecarKept(file, resampler, filter, count)
    requires W.Writable(SIDECAR_RATE, |file.accepted| + file.late)
    modifies file`file, file`isFinished
    ensures SidecarKept(file, resampler, filter, count) && file.isFinished
    ensures file.torn == [] ==> file.file == W.FileOf(file.accepted, SIDECAR_RATE)
  {
    hide Filter.Filtered, Filter.Padded, Packed, W.FileOf, W.StreamHeader;
    file.Finish();
  }

  method NewSidecars(lanes: nat, filter: Filter<Word, Half>)
    returns (files: seq<W.WAVStreamWriter>, decimators: seq<Resampler48kTo16k<Word, Half>>)
    requires filter.Valid()
    ensures |files| == |decimators| == lanes
    ensures forall i :: 0 <= i < lanes ==> fresh(files[i]) && fresh(decimators[i]) && fresh(decimators[i].history)
    ensures forall i, j :: 0 <= i < j < lanes ==>
      files[i] != files[j] && decimators[i] != decimators[j] && decimators[i].history != decimators[j].history
    ensures forall i :: 0 <= i < lanes ==> SidecarWhole(files[i], decimators[i], filter, [])
  {
    hide SidecarWhole, Filter.Valid;
    files, decimators := [], [];
    while |files| < lanes
      invariant |files| == |decimators| <= lanes
      invariant forall i :: 0 <= i < |files| ==> fresh(files[i]) && fresh(decimators[i]) && fresh(decimators[i].history)
      invariant forall i, j :: 0 <= i < j < |files| ==>
        files[i] != files[j] && decimators[i] != decimators[j] && decimators[i].history != decimators[j].history
      invariant forall i :: 0 <= i < |files| ==> SidecarWhole(files[i], decimators[i], filter, [])
      modifies {}
    {
      var file, decimator := NewSidecar(filter);
      files := files + [file];
      decimators := decimators + [decimator];
    }
  }

  method NewSidecar(filter: Filter<Word, Half>)
    returns (file: W.WAVStreamWriter, decimator: Resampler48kTo16k<Word, Half>)
    requires filter.Valid()
    ensures fresh(file) && fresh(decimator) && fresh(decimator.history)
    ensures SidecarWhole(file, decimator, filter, [])
  {
    hide W.StreamHeader, Packed, Filter.Padded;
    file := new W.WAVStreamWriter(SIDECAR_RATE);
    decimator := new Resampler48kTo16k<Word, Half>(filter, FRAME_SIZE);
    assert filter.Filtered([]) == [];
  }

  class RecordingWriter {
    const lanes: nat
    const rate: nat
    const filter: Filter<Word, Half>
    const master: C.CAFStreamWriter
    const sidecars: seq<W.WAVStreamWriter>
    const resamplers: seq<Resampler48kTo16k<Word, Half>>
    const interleaved: array<Word>
    const scratch: array<Half>
    /** Each lane as the master has accepted it, in frames. */
    ghost var streams: seq<seq<Word>>
    ghost var frames: nat

    ghost function Histories(): set<object> {
      set i | 0 <= i < |resamplers| :: resamplers[i].history as object
    }

    ghost function Objects(): set<object> {
      {this, master, interleaved, scratch} + (set i | 0 <= i < |sidecars| :: sidecars[i] as object)
      + (set i | 0 <= i < |resamplers| :: resamplers[i] as object) + Histories()
    }

    /** No two lanes share anything. */
    ghost predicate Apart() {
      && lanes > 0 && |sidecars| == |resamplers| == lanes
      && interleaved.Length == FRAME_SIZE * lanes && scratch.Length == SIDECAR_FRAME
      && (interleaved as object) !in Histories() && (scratch as object) !in Histories()
      && (scratch as object) != (interleaved as object)
      && (forall i, j :: 0 <= i < j < lanes ==>
        sidecars[i] != sidecars[j] && resamplers[i] != resamplers[j] && resamplers[i].history != resamplers[j].history)
    }

    ghost predicate MasterHolds()
      reads this, master
    {
      && master.Valid() && master.channels == lanes && master.rate == rate
      && |streams| == lanes && Interleaves(master.accepted, streams, FRAME_SIZE * frames)
    }

    ghost predicate AllKept(count: nat)
      requires Apart()
      reads sidecars, resamplers, Histories()
    {
      forall i :: 0 <= i < lanes ==> SidecarKept(sidecars[i], resamplers[i], filter, count)
    }

    ghost predicate AllHold(streams: seq<seq<Word>>)
      requires Apart() && |streams| == lanes
      reads sidecars, resamplers, Histories()
    {
      forall i :: 0 <= i < lanes ==> SidecarHolds(sidecars[i], resamplers[i], filter, streams[i])
    }

    ghost predicate AllWhole(streams: seq<seq<Word>>)
      requires Apart() && |streams| == lanes
      reads sidecars, resamplers, Histories()
    {
      forall i :: 0 <= i < lanes ==> SidecarWhole(sidecars[i], resamplers[i], filter, streams[i])
    }

    /** What every recording keeps, failed or not: the master is the lanes it accepted, and no sidecar
        counts more than the master does. */
    ghost predicate Valid()
      reads Objects()
    {
      Apart() && |streams| == lanes && MasterHolds() && AllKept(master.framesWritten)
    }

    /** No write has failed and the files are open. */
    ghost predicate Writing()
      reads Objects()
      requires Valid()
    {
      master.torn == [] && !master.isFinished && AllWhole(streams)
    }

    /** Every sidecar has been decimated from what the master holds of its lane. */
    ghost predicate Sound()
      reads Objects()
      requires Valid()
    {
      AllHold(streams)
    }

    constructor (lanes: nat, rate: nat, filter: Filter<Word, Half>)
      requires C.Writable(rate, lanes) && filter.Valid()
      ensures Valid() && Writing() && frames == 0 && this.lanes == lanes && this.rate == rate && this.filter == filter
      ensures fresh(master) && fresh(interleaved) && fresh(scratch)
      ensures forall i :: 0 <= i < lanes ==> fresh(sidecars[i]) && fresh(resamplers[i]) && fresh(resamplers[i].history)
    {
      hide Interleaves, Filter.Filtered, Filter.Valid, SidecarWhole, SidecarKept;
      this.lanes, this.rate, this.filter := lanes, rate, filter;
      interleaved := new Word[FRAME_SIZE * lanes](_ => 0);
      scratch := new Half[SIDECAR_FRAME](_ => 0);
      master := new C.CAFStreamWriter(rate, lanes);
      var files, decimators := NewSidecars(lanes, filter);
      sidecars, resamplers := files, decimators;
      streams := seq(lanes, _ => []);
      frames := 0;
      new;
      NothingInterleaves(lanes);
      forall i | 0 <= i < lanes
        ensures SidecarWhole(sidecars[i], resamplers[i], filter, streams[i])
        ensures SidecarKept(sidecars[i], resamplers[i], filter, 0)
      {
        assert streams[i] == [];
        EmptyKept(sidecars[i], resamplers[i], filter);
      }
    }

    /** One lane's sidecar, which takes the lane from `before` to `after`. */
    method WriteSidecar(i: nat, frame: array<Word>, room: nat, ghost count: nat, ghost before: seq<Word>,
                        ghost after: seq<Word>, ghost whole: bool)
      returns (ok: bool)
      requires Apart() && i < lanes && filter.Valid() && frame.Length == FRAME_SIZE && (frame as object) !in Objects()
      requires after == before + frame[..]
      requires SidecarAt(sidecars[i], resamplers[i], filter, count, before, whole)
      modifies sidecars[i], resamplers[i], resamplers[i].history, scratch
      ensures SidecarAt(sidecars[i], resamplers[i], filter, count + FRAME_SIZE, after, ok && whole)
      ensures forall j :: 0 <= j < lanes && j != i ==>
        unchanged(sidecars[j]) && unchanged(resamplers[j]) && unchanged(resamplers[j].history)
      ensures whole ==> SidecarHolds(sidecars[i], resamplers[i], filter, after)
      ensures 2 * SIDECAR_FRAME <= room ==> ok
    {
      hide Filter.Filtered, Filter.Padded, Filter.Sum, W.StreamHeader, Packed;
      filter.FilteredExtends(before, frame[..]);
      resamplers[i].Process(frame, scratch);
      ok := sidecars[i].Write(scratch, SIDECAR_FRAME, room);
      assert scratch[..SIDECAR_FRAME] == scratch[..];
    }

    /** The sidecars of one frame the master has accepted, until one fails. */
    method WriteSidecars(frame: seq<array<Word>>, rooms: seq<nat>, ghost count: nat,
                         ghost before: seq<seq<Word>>, ghost after: seq<seq<Word>>, ghost whole: bool)
      returns (ok: bool)
      requires Apart() && filter.Valid() && |frame| == |rooms| == |before| == |after| == lanes
      requires forall i :: 0 <= i < lanes ==> frame[i].Length == FRAME_SIZE && (frame[i] as object) !in Objects()
      requires forall i :: 0 <= i < lanes ==> after[i] == before[i] + frame[i][..]
      requires AllKept(count) && (whole ==> AllWhole(before))
      modifies sidecars, resamplers, Histories(), scratch
      ensures AllKept(count + FRAME_SIZE)
      ensures whole ==> AllHold(after) && (ok ==> AllWhole(after))
      ensures (forall i :: 0 <= i < lanes ==> 2 * SIDECAR_FRAME <= rooms[i]) ==> ok
    {
      hide SidecarAt, SidecarKept, SidecarWhole, SidecarHolds, AllKept, AllHold, AllWhole, Filter.Valid;
      AllAt(count, before, whole);
      var lane := 0;
      while lane < lanes
        invariant 0 <= lane <= lanes
        invariant forall i :: 0 <= i < lanes ==> after[i] == before[i] + frame[i][..]
        invariant forall i :: 0 <= i < lane ==>
          SidecarAt(sidecars[i], resamplers[i], filter, count + FRAME_SIZE, after[i], whole)
        invariant forall i :: lane <= i < lanes ==> SidecarAt(sidecars[i], resamplers[i], filter, count, before[i], whole)
      {
        ok := WriteSidecar(lane, frame[lane], rooms[lane], count, before[lane], after[lane], whole);
        if !ok {
          LanesBehind(lane, count, before, after, whole);
          return;
        }
        assert SidecarAt(sidecars[lane], resamplers[lane], filter, count + FRAME_SIZE, after[lane], whole);
        lane := lane + 1;
      }
      LanesDone(count + FRAME_SIZE, after, whole);
      ok := true;
    }

    lemma AllAt(count: nat, before: seq<seq<Word>>, whole: bool)
      requires Apart() && |before| == lanes && AllKept(count) && (whole ==> AllWhole(before))
      ensures forall i :: 0 <= i < lanes ==> SidecarAt(sidecars[i], resamplers[i], filter, count, before[i], whole)
    {
      hide SidecarKept, SidecarWhole;
    }

    lemma LanesDone(count: nat, after: seq<seq<Word>>, whole: bool)
      requires Apart() && |after| == lanes
      requires forall i :: 0 <= i < lanes ==> SidecarAt(sidecars[i], resamplers[i], filter, count, after[i], whole)
      ensures AllKept(count) && (whole ==> AllWhole(after) && AllHold(after))
    {
      hide SidecarKept, SidecarWhole, SidecarHolds;
      if whole { LanesWhole(after); }
    }

    lemma LanesWhole(streams: seq<seq<Word>>)
      requires Apart() && |streams| == lanes && AllWhole(streams)
      ensures AllHold(streams)
    {
      hide SidecarWhole, SidecarHolds;
      forall i | 0 <= i < lanes ensures SidecarHolds(sidecars[i], resamplers[i], filter, streams[i]) {
        WholeHolds(sidecars[i], resamplers[i], filter, streams[i]);
      }
    }

    /** Where lane `failed` failed, the lanes after it only lag. */
    lemma LanesBehind(failed: nat, count: nat, before: seq<seq<Word>>, after: seq<seq<Word>>, whole: bool)
      requires Apart() && |before| == |after| == lanes && failed < lanes
      requires forall i :: 0 <= i < lanes ==> before[i] <= after[i]
      requires forall i :: 0 <= i < failed ==>
        SidecarAt(sidecars[i], resamplers[i], filter, count + FRAME_SIZE, after[i], whole)
      requires SidecarAt(sidecars[failed], resamplers[failed], filter, count + FRAME_SIZE, after[failed], false)
      requires whole ==> SidecarHolds(sidecars[failed], resamplers[failed], filter, after[failed])
      requires forall i :: failed < i < lanes ==> SidecarAt(sidecars[i], resamplers[i], filter, count, before[i], whole)
      ensures AllKept(count + FRAME_SIZE) && (whole ==> AllHold(after))
    {
      hide SidecarKept, SidecarWhole, SidecarHolds;
      forall i | 0 <= i < lanes
        ensures SidecarKept(sidecars[i], resamplers[i], filter, count + FRAME_SIZE)
        ensures whole ==> SidecarHolds(sidecars[i], resamplers[i], filter, after[i])
      {
        if i < failed {
          if whole { WholeHolds(sidecars[i], resamplers[i], filter, after[i]); }
        } else if i > failed {
          MoreKept(sidecars[i], resamplers[i], filter, count);
          if whole { BehindHolds(sidecars[i], resamplers[i], filter, before[i], after[i]); }
        }
      }
    }

    /** The disk takes a whole frame of the master and of every sidecar. */
    ghost predicate RoomFor(masterRoom: nat, rooms: seq<nat>) {
      4 * (FRAME_SIZE * lanes) <= masterRoom && forall i :: 0 <= i < |rooms| ==> 2 * SIDECAR_FRAME <= rooms[i]
    }

    /** One frame of every lane, the master first. A frame of the wrong shape, or after the end, is
        refused and changes nothing. Whatever failed before, no sidecar counts more than the master; while
        nothing had, what is in a sidecar is decimated from what is in the master. */
    method Write(frameCount: nat, frame: seq<array<Word>>, masterRoom: nat, rooms: seq<nat>) returns (ok: bool)
      requires Valid() && filter.Valid()
      requires |rooms| == lanes
      requires forall i :: 0 <= i < |frame| ==> frame[i].Length == frameCount && (frame[i] as object) !in Objects()
      modifies Objects()
      ensures Valid()
      ensures old(master.isFinished) || frameCount != FRAME_SIZE || |frame| != lanes ==>
        !ok && streams == old(streams) && master.file == old(master.file)
        && forall i :: 0 <= i < lanes ==> sidecars[i].file == old(sidecars[i].file)
      ensures old(Writing()) ==> Sound()
      ensures old(Writing()) && ok ==>
        Writing() && frames == old(frames) + 1 && streams == Appended(old(streams), FramesOf(frame))
      ensures streams == old(streams) || (|frame| == lanes && streams == Appended(old(streams), FramesOf(frame)))
      ensures ok ==> master.framesWritten == old(master.framesWritten) + FRAME_SIZE && 4 * (FRAME_SIZE * lanes) <= masterRoom
      ensures !old(master.isFinished) && frameCount == FRAME_SIZE && |frame| == lanes && RoomFor(masterRoom, rooms) ==> ok
    {
      hide MasterHolds, AllKept, AllWhole, AllHold, Filter.Filtered, Filter.Valid, Apart;
      assert lanes > 0 && |sidecars| == |resamplers| == lanes by { ApartLanes(); }
      ghost var before, added, whole, count := streams, FramesOf(frame), Writing(), master.framesWritten;
      if whole { LanesWhole(streams); }
      if master.isFinished || frameCount != FRAME_SIZE || |frame| != lanes { return false; }
      ok := WriteMaster(frame, masterRoom);
      if !ok {
        if whole { LanesWhole(before); }
        return;
      }
      assert FramesOf(frame) == added;
      ok := WriteSidecars(frame, rooms, count, before, Appended(before, added), whole);
      assert FramesOf(frame) == added;
    }

    /** Closes every file, the master first: where nothing failed, each sidecar is the one-shot file of its
        samples, which are the decimated lane. */
    method Finish() returns (ok: bool)
      requires Valid() && C.HEADER_SIZE + 4 * (|master.accepted| + master.late) < C.INT64_END
      requires forall i :: 0 <= i < lanes ==> W.Writable(SIDECAR_RATE, |sidecars[i].accepted| + sidecars[i].late)
      modifies master, sidecars
      ensures Valid() && ok == !old(master.isFinished)
      ensures master.isFinished && master.accepted == old(master.accepted) && master.torn == old(master.torn)
      ensures ok ==> forall i :: 0 <= i < lanes ==>
        && sidecars[i].isFinished && sidecars[i].accepted == old(sidecars[i].accepted)
        && (old(sidecars[i].torn) == [] ==> sidecars[i].file == W.FileOf(sidecars[i].accepted, SIDECAR_RATE))
    {
      hide Interleaves, SidecarKept, C.Header, Packed, W.FileOf, C.Writable, W.Writable;
      if master.isFinished { return false; }
      master.Finish();
      var lane := 0;
      while lane < lanes
        invariant 0 <= lane <= lanes
        invariant forall i :: 0 <= i < lanes ==> SidecarKept(sidecars[i], resamplers[i], filter, master.framesWritten)
        invariant forall i :: 0 <= i < lane ==>
          sidecars[i].isFinished && (sidecars[i].torn == [] ==> sidecars[i].file == W.FileOf(sidecars[i].accepted, SIDECAR_RATE))
        modifies sidecars`file, sidecars`isFinished
      {
        FinishSidecar(sidecars[lane], resamplers[lane], filter, master.framesWritten);
        lane := lane + 1;
      }
      ok := true;
    }

    lemma ApartLanes()
      requires Apart()
      ensures lanes > 0 && |sidecars| == |resamplers| == lanes
    {}

    /** The master's part of a frame. */
    method WriteMaster(frame: seq<array<Word>>, room: nat) returns (ok: bool)
      requires Apart() && |streams| == lanes && MasterHolds() && !master.isFinished && AllKept(master.framesWritten)
      requires |frame| == lanes && forall i :: 0 <= i < lanes ==> frame[i].Length == FRAME_SIZE && frame[i] != interleaved
      modifies this`streams, this`frames, master, interleaved
      ensures |streams| == lanes && MasterHolds() && !master.isFinished && AllKept(old(master.framesWritten))
      ensures master.framesWritten == old(master.framesWritten) + if ok then FRAME_SIZE else 0
      ensures ok == (4 * (FRAME_SIZE * lanes) <= room)
      ensures old(AllWhole(streams)) ==> AllWhole(old(streams))
      ensures (streams == old(streams) && frames == old(frames))
        || (streams == Appended(old(streams), FramesOf(frame)) && frames == old(frames) + 1)
      ensures old(master.torn) == [] ==>
        if ok then master.torn == [] && frames == old(frames) + 1 else streams == old(streams)
    {
      hide Interleaves, C.Header, Packed, C.Writable, SidecarWhole, SidecarKept;
      ghost var before, added := master.accepted, FramesOf(frame);
      Interleave(frame, interleaved);
      ghost var isWhole := master.torn == [];
      ok := master.Write(interleaved, FRAME_SIZE, room);
      if ok && isWhole {
        assert interleaved[..FRAME_SIZE * lanes] == interleaved[..];
        InterleavesAppend(before, streams, FRAME_SIZE * frames, interleaved[..], added, FRAME_SIZE);
        streams := Appended(streams, added);
        frames := frames + 1;
      } else {
        assert master.accepted == before;
      }
    }
  }

  lemma EmptyKept(file: W.WAVStreamWriter, resampler: Resampler48kTo16k<Word, Half>, filter: Filter<Word, Half>)
    requires SidecarWhole(file, resampler, filter, [])
    ensures SidecarKept(file, resampler, filter, 0)
  {}

  lemma MoreKept(file: W.WAVStreamWriter, resampler: Resampler48kTo16k<Word, Half>, filter: Filter<Word, Half>, count: nat)
    requires SidecarKept(file, resampler, filter, count)
    ensures SidecarKept(file, resampler, filter, count + FRAME_SIZE)
  {}

  /** A sidecar that has not got a frame yet is only behind. */
  lemma BehindHolds(file: W.WAVStreamWriter, resampler: Resampler48kTo16k<Word, Half>, filter: Filter<Word, Half>,
                    before: seq<Word>, after: seq<Word>)
    requires SidecarWhole(file, resampler, filter, before) && before <= after
    ensures SidecarHolds(file, resampler, filter, after)
  {
    hide Filter.Filtered;
    var more := after[|before|..];
    assert after == before + more;
    filter.FilteredExtends(before, more);
  }

  // What the files hold.

  /** Main result: cut anywhere by a crash, the master reads back, for every lane, exactly the whole frames
      of it that reached the disk. */
  lemma CrashLeavesEveryLane(rate: nat, accepted: seq<Word>, streams: seq<seq<Word>>, length: nat, n: nat)
    requires C.Writable(rate, |streams|) && Interleaves(accepted, streams, length) && n <= 4 * |accepted|
    ensures n <= |Packed(accepted, 4)| && C.FramesIn(n, |streams|) <= length
    ensures C.ReadOf(C.Header(rate, |streams|, C.OPEN_END) + Packed(accepted, 4)[..n])
         == C.Read(C.CAF(rate, Cut(streams, C.FramesIn(n, |streams|))))
  {
    hide C.ReadOf, C.Header, Packed, C.Frames, Interleaves, C.FramesIn;
    FramesWithin(accepted, streams, length, n);
    C.CrashWhileRecording(rate, |streams|, accepted, n);
    DeinterleaveGivesLanesBack(accepted, streams, length, C.FramesIn(n, |streams|));
  }

  lemma FramesWithin(accepted: seq<Word>, streams: seq<seq<Word>>, length: nat, n: nat)
    requires streams != [] && Interleaves(accepted, streams, length) && n <= 4 * |accepted|
    ensures C.FramesIn(n, |streams|) <= length
    ensures n == 4 * |accepted| ==> C.FramesIn(n, |streams|) == length
  {
    var k := C.BYTES_PER_SAMPLE * |streams|;
    assert 4 * |accepted| == length * k;
    assert C.FramesIn(n, |streams|) == n / k;
    if n == 4 * |accepted| {
      ModUnique(n, k, length, 0);
    } else {
      DivBound(n, length, k);
    }
  }

  lemma CutWhole(accepted: seq<Word>, streams: seq<seq<Word>>, length: nat)
    requires Interleaves(accepted, streams, length)
    ensures Cut(streams, length) == streams
  {
    var cut := Cut(streams, length);
    forall c | 0 <= c < |streams| ensures cut[c] == streams[c] { assert |streams[c]| == length; }
  }

  /** Finished, the master reads back every lane whole. */
  lemma MasterGivesEveryLaneBack(rate: nat, accepted: seq<Word>, streams: seq<seq<Word>>, length: nat)
    requires C.Writable(rate, |streams|) && Interleaves(accepted, streams, length)
    requires C.HEADER_SIZE + 4 * |accepted| < C.INT64_END
    ensures C.ReadOf(C.Header(rate, |streams|, C.SizeBytes(|accepted|)) + Packed(accepted, 4)) == C.Read(C.CAF(rate, streams))
  {
    hide C.ReadOf, C.Header, Packed, C.Frames, C.FramesIn, C.SizeBytes;
    FramesWithin(accepted, streams, length, 4 * |accepted|);
    C.FinishedFileReadsAll(rate, |streams|, accepted);
    DeinterleaveGivesLanesBack(accepted, streams, length, length);
    CutWhole(accepted, streams, length);
  }
}
