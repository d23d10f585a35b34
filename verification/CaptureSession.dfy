/** The capture session (`CaptureSession.swift`) as its turns on the actor, interleaved with the
    processing thread, the writer thread and the rebuild tasks' sleeps. */
module CaptureSession {
  import opened Options

  /** A relay frame: the `index`-th one a processing thread handled, or a gap's silence. */
  datatype Frame = Audio(thread: nat, index: nat) | Silence

  /** One processing thread: the frames it handled, the ones of them the relay took, and how many
      the relay refused. */
  datatype Thread = Thread(alive: bool, handled: nat, accepted: seq<nat>, refused: nat)

  datatype Notice = Changed | Resumed(attempt: nat, gap: nat)

  /** One recording's relay, writer and history. `committed` is every frame the relay ever took and
      `taken` every frame the writer thread took back out. */
  datatype Recording = Recording(
    capacity: nat,
    relay: seq<Frame>,
    committed: seq<Frame>,
    taken: seq<Frame>,
    refused: nat,
    threads: seq<Thread>,
    gaps: seq<nat>,
    writing: bool,
    writeFailed: bool,
    master: seq<Frame>,
    sidecars: seq<nat>,
    notices: seq<Notice>,
    deviceChanges: nat,
    gapFrames: nat)

  /** How one `RecordingWriter.write` ends: the master first, then the sidecars in lane order. */
  datatype WriteOutcome = Wrote | MasterFailed | SidecarFailed(lane: nat)

  /** What the real-time threads do while the actor waits for them. */
  datatype Event = Handle | Take(outcome: WriteOutcome)

  datatype Phase = Idle | Live | Failed(recording: Option<nat>)

  /** `rebuild` is the generation of the rebuild in flight. */
  datatype Active = Active(recording: nat, rebuild: Option<nat>, pending: bool)

  /** Where a rebuild task stands: before its first turn, asleep after failed attempt `attempt`, or
      started with `left` frames of the gap's `gap` still to write, or waiting for room. */
  datatype Task =
    | Fresh(recording: nat, cancelled: bool)
    | Restarting(recording: nat, cancelled: bool, attempt: nat)
    | Silencing(recording: nat, cancelled: bool, attempt: nat, gap: nat, left: nat)
    | AwaitingRoom(recording: nat, cancelled: bool, attempt: nat, gap: nat)

  datatype Session = Session(
    phase: Phase,
    active: Option<Active>,
    generation: nat,
    tasks: map<nat, Task>,
    backend: Option<nat>,
    recordings: seq<Recording>)

  const RESTART_ATTEMPTS: nat := 4

  // The relay, the processing thread and the writer thread.

  function Repeat(frame: Frame, count: nat): (f: seq<Frame>)
    ensures |f| == count
  {
    seq(count, _ => frame)
  }

  /** `beginFrame` and the writes: the frame goes in whole or is refused. */
  function Offered(r: Recording, frame: Frame): Recording {
    if |r.relay| < r.capacity then r.(relay := r.relay + [frame], committed := r.committed + [frame])
    else r.(refused := r.refused + 1)
  }

  /** `processFrame` on the newest thread. */
  function Handled(r: Recording): Recording {
    if r.threads == [] || !r.threads[|r.threads| - 1].alive then r
    else
      var last := |r.threads| - 1;
      var t := r.threads[last];
      var t' := if |r.relay| < r.capacity then t.(handled := t.handled + 1, accepted := t.accepted + [t.handled])
                else t.(handled := t.handled + 1, refused := t.refused + 1);
      Offered(r, Audio(last, t.handled)).(threads := r.threads[last := t'])
  }

  /** The writer thread takes one frame and, unless a write failed before, writes it. */
  function TakenOut(r: Recording, outcome: WriteOutcome): Recording {
    if !r.writing || r.relay == [] then r
    else
      var after := r.(relay := r.relay[1..], taken := r.taken + [r.relay[0]]);
      if r.writeFailed then after
      else
        match outcome
        case Wrote => after.(master := r.master + [r.relay[0]], sidecars := Advanced(r.sidecars, |r.sidecars|))
        case MasterFailed => after.(writeFailed := true)
        case SidecarFailed(lane) =>
          after.(master := r.master + [r.relay[0]], sidecars := Advanced(r.sidecars, lane), writeFailed := true)
  }

  /** The sidecars below `lane` gain a frame. */
  function Advanced(sidecars: seq<nat>, lane: nat): (s: seq<nat>)
    ensures |s| == |sidecars|
    ensures forall i :: 0 <= i < |s| ==> s[i] == if i < lane then sidecars[i] + 1 else sidecars[i]
  {
    seq(|sidecars|, i requires 0 <= i < |sidecars| => if i < lane then sidecars[i] + 1 else sidecars[i])
  }

  function Happened(r: Recording, e: Event): Recording {
    match e
    case Handle => Handled(r)
    case Take(outcome) => TakenOut(r, outcome)
  }

  function AllHappened(r: Recording, events: seq<Event>): Recording {
    if events == [] then r else Happened(AllHappened(r, events[..|events| - 1]), events[|events| - 1])
  }

  /** `ProcessingThread.stop`: the thread handles what the rings still hold, with the writer beside
      it, and is gone. */
  function ThreadStopped(r: Recording, events: seq<Event>): Recording {
    var r' := AllHappened(r, events);
    if r'.threads == [] then r'
    else
      var last := |r'.threads| - 1;
      r'.(threads := r'.threads[last := r'.threads[last].(alive := false)])
  }

  /** `WriterThread.stop`: everything left in the relay is taken. */
  function Drained(r: Recording, outcomes: seq<WriteOutcome>): (d: Recording)
    decreases |r.relay|
  {
    if !r.writing || r.relay == [] then r
    else
      var outcome := if outcomes == [] then Wrote else outcomes[0];
      Drained(TakenOut(r, outcome), if outcomes == [] then [] else outcomes[1..])
  }

  // The actor's turns.

  function Still(s: Session, generation: nat): bool {
    s.phase == Live && s.active.Some? && s.active.value.rebuild.Some? && s.generation == generation
  }

  function With(s: Session, recording: nat, r: Recording): Session {
    if recording < |s.recordings| then s.(recordings := s.recordings[recording := r]) else s
  }

  /** `finish`: the rebuild cancelled, the backend off, the rings drained, the relay drained. */
  function Finished(s: Session, events: seq<Event>, outcomes: seq<WriteOutcome>): Session {
    if s.active.None? || s.active.value.recording >= |s.recordings| then s
    else
      var a := s.active.value;
      var stopped := Drained(ThreadStopped(s.recordings[a.recording], events), outcomes);
      With(s, a.recording, stopped.(writing := false)).(
        active := None, backend := None,
        tasks := if a.rebuild.Some? && a.rebuild.value in s.tasks
                 then s.tasks[a.rebuild.value := s.tasks[a.rebuild.value].(cancelled := true)] else s.tasks)
  }

  datatype StartOutcome = WriterUnavailable | BackendFailed | Started

  function Start(s: Session, outcome: StartOutcome, capacity: nat, lanes: nat): Session {
    if s.phase == Live then s
    else
      match outcome
      case WriterUnavailable => s.(phase := Failed(None))
      case BackendFailed => s.(phase := Failed(None))
      case Started =>
        var r := Recording(capacity, [], [], [], 0, [Thread(true, 0, [], 0)], [], true, false, [], seq(lanes, _ => 0), [], 0, 0);
        s.(phase := Live, active := Some(Active(|s.recordings|, None, false)), backend := Some(|s.recordings|),
           recordings := s.recordings + [r])
  }

  function Stop(s: Session, events: seq<Event>, outcomes: seq<WriteOutcome>, closed: bool): Session {
    if s.phase != Live || s.active.None? then s
    else
      var recording := s.active.value.recording;
      Finished(s, events, outcomes).(phase := if closed then Idle else Failed(Some(recording)))
  }

  function WriterFailed(s: Session, events: seq<Event>, outcomes: seq<WriteOutcome>): Session {
    Stop(s, events, outcomes, false)
  }

  function Noticed(r: Recording, n: Notice): Recording {
    r.(notices := r.notices + [n])
  }

  /** Ignored unless recording; kept while a rebuild is in flight; else the next rebuild. */
  function DeviceChanged(s: Session): Session {
    if s.phase != Live || s.active.None? || s.active.value.recording >= |s.recordings| then s
    else
      var a := s.active.value;
      if a.rebuild.Some? then s.(active := Some(a.(pending := true)))
      else
        var g := s.generation + 1;
        With(s, a.recording, Noticed(s.recordings[a.recording], Changed)).(
          generation := g, active := Some(a.(rebuild := Some(g))), tasks := s.tasks[g := Fresh(a.recording, false)])
  }

  function Ended(s: Session, g: nat): Session {
    s.(tasks := s.tasks - {g})
  }

  /** One `backend.start` of a rebuild: with the gap to write, asleep, or the device lost. */
  function Attempted(s: Session, g: nat, recording: nat, cancelled: bool, attempt: nat, started: Option<nat>, events: seq<Event>,
                     outcomes: seq<WriteOutcome>): Session {
    match started
    case Some(gap) =>
      if recording >= |s.recordings| then s
      else
        With(s, recording, s.recordings[recording].(gaps := s.recordings[recording].gaps + [0])).(
          backend := Some(recording), tasks := s.tasks[g := Silencing(recording, cancelled, attempt, gap, gap)])
    case None =>
      if attempt < RESTART_ATTEMPTS then s.(tasks := s.tasks[g := Restarting(recording, cancelled, attempt)])
      else DeviceLost(Ended(s, g), events, outcomes)
  }

  function DeviceLost(s: Session, events: seq<Event>, outcomes: seq<WriteOutcome>): Session {
    if s.phase != Live || s.active.None? then s
    else
      var a := s.active.value;
      Finished(s.(active := Some(a.(rebuild := None))), events, outcomes).(phase := Failed(Some(a.recording)))
  }

  /** The task's first turn: the old backend and thread off, then the first attempt. */
  function RebuildBegins(s: Session, g: nat, events: seq<Event>, started: Option<nat>): Session
    requires g in s.tasks
  {
    var t := s.tasks[g];
    if !Still(s, g) || t.recording >= |s.recordings| then Ended(s, g)
    else
      var stopped := With(s, t.recording, ThreadStopped(s.recordings[t.recording], events)).(backend := None);
      Attempted(stopped, g, t.recording, t.cancelled, 1, started, [], [])
  }

  /** Awake after the backoff: the task ends when its sleep was cancelled or the rebuild is not the
      current one. */
  function Retried(s: Session, g: nat, threw: bool, started: Option<nat>, events: seq<Event>, outcomes: seq<WriteOutcome>): Session
    requires g in s.tasks && s.tasks[g].Restarting?
  {
    var t := s.tasks[g];
    if threw || !Still(s, g) then Ended(s, g)
    else Attempted(s, g, t.recording, t.cancelled, t.attempt + 1, started, events, outcomes)
  }

  /** One turn of `writeSilence`: a frame of zeros where there is room, or 5 ms of sleep. */
  function SilenceWritten(s: Session, g: nat, threw: bool): Session
    requires g in s.tasks && s.tasks[g].Silencing?
  {
    var t := s.tasks[g];
    if t.left == 0 then s.(tasks := s.tasks[g := AwaitingRoom(t.recording, t.cancelled, t.attempt, t.gap)])
    else if threw || !Still(s, g) || t.recording >= |s.recordings| then Ended(s, g)
    else
      var r := s.recordings[t.recording];
      if |r.relay| < r.capacity && r.gaps != [] then
        var last := |r.gaps| - 1;
        With(s, t.recording, Offered(r, Silence).(gaps := r.gaps[last := r.gaps[last] + 1])).(
          tasks := s.tasks[g := t.(left := t.left - 1)])
      else s
  }

  /** One turn of `relayHasRoom`, then `resume`. */
  function RoomAwaited(s: Session, g: nat, threw: bool, room: bool): Session
    requires g in s.tasks && s.tasks[g].AwaitingRoom?
  {
    var t := s.tasks[g];
    if !room then (if threw || !Still(s, g) then Ended(s, g) else s)
    else if !Still(s, g) || t.recording >= |s.recordings| then Ended(s, g)
    else
      var a := s.active.value;
      var r := s.recordings[t.recording];
      var resumed := Noticed(
        r.(threads := r.threads + [Thread(true, 0, [], 0)], deviceChanges := r.deviceChanges + 1,
           gapFrames := r.gapFrames + t.gap),
        Resumed(t.attempt, t.gap));
      var after := Ended(With(s, t.recording, resumed), g).(active := Some(a.(rebuild := None, pending := false)));
      if a.pending then DeviceChanged(after) else after
  }

  datatype Action =
    | Starts(outcome: StartOutcome, capacity: nat, lanes: nat)
    | Stops(events: seq<Event>, outcomes: seq<WriteOutcome>, closed: bool)
    | WriterFails(events: seq<Event>, outcomes: seq<WriteOutcome>)
    | Reports
    | Begins(task: nat, events: seq<Event>, started: Option<nat>)
    | Wakes(task: nat, threw: bool, started: Option<nat>, events: seq<Event>, outcomes: seq<WriteOutcome>)
    | Silences(task: nat, threw: bool)
    | Awaits(task: nat, threw: bool, room: bool)
    | Happens(recording: nat, event: Event)

  /** A sleep throws only when its task was cancelled. */
  ghost predicate Enabled(s: Session, a: Action) {
    match a
    case Begins(g, _, _) => g in s.tasks && s.tasks[g].Fresh?
    case Wakes(g, threw, _, _, _) => g in s.tasks && s.tasks[g].Restarting? && (threw ==> s.tasks[g].cancelled)
    case Silences(g, threw) => g in s.tasks && s.tasks[g].Silencing? && (threw ==> s.tasks[g].cancelled)
    case Awaits(g, threw, _) => g in s.tasks && s.tasks[g].AwaitingRoom? && (threw ==> s.tasks[g].cancelled)
    case Happens(recording, _) => recording < |s.recordings|
    case _ => true
  }

  function Next(s: Session, a: Action): Session
    requires Enabled(s, a)
  {
    match a
    case Starts(outcome, capacity, lanes) => Start(s, outcome, capacity, lanes)
    case Stops(events, outcomes, closed) => Stop(s, events, outcomes, closed)
    case WriterFails(events, outcomes) => WriterFailed(s, events, outcomes)
    case Reports => DeviceChanged(s)
    case Begins(g, events, started) => RebuildBegins(s, g, events, started)
    case Wakes(g, threw, started, events, outcomes) => Retried(s, g, threw, started, events, outcomes)
    case Silences(g, threw) => SilenceWritten(s, g, threw)
    case Awaits(g, threw, room) => RoomAwaited(s, g, threw, room)
    case Happens(recording, e) => With(s, recording, Happened(s.recordings[recording], e))
  }

  const INITIAL := Session(Idle, None, 0, map[], None, [])

  // What a recording keeps.

  function FramesOf(thread: nat, accepted: seq<nat>): (f: seq<Frame>)
    ensures |f| == |accepted|
  {
    seq(|accepted|, i requires 0 <= i < |accepted| => Audio(thread, accepted[i]))
  }

  /** Thread 0's frames, gap 0's silence, thread 1's frames, and so on, as far as each has come. */
  function Spelled(threads: seq<Thread>, gaps: seq<nat>): seq<Frame>
    decreases |threads| + |gaps|
  {
    if threads == [] then []
    else if |gaps| >= |threads| then Spelled(threads, gaps[..|gaps| - 1]) + Repeat(Silence, gaps[|gaps| - 1])
    else
      var last := |threads| - 1;
      Spelled(threads[..last], gaps) + FramesOf(last, threads[last].accepted)
  }

  function Sum(n: seq<nat>): nat {
    if n == [] then 0 else Sum(n[..|n| - 1]) + n[|n| - 1]
  }

  function Refused(threads: seq<Thread>): nat {
    if threads == [] then 0 else Refused(threads[..|threads| - 1]) + threads[|threads| - 1].refused
  }

  ghost predicate ThreadHolds(t: Thread) {
    && t.handled == |t.accepted| + t.refused
    && (forall i :: 0 <= i < |t.accepted| ==> t.accepted[i] < t.handled)
    && (forall i, j :: 0 <= i < j < |t.accepted| ==> t.accepted[i] < t.accepted[j])
  }

  /** Only the newest thread can be alive, and only while no gap is open behind it: the relay never
      has two producers. */
  ghost predicate ThreadsHold(threads: seq<Thread>, gaps: seq<nat>) {
    && threads != [] && |threads| - 1 <= |gaps| <= |threads|
    && (forall i :: 0 <= i < |threads| ==> ThreadHolds(threads[i]))
    && (forall i :: 0 <= i < |threads| - 1 ==> !threads[i].alive)
    && (threads[|threads| - 1].alive ==> |gaps| == |threads| - 1)
  }

  /** The writer has written what it took, in order, and after a failed write at least nothing else;
      no sidecar is ahead of the master. */
  ghost predicate FilesHold(r: Recording) {
    && r.master <= r.taken
    && (!r.writeFailed ==> r.master == r.taken)
    && (forall i :: 0 <= i < |r.sidecars| ==> r.sidecars[i] <= |r.master|)
    && (!r.writeFailed ==> forall i :: 0 <= i < |r.sidecars| ==> r.sidecars[i] == |r.master|)
  }

  /** `.deviceChanged` and `.deviceResumed` alternate, each resumption stands for the gap before the
      next thread, and the statistics count them. */
  ghost predicate NoticesHold(r: Recording) {
    && (forall i :: 0 <= i < |r.notices| ==> (r.notices[i].Changed? <==> i % 2 == 0))
    && r.deviceChanges == |r.notices| / 2 == |r.threads| - 1
    && r.deviceChanges <= |r.gaps|
    && r.gapFrames == Sum(r.gaps[..r.deviceChanges])
    && (forall i :: 0 <= i < r.deviceChanges ==> r.notices[2 * i + 1].Resumed? && r.notices[2 * i + 1].gap == r.gaps[i])
  }

  ghost predicate RecordingHolds(r: Recording) {
    && ThreadsHold(r.threads, r.gaps)
    && r.committed == Spelled(r.threads, r.gaps)
    && r.taken + r.relay == r.committed
    && |r.relay| <= r.capacity
    && r.refused == Refused(r.threads)
    && FilesHold(r)
    && NoticesHold(r)
    && (!r.writing ==> r.relay == [] && !r.threads[|r.threads| - 1].alive)
  }

  /** What stays the same while the real-time threads run. */
  ghost predicate SameShape(r: Recording, r': Recording) {
    && |r'.threads| == |r.threads| && r'.gaps == r.gaps && r'.notices == r.notices
    && r'.writing == r.writing && r'.capacity == r.capacity && |r'.sidecars| == |r.sidecars|
    && r'.deviceChanges == r.deviceChanges && r'.gapFrames == r.gapFrames
    && (r.threads != [] ==> r'.threads[|r.threads| - 1].alive == r.threads[|r.threads| - 1].alive)
  }

  lemma LastThreadChanges(threads: seq<Thread>, gaps: seq<nat>, t: Thread)
    requires threads != [] && |gaps| == |threads| - 1
    ensures var last := |threads| - 1;
      && Spelled(threads[last := t], gaps) == Spelled(threads[..last], gaps) + FramesOf(last, t.accepted)
      && Refused(threads[last := t]) == Refused(threads[..last]) + t.refused
  {
    var last := |threads| - 1;
    assert threads[last := t][..last] == threads[..last];
  }

  lemma HandledHolds(r: Recording)
    requires RecordingHolds(r)
    ensures RecordingHolds(Handled(r)) && SameShape(r, Handled(r))
  {
    hide Spelled, Refused, NoticesHold, ThreadHolds;
    var last := |r.threads| - 1;
    if r.threads[last].alive {
      var r' := Handled(r);
      HandledThread(r);
      HandledSpells(r);
      NoticesSame(r, r');
    }
  }

  lemma HandledThread(r: Recording)
    requires r.threads != [] && r.threads[|r.threads| - 1].alive && ThreadHolds(r.threads[|r.threads| - 1])
    ensures ThreadHolds(Handled(r).threads[|r.threads| - 1])
  {}

  lemma HandledSpells(r: Recording)
    requires r.threads != [] && r.threads[|r.threads| - 1].alive && |r.gaps| == |r.threads| - 1
    requires r.committed == Spelled(r.threads, r.gaps) && r.refused == Refused(r.threads)
    ensures var r' := Handled(r);
      r'.committed == Spelled(r'.threads, r.gaps) && r'.refused == Refused(r'.threads)
  {
    hide Spelled, Refused;
    var last := |r.threads| - 1;
    var t := r.threads[last];
    var t' := Handled(r).threads[last];
    LastThreadChanges(r.threads, r.gaps, t);
    LastThreadChanges(r.threads, r.gaps, t');
    assert r.threads[last := t] == r.threads;
    if |r.relay| < r.capacity {
      assert FramesOf(last, t'.accepted) == FramesOf(last, t.accepted) + [Audio(last, t.handled)];
    }
  }

  lemma NoticesSame(r: Recording, r': Recording)
    requires NoticesHold(r) && r'.notices == r.notices && r'.gaps == r.gaps && |r'.threads| == |r.threads|
    requires r'.deviceChanges == r.deviceChanges && r'.gapFrames == r.gapFrames
    ensures NoticesHold(r')
  {}

  lemma TakenHolds(r: Recording, outcome: WriteOutcome)
    requires RecordingHolds(r)
    ensures RecordingHolds(TakenOut(r, outcome)) && SameShape(r, TakenOut(r, outcome))
  {
    hide Spelled, Refused, NoticesHold, ThreadsHold;
    if r.writing && r.relay != [] {
      var r' := TakenOut(r, outcome);
      assert r.taken + r.relay == r.taken + [r.relay[0]] + r.relay[1..];
      NoticesSame(r, r');
    }
  }

  lemma {:induction false} AllHappenedHolds(r: Recording, events: seq<Event>)
    requires RecordingHolds(r)
    ensures RecordingHolds(AllHappened(r, events)) && SameShape(r, AllHappened(r, events))
  {
    hide RecordingHolds, Handled, TakenOut;
    if events != [] {
      AllHappenedHolds(r, events[..|events| - 1]);
      HappenedHolds(AllHappened(r, events[..|events| - 1]), events[|events| - 1]);
    }
  }

  lemma HappenedHolds(r: Recording, e: Event)
    requires RecordingHolds(r)
    ensures RecordingHolds(Happened(r, e)) && SameShape(r, Happened(r, e))
  {
    match e {
      case Handle => HandledHolds(r);
      case Take(outcome) => TakenHolds(r, outcome);
    }
  }

  lemma ThreadStoppedHolds(r: Recording, events: seq<Event>)
    requires RecordingHolds(r)
    ensures RecordingHolds(ThreadStopped(r, events))
    ensures var r' := ThreadStopped(r, events);
      && |r'.threads| == |r.threads| && r'.gaps == r.gaps && r'.notices == r.notices && r'.writing == r.writing
      && !r'.threads[|r'.threads| - 1].alive
  {
    AllHappenedHolds(r, events);
    var m := AllHappened(r, events);
    var last := |m.threads| - 1;
    var dead := m.threads[last].(alive := false);
    var r' := ThreadStopped(r, events);
    assert r'.threads[..last] == m.threads[..last];
    SameAccepted(m.threads, r'.threads, m.gaps);
    NoticesSame(m, r');
    assert ThreadHolds(dead);
  }

  /** Whether threads are alive does not change what they spell. */
  lemma {:induction false} SameAccepted(threads: seq<Thread>, threads': seq<Thread>, gaps: seq<nat>)
    requires |threads| == |threads'|
    requires forall i :: 0 <= i < |threads| ==>
      threads'[i].accepted == threads[i].accepted && threads'[i].refused == threads[i].refused
    ensures Spelled(threads', gaps) == Spelled(threads, gaps) && Refused(threads') == Refused(threads)
    decreases |threads| + |gaps|
  {
    if threads != [] {
      var last := |threads| - 1;
      if |gaps| >= |threads| { SameAccepted(threads, threads', gaps[..|gaps| - 1]); }
      SameAccepted(threads[..last], threads'[..last], gaps);
    }
  }

  lemma {:induction false} DrainedHolds(r: Recording, outcomes: seq<WriteOutcome>)
    requires RecordingHolds(r)
    ensures RecordingHolds(Drained(r, outcomes)) && SameShape(r, Drained(r, outcomes))
    ensures r.writing ==> Drained(r, outcomes).relay == []
    decreases |r.relay|
  {
    hide RecordingHolds;
    if r.writing && r.relay != [] {
      var outcome := if outcomes == [] then Wrote else outcomes[0];
      TakenHolds(r, outcome);
      DrainedHolds(TakenOut(r, outcome), if outcomes == [] then [] else outcomes[1..]);
    }
  }

  // What the session keeps.

  ghost predicate Producing(r: Recording)
    requires r.threads != []
  {
    r.threads[|r.threads| - 1].alive && |r.gaps| == |r.threads| - 1
  }

  ghost predicate Silenced(r: Recording, written: nat)
    requires r.threads != []
  {
    !r.threads[|r.threads| - 1].alive && |r.gaps| == |r.threads| && r.gaps[|r.gaps| - 1] == written
  }

  /** Where the rebuild task stands is where the recording stands. */
  ghost predicate TaskFits(r: Recording, t: Task, running: bool)
    requires r.threads != []
  {
    match t
    case Fresh(_, _) => Producing(r) && running
    case Restarting(_, _, attempt) =>
      !r.threads[|r.threads| - 1].alive && |r.gaps| == |r.threads| - 1 && !running && 1 <= attempt < RESTART_ATTEMPTS
    case Silencing(_, _, _, gap, left) => left <= gap && Silenced(r, gap - left) && running
    case AwaitingRoom(_, _, _, gap) => Silenced(r, gap) && running
  }

  ghost predicate ActiveHolds(s: Session, a: Active) {
    && a.recording == |s.recordings| - 1
    && var r := s.recordings[a.recording];
    && r.writing && RecordingHolds(r)
    && match a.rebuild
       case None => Producing(r) && !a.pending && |r.notices| % 2 == 0 && s.backend == Some(a.recording)
       case Some(g) =>
         && g == s.generation && g in s.tasks && s.tasks[g].recording == a.recording && !s.tasks[g].cancelled
         && |r.notices| % 2 == 1
         && (s.backend == Some(a.recording) || s.backend == None)
         && TaskFits(r, s.tasks[g], s.backend.Some?)
  }

  ghost predicate Inv(s: Session) {
    && (forall i :: 0 <= i < |s.recordings| ==> RecordingHolds(s.recordings[i]))
    && (s.phase == Live <==> s.active.Some?)
    && (forall i :: 0 <= i < |s.recordings| && (s.active.None? || i != s.active.value.recording) ==> !s.recordings[i].writing)
    && (s.active.Some? ==> ActiveHolds(s, s.active.value))
    && (s.active.None? ==> s.backend == None)
    && (forall g :: g in s.tasks ==> g <= s.generation)
    && (forall r :: s.phase == Failed(Some(r)) ==> r == |s.recordings| - 1)
  }

  /** The current task can tell that it is, and no other can. */
  lemma OneLiveTask(s: Session, g: nat)
    requires Inv(s)
    ensures Still(s, g) <==> s.active.Some? && s.active.value.rebuild == Some(g)
  {}

  /** The task an action is a turn of. */
  function TaskOf(a: Action): Option<nat> {
    match a
    case Begins(g, _, _) => Some(g)
    case Wakes(g, _, _, _, _) => Some(g)
    case Silences(g, _) => Some(g)
    case Awaits(g, _, _) => Some(g)
    case _ => None
  }

  /** A task of an older generation, or of a recording that ended, changes nothing but itself. */
  lemma StaleTasksChangeNothing(s: Session, a: Action, g: nat)
    requires Inv(s) && Enabled(s, a) && TaskOf(a) == Some(g)
    requires !(s.active.Some? && s.active.value.rebuild == Some(g))
    ensures Next(s, a) == s.(tasks := Next(s, a).tasks)
    ensures forall k :: k != g ==> (k in Next(s, a).tasks <==> k in s.tasks) && (k in s.tasks ==> Next(s, a).tasks[k] == s.tasks[k])
  {
    OneLiveTask(s, g);
  }

  lemma FinishedHolds(s: Session, events: seq<Event>, outcomes: seq<WriteOutcome>)
    requires Inv(s) && s.active.Some?
    ensures var s' := Finished(s, events, outcomes);
      && |s'.recordings| == |s.recordings| && s'.active == None && s'.backend == None && s'.generation == s.generation
      && (forall i :: 0 <= i < |s.recordings| ==> RecordingHolds(s'.recordings[i]) && !s'.recordings[i].writing)
      && (forall g :: g in s'.tasks ==> g in s.tasks)
  {
    hide RecordingHolds;
    var a := s.active.value;
    var r := s.recordings[a.recording];
    ThreadStoppedHolds(r, events);
    var stopped := ThreadStopped(r, events);
    DrainedHolds(stopped, outcomes);
    WriterClosed(Drained(stopped, outcomes));
  }

  lemma WriterClosed(r: Recording)
    requires RecordingHolds(r) && r.relay == [] && !r.threads[|r.threads| - 1].alive
    ensures RecordingHolds(r.(writing := false))
  {
    NoticesSame(r, r.(writing := false));
  }

  lemma StopHolds(s: Session, events: seq<Event>, outcomes: seq<WriteOutcome>, closed: bool)
    requires Inv(s)
    ensures Inv(Stop(s, events, outcomes, closed))
  {
    hide RecordingHolds, TaskFits;
    if s.phase == Live { FinishedHolds(s, events, outcomes); }
  }

  lemma StartHolds(s: Session, outcome: StartOutcome, capacity: nat, lanes: nat)
    requires Inv(s)
    ensures Inv(Start(s, outcome, capacity, lanes))
  {
    var s' := Start(s, outcome, capacity, lanes);
    if s.phase != Live && outcome.Started? {
      var r := s'.recordings[|s.recordings|];
      assert r.threads[..0] == [] && FramesOf(0, []) == [];
      assert RecordingHolds(r);
      hide RecordingHolds;
    }
  }

  lemma NoticedHolds(r: Recording)
    requires RecordingHolds(r) && |r.notices| % 2 == 0
    ensures RecordingHolds(Noticed(r, Changed))
  {
    hide Spelled, Refused, Sum;
  }

  lemma DeviceChangedHolds(s: Session)
    requires Inv(s)
    ensures Inv(DeviceChanged(s))
  {
    if s.phase == Live {
      var a := s.active.value;
      if a.rebuild.None? { NoticedHolds(s.recordings[a.recording]); }
    }
    hide RecordingHolds;
  }

  lemma DeviceLostHolds(s: Session, g: nat, events: seq<Event>, outcomes: seq<WriteOutcome>)
    requires Inv(s) && s.active.Some? && s.active.value.rebuild == Some(g)
    ensures Inv(DeviceLost(Ended(s, g), events, outcomes))
  {
    hide RecordingHolds;
    var a := s.active.value;
    var r := s.recordings[a.recording];
    ThreadStoppedHolds(r, events);
    var stopped := ThreadStopped(r, events);
    DrainedHolds(stopped, outcomes);
    WriterClosed(Drained(stopped, outcomes));
  }

  lemma GapOpens(r: Recording)
    requires RecordingHolds(r) && |r.gaps| == |r.threads| - 1 && !r.threads[|r.threads| - 1].alive
    ensures RecordingHolds(r.(gaps := r.gaps + [0]))
  {
    var r' := r.(gaps := r.gaps + [0]);
    assert r'.gaps[..|r.gaps|] == r.gaps && Repeat(Silence, 0) == [];
    hide Spelled, Refused, Sum;
    assert r'.gaps[..r.deviceChanges] == r.gaps[..r.deviceChanges];
  }

  /** An attempt of the current task, its old thread gone. */
  lemma AttemptedHolds(s: Session, g: nat, attempt: nat, started: Option<nat>, events: seq<Event>, outcomes: seq<WriteOutcome>)
    requires Inv(s) && s.active.Some? && s.active.value.rebuild == Some(g)
    requires s.tasks[g].Restarting? && 1 <= attempt <= RESTART_ATTEMPTS
    ensures Inv(Attempted(s, g, s.active.value.recording, false, attempt, started, events, outcomes))
  {
    var recording := s.active.value.recording;
    var r := s.recordings[recording];
    match started {
      case Some(gap) => GapOpens(r);
      case None =>
        if attempt < RESTART_ATTEMPTS {} else { DeviceLostHolds(s, g, events, outcomes); }
    }
    hide RecordingHolds;
  }

  lemma RetriedHolds(s: Session, g: nat, threw: bool, started: Option<nat>, events: seq<Event>, outcomes: seq<WriteOutcome>)
    requires Inv(s) && Enabled(s, Wakes(g, threw, started, events, outcomes))
    ensures Inv(Retried(s, g, threw, started, events, outcomes))
  {
    hide RecordingHolds;
    OneLiveTask(s, g);
    if !threw && Still(s, g) {
      AttemptedHolds(s, g, s.tasks[g].attempt + 1, started, events, outcomes);
    }
  }

  lemma RebuildBeginsHolds(s: Session, g: nat, events: seq<Event>, started: Option<nat>)
    requires Inv(s) && g in s.tasks && s.tasks[g].Fresh?
    ensures Inv(RebuildBegins(s, g, events, started))
  {
    hide RecordingHolds, ThreadStopped;
    OneLiveTask(s, g);
    if Still(s, g) {
      var t := s.tasks[g];
      ThreadStoppedHolds(s.recordings[t.recording], events);
      var stopped := With(s, t.recording, ThreadStopped(s.recordings[t.recording], events)).(backend := None);
      // As if the task had already failed once.
      var slept := stopped.(tasks := s.tasks[g := Restarting(t.recording, false, 1)]);
      assert Inv(slept);
      AttemptedHolds(slept, g, 1, started, [], []);
      assert slept.tasks[g := Restarting(t.recording, false, 1)] == slept.tasks;
      if started.Some? {
        var task := Silencing(t.recording, false, 1, started.value, started.value);
        assert slept.tasks[g := task] == stopped.tasks[g := task];
      }
    }
  }

  lemma HasThread(r: Recording)
    requires RecordingHolds(r)
    ensures r.threads != []
  {}

  lemma SilenceKeeps(r: Recording)
    requires RecordingHolds(r) && |r.gaps| == |r.threads| && |r.relay| < r.capacity && r.writing
    ensures var last := |r.gaps| - 1; var r' := Offered(r, Silence).(gaps := r.gaps[last := r.gaps[last] + 1]);
      RecordingHolds(r') && r'.threads == r.threads && r'.notices == r.notices && r'.writing
  {
    var last := |r.gaps| - 1;
    var gaps := r.gaps[last := r.gaps[last] + 1];
    assert gaps[..last] == r.gaps[..last];
    assert Repeat(Silence, r.gaps[last] + 1) == Repeat(Silence, r.gaps[last]) + [Silence];
    assert Spelled(r.threads, gaps) == Spelled(r.threads, r.gaps) + [Silence];
    hide Spelled, Refused, Sum;
    assert gaps[..r.deviceChanges] == r.gaps[..r.deviceChanges];
  }

  lemma SilenceWrittenHolds(s: Session, g: nat, threw: bool)
    requires Inv(s) && Enabled(s, Silences(g, threw))
    ensures Inv(SilenceWritten(s, g, threw))
  {
    hide RecordingHolds, Offered;
    OneLiveTask(s, g);
    var t := s.tasks[g];
    if t.left > 0 && !threw && Still(s, g) {
      var r := s.recordings[t.recording];
      HasThread(r);
      if |r.relay| < r.capacity { SilenceKeeps(r); }
    }
  }

  lemma ResumedHolds(r: Recording, attempt: nat, gap: nat)
    requires RecordingHolds(r) && Silenced(r, gap) && |r.notices| % 2 == 1 && r.writing
    ensures RecordingHolds(Noticed(
      r.(threads := r.threads + [Thread(true, 0, [], 0)], deviceChanges := r.deviceChanges + 1, gapFrames := r.gapFrames + gap),
      Resumed(attempt, gap)))
  {
    var n := |r.threads|;
    var threads := r.threads + [Thread(true, 0, [], 0)];
    assert threads[..n] == r.threads && FramesOf(n, []) == [];
    assert r.gaps[..r.deviceChanges + 1] == r.gaps && r.gaps[..n - 1] == r.gaps[..r.deviceChanges];
    hide Spelled, Refused;
  }

  lemma RoomAwaitedHolds(s: Session, g: nat, threw: bool, room: bool)
    requires Inv(s) && Enabled(s, Awaits(g, threw, room))
    ensures Inv(RoomAwaited(s, g, threw, room))
  {
    hide RecordingHolds, DeviceChanged;
    OneLiveTask(s, g);
    if room && Still(s, g) {
      var t := s.tasks[g];
      var a := s.active.value;
      var r := s.recordings[t.recording];
      HasThread(r);
      ResumedHolds(r, t.attempt, t.gap);
      var resumed := Noticed(
        r.(threads := r.threads + [Thread(true, 0, [], 0)], deviceChanges := r.deviceChanges + 1,
           gapFrames := r.gapFrames + t.gap),
        Resumed(t.attempt, t.gap));
      var after := Ended(With(s, t.recording, resumed), g).(active := Some(a.(rebuild := None, pending := false)));
      assert Inv(after);
      DeviceChangedHolds(after);
    }
  }

  lemma HappensHolds(s: Session, recording: nat, e: Event)
    requires Inv(s) && recording < |s.recordings|
    ensures Inv(With(s, recording, Happened(s.recordings[recording], e)))
  {
    hide RecordingHolds, Happened;
    HappenedHolds(s.recordings[recording], e);
  }

  lemma NextHolds(s: Session, a: Action)
    requires Inv(s) && Enabled(s, a)
    ensures Inv(Next(s, a))
  {
    hide Inv;
    match a {
      case Starts(outcome, capacity, lanes) => StartHolds(s, outcome, capacity, lanes);
      case Stops(events, outcomes, closed) => StopHolds(s, events, outcomes, closed);
      case WriterFails(events, outcomes) => StopHolds(s, events, outcomes, false);
      case Reports => DeviceChangedHolds(s);
      case Begins(g, events, started) => RebuildBeginsHolds(s, g, events, started);
      case Wakes(g, threw, started, events, outcomes) => RetriedHolds(s, g, threw, started, events, outcomes);
      case Silences(g, threw) => SilenceWrittenHolds(s, g, threw);
      case Awaits(g, threw, room) => RoomAwaitedHolds(s, g, threw, room);
      case Happens(recording, e) => HappensHolds(s, recording, e);
    }
  }

  // Whole runs.

  ghost predicate Run(run: seq<Session>, actions: seq<Action>) {
    && |run| == |actions| + 1 && run[0] == INITIAL
    && forall i :: 0 <= i < |actions| ==> Enabled(run[i], actions[i]) && run[i + 1] == Next(run[i], actions[i])
  }

  lemma {:induction false} RunHolds(run: seq<Session>, actions: seq<Action>, i: nat)
    requires Run(run, actions) && i < |run|
    ensures Inv(run[i])
    decreases i
  {
    if i > 0 {
      RunHolds(run, actions, i - 1);
      hide Inv, Enabled, Next;
      NextHolds(run[i - 1], actions[i - 1]);
    }
  }

  function Audios(frames: seq<Frame>): nat {
    if frames == [] then 0 else Audios(frames[..|frames| - 1]) + (if frames[|frames| - 1].Audio? then 1 else 0)
  }

  function HandledBy(threads: seq<Thread>): nat {
    if threads == [] then 0 else HandledBy(threads[..|threads| - 1]) + threads[|threads| - 1].handled
  }

  lemma {:induction false} AudiosJoin(a: seq<Frame>, b: seq<Frame>)
    ensures Audios(a + b) == Audios(a) + Audios(b)
    decreases |b|
  {
    if b == [] {
      assert a + b == a;
    } else {
      assert (a + b)[..|a + b| - 1] == a + b[..|b| - 1];
      AudiosJoin(a, b[..|b| - 1]);
    }
  }

  lemma {:induction false} SilenceHasNone(n: nat)
    ensures Audios(Repeat(Silence, n)) == 0
    decreases n
  {
    if n > 0 {
      assert Repeat(Silence, n)[..n - 1] == Repeat(Silence, n - 1);
      SilenceHasNone(n - 1);
    }
  }

  lemma {:induction false} FramesAreAudio(thread: nat, accepted: seq<nat>)
    ensures Audios(FramesOf(thread, accepted)) == |accepted|
    decreases |accepted|
  {
    if accepted != [] {
      var last := |accepted| - 1;
      assert FramesOf(thread, accepted)[..last] == FramesOf(thread, accepted[..last]);
      FramesAreAudio(thread, accepted[..last]);
    }
  }

  /** Every frame a thread handled is in the recording or was refused by the relay. */
  lemma {:induction false} HandledAreCommittedOrRefused(threads: seq<Thread>, gaps: seq<nat>)
    requires forall i :: 0 <= i < |threads| ==> ThreadHolds(threads[i])
    ensures HandledBy(threads) == Audios(Spelled(threads, gaps)) + Refused(threads)
    decreases |threads| + |gaps|
  {
    if threads == [] {
    } else if |gaps| >= |threads| {
      hide Audios, ThreadHolds;
      var last := |gaps| - 1;
      HandledAreCommittedOrRefused(threads, gaps[..last]);
      AudiosJoin(Spelled(threads, gaps[..last]), Repeat(Silence, gaps[last]));
      SilenceHasNone(gaps[last]);
    } else {
      var last := |threads| - 1;
      assert ThreadHolds(threads[last]);
      hide Audios, ThreadHolds;
      HandledAreCommittedOrRefused(threads[..last], gaps);
      AudiosJoin(Spelled(threads[..last], gaps), FramesOf(last, threads[last].accepted));
      FramesAreAudio(last, threads[last].accepted);
    }
  }

  /** Main result, for every run and every recording: the frames the relay took are the first
      thread's, then the first gap's silence, then the second thread's, and so on, each in order;
      every frame handled is among them or was refused; the relay has one producer at most; and no
      sidecar is ahead of the master. */
  lemma RecordingsAreWholeInEveryRun(run: seq<Session>, actions: seq<Action>, i: nat, k: nat)
    requires Run(run, actions) && i < |run| && k < |run[i].recordings|
    ensures var r := run[i].recordings[k];
      && r.committed == Spelled(r.threads, r.gaps) == r.taken + r.relay
      && HandledBy(r.threads) == Audios(r.committed) + r.refused
      && (forall t, u :: 0 <= t < |r.threads| && 0 <= u < |r.threads| && r.threads[t].alive && r.threads[u].alive ==> t == u)
      && (forall t :: 0 <= t < |r.threads| && r.threads[t].alive ==> |r.gaps| < |r.threads|)
      && (forall l :: 0 <= l < |r.sidecars| ==> r.sidecars[l] <= |r.master|)
      && r.master <= r.taken
  {
    RunHolds(run, actions, i);
    var r := run[i].recordings[k];
    assert RecordingHolds(r);
    HandledAreCommittedOrRefused(r.threads, r.gaps);
  }

  // What the threads do, one event at a time.

  /** A frame handled: with a thread alive and room it goes behind the rest, without room it is refused;
      nothing else changes. */
  ghost predicate Handles(r: Recording, r': Recording) {
    && r.threads != [] && |r'.threads| == |r.threads|
    && var last := |r.threads| - 1; var t, t' := r.threads[last], r'.threads[last];
    && (!t.alive ==> r' == r)
    && (t.alive ==>
          && r'.threads[..last] == r.threads[..last] && t'.alive && t'.handled == t.handled + 1
          && (if |r.relay| < r.capacity
              then r'.relay == r.relay + [Audio(last, t.handled)] && r'.committed == r.committed + [Audio(last, t.handled)]
                   && t'.accepted == t.accepted + [t.handled] && t'.refused == t.refused && r'.refused == r.refused
              else r'.relay == r.relay && r'.committed == r.committed
                   && t'.accepted == t.accepted && t'.refused == t.refused + 1 && r'.refused == r.refused + 1))
    && Files(r') == Files(r) && History(r') == History(r)
  }

  function Files(r: Recording): (seq<Frame>, bool, bool, seq<Frame>, seq<nat>) {
    (r.taken, r.writing, r.writeFailed, r.master, r.sidecars)
  }

  function History(r: Recording): (nat, seq<nat>, seq<Notice>, nat, nat) {
    (r.capacity, r.gaps, r.notices, r.deviceChanges, r.gapFrames)
  }

  /** A frame taken out by the writer: the oldest goes to the master and every sidecar, up to the file whose
      write fails and none after it. */
  ghost predicate Takes(r: Recording, r': Recording, outcome: WriteOutcome) {
    if !r.writing || r.relay == [] then r' == r
    else
      && [r.relay[0]] + r'.relay == r.relay && r'.taken == r.taken + [r.relay[0]]
      && r'.committed == r.committed && r'.refused == r.refused && r'.threads == r.threads && History(r') == History(r)
      && r'.writing && (r'.writeFailed <==> r.writeFailed || !outcome.Wrote?)
      && r'.master == (if r.writeFailed || outcome.MasterFailed? then r.master else r.master + [r.relay[0]])
      && |r'.sidecars| == |r.sidecars|
      && forall l :: 0 <= l < |r.sidecars| ==>
           r'.sidecars[l] == r.sidecars[l] +
             if !r.writeFailed && (outcome.Wrote? || (outcome.SidecarFailed? && l < outcome.lane)) then 1 else 0
  }

  ghost predicate Does(r: Recording, r': Recording, e: Event) {
    match e
    case Handle => Handles(r, r')
    case Take(outcome) => Takes(r, r', outcome)
  }

  /** The recordings between the events, one after another. */
  ghost predicate OneByOne(path: seq<Recording>, events: seq<Event>) {
    |path| == |events| + 1 && forall i :: 0 <= i < |events| ==> Does(path[i], path[i + 1], events[i])
  }

  lemma HappenedDoes(r: Recording, e: Event)
    requires r.threads != []
    ensures Does(r, Happened(r, e), e) && Happened(r, e).threads != []
  {}

  lemma {:induction false} AllHappenOneByOne(r: Recording, events: seq<Event>) returns (path: seq<Recording>)
    requires r.threads != []
    ensures OneByOne(path, events) && path[0] == r && path[|events|] == AllHappened(r, events) && path[|events|].threads != []
  {
    hide Does, Happened;
    if events == [] {
      path := [r];
    } else {
      var before := AllHappenOneByOne(r, events[..|events| - 1]);
      HappenedDoes(before[|events| - 1], events[|events| - 1]);
      path := before + [AllHappened(r, events)];
    }
  }

  lemma TakenOutTakes(r: Recording, outcome: WriteOutcome)
    ensures Takes(r, TakenOut(r, outcome), outcome)
  {}

  lemma {:induction false} DrainsOneByOne(r: Recording, outcomes: seq<WriteOutcome>) returns (path: seq<Recording>)
    ensures path != [] && path[0] == r && path[|path| - 1] == Drained(r, outcomes)
    ensures |path| == if r.writing then |r.relay| + 1 else 1
    ensures forall i :: 0 <= i < |path| - 1 ==>
      Takes(path[i], path[i + 1], if i < |outcomes| then outcomes[i] else Wrote)
    decreases |r.relay|
  {
    if !r.writing || r.relay == [] {
      path := [r];
    } else {
      var outcome := if outcomes == [] then Wrote else outcomes[0];
      TakenOutTakes(r, outcome);
      assert |TakenOut(r, outcome).relay| == |r.relay| - 1 && TakenOut(r, outcome).writing;
      hide Takes, TakenOut;
      var rest := DrainsOneByOne(TakenOut(r, outcome), if outcomes == [] then [] else outcomes[1..]);
      path := [r] + rest;
    }
  }

  /** Main result, for every run: a frame handled goes to the relay exactly when a thread is alive and the
      relay has room, and the writer's turn writes what the writes allow. */
  lemma EachEventDoesItsPart(run: seq<Session>, actions: seq<Action>, i: nat, k: nat, e: Event)
    requires Run(run, actions) && i < |actions| && actions[i] == Happens(k, e)
    ensures k < |run[i].recordings| && |run[i + 1].recordings| == |run[i].recordings|
    ensures Does(run[i].recordings[k], run[i + 1].recordings[k], e)
    ensures forall l :: 0 <= l < |run[i].recordings| && l != k ==> run[i + 1].recordings[l] == run[i].recordings[l]
    ensures run[i + 1] == run[i].(recordings := run[i + 1].recordings)
  {
    RunHolds(run, actions, i);
    hide Does, Happened;
    HasThread(run[i].recordings[k]);
    HappenedDoes(run[i].recordings[k], e);
  }

  /** Main result, for every run: a stop is the events of the thread, then its end, then the writer's turns
      until the relay is empty, each as above. */
  lemma AStopIsItsEvents(run: seq<Session>, actions: seq<Action>, i: nat, events: seq<Event>, outcomes: seq<WriteOutcome>)
    returns (path: seq<Recording>, drain: seq<Recording>)
    requires Run(run, actions) && i < |actions| && run[i].phase == Live
    requires actions[i] == WriterFails(events, outcomes) || exists closed :: actions[i] == Stops(events, outcomes, closed)
    ensures run[i].active.Some? && run[i].active.value.recording < |run[i].recordings| == |run[i + 1].recordings|
    ensures run[i + 1].phase == if actions[i].Stops? && actions[i].closed then Idle else Failed(Some(run[i].active.value.recording))
    ensures var k := run[i].active.value.recording;
      && OneByOne(path, events) && path[0] == run[i].recordings[k]
      && |drain| == |path[|events|].relay| + 1
      && path[|events|].threads != [] && var last := |path[|events|].threads| - 1;
      && drain[0] == path[|events|].(threads := path[|events|].threads[last := path[|events|].threads[last].(alive := false)])
      && (forall j :: 0 <= j < |drain| - 1 ==> Takes(drain[j], drain[j + 1], if j < |outcomes| then outcomes[j] else Wrote))
      && run[i + 1].recordings[k] == drain[|drain| - 1].(writing := false)
      && forall l :: 0 <= l < |run[i].recordings| && l != k ==> run[i + 1].recordings[l] == run[i].recordings[l]
  {
    RunHolds(run, actions, i);
    var k := run[i].active.value.recording;
    var r := run[i].recordings[k];
    HasThread(r);
    AllHappenedHolds(r, events);
    hide RecordingHolds, Does, Takes, AllHappened, TaskFits, Drained;
    path := AllHappenOneByOne(r, events);
    drain := DrainsOneByOne(ThreadStopped(r, events), outcomes);
  }

  /** What the threads do in an action. */
  function EventsOf(a: Action): seq<Event> {
    match a
    case Stops(events, _, _) => events
    case WriterFails(events, _) => events
    case Begins(_, events, _) => events
    case Wakes(_, _, _, events, _) => events
    case Happens(_, e) => [e]
    case _ => []
  }

  lemma {:induction false} DrainingRefusesNone(r: Recording, outcomes: seq<WriteOutcome>)
    ensures Drained(r, outcomes).refused == r.refused
    decreases |r.relay|
  {
    if r.writing && r.relay != [] {
      var outcome := if outcomes == [] then Wrote else outcomes[0];
      DrainingRefusesNone(TakenOut(r, outcome), if outcomes == [] then [] else outcomes[1..]);
    }
  }

  /** Only the events of an action can refuse a frame. */
  ghost predicate RefusedBy(r: Recording, s': Session, k: nat, events: seq<Event>) {
    && k < |s'.recordings|
    && (s'.recordings[k].refused == r.refused || s'.recordings[k].refused == AllHappened(r, events).refused)
  }

  lemma FinishedRefuses(s: Session, events: seq<Event>, outcomes: seq<WriteOutcome>, k: nat)
    requires k < |s.recordings|
    ensures RefusedBy(s.recordings[k], Finished(s, events, outcomes), k, events)
  {
    DrainingRefusesNone(ThreadStopped(s.recordings[k], events), outcomes);
    hide Drained, AllHappened;
  }

  lemma EventsRefuse(s: Session, a: Action, k: nat)
    requires Enabled(s, a) && k < |s.recordings|
    ensures RefusedBy(s.recordings[k], Next(s, a), k, EventsOf(a))
  {
    hide Finished, AllHappened;
    match a {
      case Happens(_, e) =>
        OneEvent(s.recordings[k], e);
      case Stops(events, outcomes, _) => FinishedRefuses(s, events, outcomes, k);
      case WriterFails(events, outcomes) => FinishedRefuses(s, events, outcomes, k);
      case Wakes(g, _, _, events, outcomes) =>
        if s.active.Some? {
          FinishedRefuses(Ended(s, g).(active := Some(s.active.value.(rebuild := None))), events, outcomes, k);
        }
      case _ =>
    }
  }

  lemma OneEvent(r: Recording, e: Event)
    ensures AllHappened(r, [e]) == Happened(r, e)
  {
    assert [e][..0] == [] && AllHappened(r, []) == r;
  }

  lemma {:induction false} FirstRefusal(path: seq<Recording>, events: seq<Event>) returns (e: nat)
    requires OneByOne(path, events) && path[|events|].refused > path[0].refused
    ensures e < |events| && events[e] == Handle && |path[e].relay| >= path[e].capacity == path[0].capacity
    ensures path[e].threads != [] && path[e].threads[|path[e].threads| - 1].alive
    decreases |events|
  {
    var last := |events| - 1;
    assert Does(path[last], path[last + 1], events[last]);
    SameCapacity(path, events, last);
    if path[last + 1].refused > path[last].refused {
      e := last;
    } else {
      e := FirstRefusal(path[..last + 1], events[..last]);
    }
  }

  lemma {:induction false} SameCapacity(path: seq<Recording>, events: seq<Event>, i: nat)
    requires OneByOne(path, events) && i < |path|
    ensures path[i].capacity == path[0].capacity
    decreases i
  {
    if i > 0 {
      SameCapacity(path, events, i - 1);
      assert Does(path[i - 1], path[i], events[i - 1]);
    }
  }

  /** Main result, for every run: a recording's count of refused frames grows only by a frame that a live
      thread handled while the relay was full. */
  lemma RefusedOnlyWhenFull(run: seq<Session>, actions: seq<Action>, i: nat, k: nat)
    returns (e: nat, path: seq<Recording>)
    requires Run(run, actions) && i < |actions| && k < |run[i].recordings| && k < |run[i + 1].recordings|
    requires run[i + 1].recordings[k].refused > run[i].recordings[k].refused
    ensures OneByOne(path, EventsOf(actions[i])) && path[0] == run[i].recordings[k]
    ensures e < |EventsOf(actions[i])| && EventsOf(actions[i])[e] == Handle
    ensures |path[e].relay| >= path[e].capacity == run[i].recordings[k].capacity
    ensures path[e].threads != [] && path[e].threads[|path[e].threads| - 1].alive
  {
    RunHolds(run, actions, i);
    HasThread(run[i].recordings[k]);
    hide Next, Enabled, AllHappened, OneByOne, Inv;
    EventsRefuse(run[i], actions[i], k);
    path := AllHappenOneByOne(run[i].recordings[k], EventsOf(actions[i]));
    e := FirstRefusal(path, EventsOf(actions[i]));
  }

  /** A recording nothing feeds any more, and its files, whole unless a write failed. */
  ghost predicate Closed(r: Recording) {
    && r.relay == []
    && (forall t :: 0 <= t < |r.threads| ==> !r.threads[t].alive)
    && (!r.writeFailed ==>
          r.master == Spelled(r.threads, r.gaps) && forall l :: 0 <= l < |r.sidecars| ==> r.sidecars[l] == |r.master|)
  }

  /** Main result: after a stop in any run, if no write failed, the master is exactly what the relay
      took. */
  lemma StopLeavesTheWholeRecording(run: seq<Session>, actions: seq<Action>, i: nat, events: seq<Event>, outcomes: seq<WriteOutcome>, closed: bool)
    requires Run(run, actions) && i < |run| && run[i].phase == Live
    ensures run[i].active.Some? && run[i].active.value.recording < |Stop(run[i], events, outcomes, closed).recordings|
    ensures Closed(Stop(run[i], events, outcomes, closed).recordings[run[i].active.value.recording])
    ensures Stop(run[i], events, outcomes, closed).backend == None && Stop(run[i], events, outcomes, closed).active == None
  {
    RunHolds(run, actions, i);
    FinishedHolds(run[i], events, outcomes);
    assert RecordingHolds(Stop(run[i], events, outcomes, closed).recordings[run[i].active.value.recording]);
  }

  /** Main result, for every run: while a rebuild is set, one live task of the current generation
      carries it, and the notices of a recording alternate and add up to its statistics. */
  lemma RebuildsInEveryRun(run: seq<Session>, actions: seq<Action>, i: nat)
    requires Run(run, actions) && i < |run|
    ensures var s := run[i];
      && (s.active.Some? && s.active.value.rebuild.Some? ==>
            s.generation in s.tasks && !s.tasks[s.generation].cancelled && forall g :: Still(s, g) <==> g == s.generation)
      && (s.active.Some? && s.active.value.rebuild.None? ==> forall g :: !Still(s, g))
      && (s.phase != Live ==> s.active == None && s.backend == None && forall g :: !Still(s, g))
      && (forall k :: 0 <= k < |s.recordings| ==> NoticesHold(s.recordings[k]))
  {
    RunHolds(run, actions, i);
    var s := run[i];
    forall k | 0 <= k < |s.recordings| ensures NoticesHold(s.recordings[k]) {
      assert RecordingHolds(s.recordings[k]);
    }
  }

  // Changes reported during a rebuild.

  /** The generation of the rebuild in flight. */
  function Rebuilding(s: Session): Option<nat> {
    if s.active.Some? then s.active.value.rebuild else None
  }

  predicate Pending(s: Session) {
    s.active.Some? && s.active.value.pending
  }

  /** While rebuild `g` is in flight a change is kept, and `g` is not started again. */
  ghost predicate Carries(s: Session, g: nat) {
    g <= s.generation && (Rebuilding(s) == Some(g) ==> Pending(s))
  }

  lemma CarriesStep(s: Session, a: Action, g: nat)
    requires Inv(s) && Enabled(s, a) && Carries(s, g)
    ensures Carries(Next(s, a), g)
  {
    hide RecordingHolds, TaskFits, Drained, AllHappened, Happened, ThreadStopped;
    match a {
      case Awaits(k, threw, room) => if room && Still(s, k) { OneLiveTask(s, k); }
      case _ =>
    }
  }

  /** The rebuild `g` resumes in `s`, with a change kept: the next rebuild starts at once. */
  ghost predicate StartsTheNext(s: Session, s': Session, g: nat)
    requires s.active.Some? && s.active.value.recording < |s.recordings| && g in s.tasks && s.tasks[g].AwaitingRoom?
  {
    var k := s.active.value.recording;
    && s'.generation == g + 1 && Rebuilding(s') == Some(g + 1) && !Pending(s')
    && s'.active.value.recording == k && k < |s'.recordings|
    && g !in s'.tasks && g + 1 in s'.tasks && s'.tasks[g + 1] == Fresh(k, false)
    && s'.recordings[k].notices == s.recordings[k].notices + [Resumed(s.tasks[g].attempt, s.tasks[g].gap), Changed]
  }

  /** A rebuild with a change kept goes on keeping it, resumes into the next rebuild, or ends with its
      recording. */
  lemma PendingStep(s: Session, a: Action, g: nat)
    requires Inv(s) && Enabled(s, a) && Rebuilding(s) == Some(g) && Pending(s)
    ensures var s' := Next(s, a);
      || (Rebuilding(s') == Some(g) && Pending(s'))
      || (a.Awaits? && a.task == g && a.room && s.active.value.recording < |s.recordings| && StartsTheNext(s, s', g))
      || s'.active == None
    ensures a.Awaits? && a.task == g && a.room ==> s.active.value.recording < |s.recordings| && StartsTheNext(s, Next(s, a), g)
  {
    OneLiveTask(s, g);
    hide RecordingHolds, Drained, AllHappened, Happened, ThreadStopped;
    match a {
      case Begins(k, _, _) => OneLiveTask(s, k);
      case Wakes(k, _, _, _, _) => OneLiveTask(s, k);
      case Silences(k, _) => OneLiveTask(s, k);
      case Awaits(k, _, _) => OneLiveTask(s, k);
      case _ =>
    }
  }

  lemma {:induction false} CarriedInRun(run: seq<Session>, actions: seq<Action>, i: nat, j: nat, g: nat)
    requires Run(run, actions) && i <= j < |run| && Carries(run[i], g)
    ensures Carries(run[j], g)
    decreases j
  {
    if i < j {
      CarriedInRun(run, actions, i, j - 1, g);
      RunHolds(run, actions, j - 1);
      hide Inv, Enabled, Next, Carries;
      CarriesStep(run[j - 1], actions[j - 1], g);
    }
  }

  /** Main result, for every run: a change reported while a rebuild is in flight, at whatever stage, is
      kept as long as that rebuild is, and the turn that resumes it starts the next rebuild; it is
      dropped only with the recording. */
  lemma PendingChangeStartsTheNextRebuild(run: seq<Session>, actions: seq<Action>, i: nat, j: nat, g: nat)
    requires Run(run, actions) && i < j < |actions| && actions[i] == Reports
    requires Rebuilding(run[i]) == Some(g) && Rebuilding(run[j]) == Some(g)
    ensures Pending(run[j])
    ensures actions[j].Awaits? && actions[j].task == g && actions[j].room ==>
      run[j].active.value.recording < |run[j].recordings| && StartsTheNext(run[j], run[j + 1], g)
    ensures Rebuilding(run[j + 1]) == Some(g) || run[j + 1].active == None || (actions[j].Awaits? && actions[j].task == g && actions[j].room)
  {
    RunHolds(run, actions, i);
    RunHolds(run, actions, j);
    ReportIsKept(run[i], g);
    assert run[i + 1] == DeviceChanged(run[i]);
    CarriedInRun(run, actions, i + 1, j, g);
    hide Inv, Enabled, Next, StartsTheNext;
    PendingStep(run[j], actions[j], g);
  }

  lemma ReportIsKept(s: Session, g: nat)
    requires Inv(s) && Rebuilding(s) == Some(g)
    ensures var s' := DeviceChanged(s); s' == s.(active := s'.active) && Rebuilding(s') == Some(g) && Carries(s', g) && Pending(s')
  {
    hide RecordingHolds, TaskFits;
  }

  // Failed starts.

  /** What a failed start leaves, and everything after it until a start succeeds. */
  ghost predicate NoRecording(s: Session) {
    s.phase == Failed(None) && s.active == None && s.backend == None
  }

  lemma NoRecordingStep(s: Session, a: Action)
    requires Inv(s) && Enabled(s, a) && NoRecording(s) && !(a.Starts? && a.outcome.Started?)
    ensures NoRecording(Next(s, a)) && |Next(s, a).recordings| == |s.recordings|
    ensures a.Stops? || a.WriterFails? || a.Reports? ==> Next(s, a) == s
  {
    hide RecordingHolds, TaskFits, Happened;
  }

  lemma FailedStartStep(s: Session, a: Action)
    requires Inv(s) && Enabled(s, a) && a.Starts? && !a.outcome.Started? && s.phase != Live
    ensures NoRecording(Next(s, a)) && Next(s, a).recordings == s.recordings
  {
    hide RecordingHolds, TaskFits;
  }

  /** A start while nothing is recorded goes live exactly when the writer and the backend start, on an empty
      recording of its own with one thread; while something is, it changes nothing. */
  lemma StartGoesLive(s: Session, outcome: StartOutcome, capacity: nat, lanes: nat)
    requires Inv(s)
    ensures var s', k := Start(s, outcome, capacity, lanes), |s.recordings|;
      && (s.phase == Live ==> s' == s)
      && (s.phase != Live ==> (s'.phase == Live <==> outcome.Started?) && s'.tasks == s.tasks && s'.recordings[..k] == s.recordings)
      && (s.phase != Live && outcome.Started? ==>
            && |s'.recordings| == k + 1 && s'.active == Some(Active(k, None, false)) && s'.backend == Some(k)
            && var r := s'.recordings[k];
            && r.capacity == capacity && r.committed == [] && r.taken == [] && r.writing && !r.writeFailed && |r.sidecars| == lanes
            && r.threads == [Thread(true, 0, [], 0)] && r.gaps == [] && r.notices == [])
  {
    hide RecordingHolds;
  }

  /** Main result, for every run: after a failed start, until one succeeds, no stop, writer failure or
      late rebuild task makes the session carry a recording again, an earlier one included. */
  lemma {:induction false} FailedStartCarriesNothing(run: seq<Session>, actions: seq<Action>, i: nat, j: nat)
    requires Run(run, actions) && i < j < |run|
    requires actions[i].Starts? && !actions[i].outcome.Started? && run[i].phase != Live
    requires forall k :: i < k < j ==> !(actions[k].Starts? && actions[k].outcome.Started?)
    ensures NoRecording(run[j]) && |run[j].recordings| == |run[i].recordings|
    ensures j < |actions| && (actions[j].Stops? || actions[j].WriterFails? || actions[j].Reports?) ==> run[j + 1] == run[j]
    decreases j
  {
    hide Inv, Enabled, Next, NoRecording;
    RunHolds(run, actions, j - 1);
    RunHolds(run, actions, j);
    if j == i + 1 {
      FailedStartStep(run[i], actions[i]);
    } else {
      FailedStartCarriesNothing(run, actions, i, j - 1);
      NoRecordingStep(run[j - 1], actions[j - 1]);
    }
    if j < |actions| && !actions[j].Starts? { NoRecordingStep(run[j], actions[j]); }
  }

  // What a reported change comes to.

  /** The actions, one after another, lead from `s` to `s'`. */
  ghost predicate Leads(s: Session, actions: seq<Action>, s': Session)
    decreases |actions|
  {
    if actions == [] then s == s'
    else Enabled(s, actions[0]) && Leads(Next(s, actions[0]), actions[1..], s')
  }

  lemma {:induction false} ThenDoes(s: Session, actions: seq<Action>, t: Session, a: Action)
    requires Leads(s, actions, t) && Enabled(t, a)
    ensures Leads(s, actions + [a], Next(t, a))
    decreases |actions|
  {
    hide Enabled, Next;
    if actions == [] {
      assert [a][1..] == [] && Leads(Next(s, a), [], Next(s, a));
      assert actions + [a] == [a];
    } else {
      assert (actions + [a])[1..] == actions[1..] + [a];
      ThenDoes(Next(s, actions[0]), actions[1..], t, a);
    }
  }

  /** `t` is where the rebuild of the change reported in `s` stands: at `task`, with `added` gaps since, and
      nothing but `written` frames of silence committed. */
  ghost predicate Rebuilds(s: Session, t: Session, task: Task, added: seq<nat>, written: nat) {
    && Inv(t) && s.active.Some? && s.active.value.recording == task.recording < |s.recordings| == |t.recordings|
    && var k, g := task.recording, s.generation + 1; var r, r' := s.recordings[k], t.recordings[k];
    && t.active == Some(Active(k, Some(g), false)) && g in t.tasks && t.tasks[g] == task && t.generation == g
    && r'.notices == r.notices + [Changed] && r'.gaps == r.gaps + added && |r'.threads| == |r.threads| && r'.writing
    && r'.deviceChanges == r.deviceChanges && r'.gapFrames == r.gapFrames
    && r'.capacity == r.capacity && r'.committed == r.committed + Repeat(Silence, written)
  }

  /** A recording goes on, and its relay holds a frame. */
  ghost predicate Holding(s: Session) {
    && s.active.Some? && s.active.value.recording < |s.recordings|
    && s.recordings[s.active.value.recording].capacity > 0
  }

  lemma ReportedRebuilds(s: Session)
    requires Inv(s) && s.active.Some? && s.active.value.rebuild.None?
    ensures Rebuilds(s, DeviceChanged(s), Fresh(s.active.value.recording, false), [], 0)
  {
    DeviceChangedHolds(s);
    hide RecordingHolds, TaskFits;
    var r := s.recordings[s.active.value.recording];
    assert r.committed + Repeat(Silence, 0) == r.committed && r.gaps + [] == r.gaps;
  }

  /** An attempt of the rebuild: its first turn, or one awake after the backoff. */
  function AttemptOf(task: Task, g: nat, started: Option<nat>): Action {
    if task.Fresh? then Begins(g, [], started) else Wakes(g, false, started, [], [])
  }

  function Number(task: Task): nat {
    if task.Restarting? then task.attempt + 1 else 1
  }

  /** An attempt that starts opens the gap. */
  lemma AttemptStarts(s: Session, t: Session, task: Task, gap: nat)
    requires Rebuilds(s, t, task, [], 0) && (task.Fresh? || task.Restarting?) && !task.cancelled
    ensures var a := AttemptOf(task, s.generation + 1, Some(gap));
      Enabled(t, a) && Rebuilds(s, Next(t, a), Silencing(task.recording, false, Number(task), gap, gap), [0], 0)
  {
    var (g, k) := (s.generation + 1, task.recording);
    var a := AttemptOf(task, g, Some(gap));
    NextHolds(t, a);
    OneLiveTask(t, g);
    if task.Fresh? { assert AllHappened(t.recordings[k], []) == t.recordings[k]; }
    assert s.recordings[k].gaps + [] + [0] == s.recordings[k].gaps + [0];
    hide RecordingHolds, TaskFits, ActiveHolds;
  }

  /** Before the last one an attempt that fails goes to sleep. */
  lemma AttemptFails(s: Session, t: Session, task: Task)
    requires Rebuilds(s, t, task, [], 0) && (task.Fresh? || task.Restarting?) && !task.cancelled
    requires Number(task) < RESTART_ATTEMPTS
    ensures var a := AttemptOf(task, s.generation + 1, None);
      Enabled(t, a) && Rebuilds(s, Next(t, a), Restarting(task.recording, false, Number(task)), [], 0)
  {
    var (g, k) := (s.generation + 1, task.recording);
    var a := AttemptOf(task, g, None);
    NextHolds(t, a);
    OneLiveTask(t, g);
    if task.Fresh? { assert AllHappened(t.recordings[k], []) == t.recordings[k]; }
    hide RecordingHolds, TaskFits, ActiveHolds;
  }

  /** The first actions of a rebuild whose first `failures` attempts fail. */
  function Failures(g: nat, failures: nat): seq<Action> {
    if failures == 0 then [Reports]
    else Failures(g, failures - 1) + [if failures == 1 then Begins(g, [], None) else Wakes(g, false, None, [], [])]
  }

  function TaskAfter(k: nat, failures: nat): Task {
    if failures == 0 then Fresh(k, false) else Restarting(k, false, failures)
  }

  lemma JustReports(s: Session)
    requires Inv(s) && s.active.Some? && s.active.value.rebuild.None?
    ensures Leads(s, [Reports], DeviceChanged(s))
  {
    assert [Reports][1..] == [] && Leads(DeviceChanged(s), [], DeviceChanged(s));
  }

  lemma {:induction false} AfterFailures(s: Session, failures: nat) returns (t: Session)
    requires Inv(s) && s.active.Some? && s.active.value.rebuild.None? && failures < RESTART_ATTEMPTS
    ensures Leads(s, Failures(s.generation + 1, failures), t)
    ensures Rebuilds(s, t, TaskAfter(s.active.value.recording, failures), [], 0)
    decreases failures
  {
    hide Inv, Enabled, Next, Rebuilds, Leads, DeviceChanged;
    if failures == 0 {
      ReportedRebuilds(s);
      JustReports(s);
      t := DeviceChanged(s);
    } else {
      var (g, task) := (s.generation + 1, TaskAfter(s.active.value.recording, failures - 1));
      var before := AfterFailures(s, failures - 1);
      AttemptFails(s, before, task);
      ThenDoes(s, Failures(g, failures - 1), before, AttemptOf(task, g, None));
      t := Next(before, AttemptOf(task, g, None));
    }
  }

  /** The writer's turn makes room for a frame. */
  lemma TakeMakesRoom(s: Session, t: Session, task: Task, added: seq<nat>, written: nat)
    requires Rebuilds(s, t, task, added, written) && Holding(s)
    ensures var a := Happens(task.recording, Take(Wrote));
      && Enabled(t, a) && Rebuilds(s, Next(t, a), task, added, written)
      && |Next(t, a).recordings[task.recording].relay| < Next(t, a).recordings[task.recording].capacity
  {
    NextHolds(t, Happens(task.recording, Take(Wrote)));
    assert RecordingHolds(t.recordings[task.recording]);
    hide Inv, ThreadsHold, Spelled, Refused, FilesHold, NoticesHold;
  }

  /** Where there is room, a turn of the gap writes a frame of silence. */
  lemma SilenceGoesIn(s: Session, t: Session, task: Task, written: nat)
    requires task.Silencing? && 0 < task.left && !task.cancelled && Rebuilds(s, t, task, [written], written)
    requires |t.recordings[task.recording].relay| < t.recordings[task.recording].capacity
    ensures var a := Silences(s.generation + 1, false);
      Enabled(t, a) && Rebuilds(s, Next(t, a), task.(left := task.left - 1), [written + 1], written + 1)
  {
    var a := Silences(s.generation + 1, false);
    OneLiveTask(t, s.generation + 1);
    NextHolds(t, a);
    hide Inv, Repeat;
    var done, gaps := s.recordings[task.recording].committed, s.recordings[task.recording].gaps;
    OneMoreSilence(done, written);
    assert (gaps + [written])[|gaps| := written + 1] == gaps + [written + 1];
  }

  lemma OneMoreSilence(done: seq<Frame>, n: nat)
    ensures done + Repeat(Silence, n) + [Silence] == done + Repeat(Silence, n + 1)
  {
    assert Repeat(Silence, n) + [Silence] == Repeat(Silence, n + 1);
  }

  /** The gap's turns, the writer before each. */
  function GapWritten(k: nat, g: nat, frames: nat): seq<Action> {
    if frames == 0 then [] else GapWritten(k, g, frames - 1) + [Happens(k, Take(Wrote))] + [Silences(g, false)]
  }

  lemma FrameOfSilence(s: Session, actions: seq<Action>, t: Session, task: Task, written: nat) returns (u: Session)
    requires task.Silencing? && 0 < task.left && !task.cancelled && Rebuilds(s, t, task, [written], written) && Holding(s)
    requires Leads(s, actions, t)
    ensures Rebuilds(s, u, task.(left := task.left - 1), [written + 1], written + 1)
    ensures Leads(s, actions + [Happens(task.recording, Take(Wrote))] + [Silences(s.generation + 1, false)], u)
  {
    hide Inv, Enabled, Next, Leads;
    var (a, b) := (Happens(task.recording, Take(Wrote)), Silences(s.generation + 1, false));
    TakeMakesRoom(s, t, task, [written], written);
    SilenceGoesIn(s, Next(t, a), task, written);
    hide Rebuilds;
    ThenDoes(s, actions, t, a);
    ThenDoes(s, actions + [a], Next(t, a), b);
    u := Next(Next(t, a), b);
  }

  lemma {:induction false} GapCloses(s: Session, actions: seq<Action>, t: Session, task: Task, frames: nat) returns (u: Session)
    requires task.Silencing? && frames <= task.left && !task.cancelled && Rebuilds(s, t, task, [0], 0) && Holding(s)
    requires Leads(s, actions, t)
    ensures Leads(s, actions + GapWritten(task.recording, s.generation + 1, frames), u)
    ensures Rebuilds(s, u, task.(left := task.left - frames), [frames], frames)
    decreases frames
  {
    hide Inv, Enabled, Next, Rebuilds, Leads;
    var (k, g) := (task.recording, s.generation + 1);
    if frames == 0 {
      u := t;
      assert actions + GapWritten(k, g, 0) == actions;
    } else {
      var before := GapCloses(s, actions, t, task, frames - 1);
      u := FrameOfSilence(s, actions + GapWritten(k, g, frames - 1), before, task.(left := task.left - (frames - 1)), frames - 1);
      assert actions + GapWritten(k, g, frames - 1) + [Happens(k, Take(Wrote))] + [Silences(g, false)]
          == actions + GapWritten(k, g, frames);
    }
  }

  /** The recording resumed after one more gap. */
  ghost predicate ResumedAfter(r: Recording, r': Recording, attempt: nat, gap: nat) {
    && r'.notices == r.notices + [Changed, Resumed(attempt, gap)] && r'.gaps == r.gaps + [gap]
    && |r'.threads| == |r.threads| + 1 && r'.threads[|r.threads|] == Thread(true, 0, [], 0) && r'.writing
    && r'.deviceChanges == r.deviceChanges + 1 && r'.gapFrames == r.gapFrames + gap
    && r'.committed == r.committed + Repeat(Silence, gap)
  }

  lemma GapEnds(s: Session, t: Session, task: Task)
    requires task.Silencing? && task.left == 0 && !task.cancelled && Rebuilds(s, t, task, [task.gap], task.gap)
    ensures var g := s.generation + 1;
      && Enabled(t, Silences(g, false))
      && var u := Next(t, Silences(g, false));
      && Enabled(u, Awaits(g, false, true))
      && ResumedSession(s, Next(u, Awaits(g, false, true)), task.attempt, task.gap)
  {
    var g := s.generation + 1;
    NextHolds(t, Silences(g, false));
    var u := Next(t, Silences(g, false));
    OneLiveTask(u, g);
    var notices := s.recordings[task.recording].notices;
    assert notices + [Changed] + [Resumed(task.attempt, task.gap)] == notices + [Changed, Resumed(task.attempt, task.gap)];
    hide RecordingHolds, TaskFits, ActiveHolds;
  }

  /** The session goes on with its recording, resumed. */
  ghost predicate ResumedSession(s: Session, s': Session, attempt: nat, gap: nat) {
    && s.active.Some? && s'.phase == Live && s'.active == Some(Active(s.active.value.recording, None, false))
    && s.active.value.recording < |s.recordings| && s.active.value.recording < |s'.recordings|
    && ResumedAfter(s.recordings[s.active.value.recording], s'.recordings[s.active.value.recording], attempt, gap)
  }

  /** The attempt after the failures. */
  function LastAttempt(g: nat, failures: nat, gap: nat): Action {
    if failures == 0 then Begins(g, [], Some(gap)) else Wakes(g, false, Some(gap), [], [])
  }

  lemma {:induction false} AfterTheStart(s: Session, failures: nat, gap: nat) returns (t: Session)
    requires Inv(s) && s.active.Some? && s.active.value.rebuild.None? && failures < RESTART_ATTEMPTS
    ensures Leads(s, Failures(s.generation + 1, failures) + [LastAttempt(s.generation + 1, failures, gap)], t)
    ensures Rebuilds(s, t, Silencing(s.active.value.recording, false, failures + 1, gap, gap), [0], 0)
  {
    hide Inv, Enabled, Next, Rebuilds, Leads, Failures;
    var (g, task) := (s.generation + 1, TaskAfter(s.active.value.recording, failures));
    var before := AfterFailures(s, failures);
    AttemptStarts(s, before, task, gap);
    ThenDoes(s, Failures(g, failures), before, AttemptOf(task, g, Some(gap)));
    t := Next(before, AttemptOf(task, g, Some(gap)));
  }

  lemma {:induction false} AfterTheGap(s: Session, actions: seq<Action>, t: Session, task: Task) returns (s': Session)
    requires task.Silencing? && task.left == 0 && !task.cancelled && Rebuilds(s, t, task, [task.gap], task.gap)
    requires Leads(s, actions, t)
    ensures Leads(s, actions + [Silences(s.generation + 1, false)] + [Awaits(s.generation + 1, false, true)], s')
    ensures ResumedSession(s, s', task.attempt, task.gap)
  {
    var g := s.generation + 1;
    GapEnds(s, t, task);
    hide Inv, Enabled, Next, Rebuilds, Leads, ResumedSession;
    var u := Next(t, Silences(g, false));
    ThenDoes(s, actions, t, Silences(g, false));
    ThenDoes(s, actions + [Silences(g, false)], u, Awaits(g, false, true));
    s' := Next(u, Awaits(g, false, true));
  }

  /** Main result: from every state of a recording whose relay holds any frame, a reported change is
      recovered from by any attempt but none later than the fourth: the recording goes on with a new
      thread behind exactly the gap's frames of silence, and is told so. */
  lemma {:induction false} ReportedChangeIsRecovered(s: Session, failures: nat, gap: nat) returns (s': Session)
    requires Inv(s) && Holding(s) && s.active.value.rebuild.None? && failures < RESTART_ATTEMPTS
    ensures ResumedSession(s, s', failures + 1, gap)
    ensures var k, g := s.active.value.recording, s.generation + 1;
      Leads(s, Failures(g, failures) + [LastAttempt(g, failures, gap)] + GapWritten(k, g, gap)
               + [Silences(g, false)] + [Awaits(g, false, true)], s')
  {
    assert s.active.Some?;
    var (k, g) := (s.active.value.recording, s.generation + 1);
    hide Inv, Holding, Rebuilds, Leads, Failures, GapWritten, ResumedSession;
    var t := AfterTheStart(s, failures, gap);
    var actions := Failures(g, failures) + [LastAttempt(g, failures, gap)];
    var u := GapCloses(s, actions, t, Silencing(k, false, failures + 1, gap, gap), gap);
    s' := AfterTheGap(s, actions + GapWritten(k, g, gap), u, Silencing(k, false, failures + 1, gap, 0));
  }

  /** Main result: the fourth failed attempt loses the device, and the recording is closed. */
  lemma {:induction false} FourFailuresLoseTheDevice(s: Session) returns (s': Session)
    requires Inv(s) && s.active.Some? && s.active.value.rebuild.None?
    ensures Leads(s, Failures(s.generation + 1, RESTART_ATTEMPTS), s')
    ensures var k := s.active.value.recording;
      && s'.phase == Failed(Some(k)) && s'.active == None && s'.backend == None
      && k < |s'.recordings| && Closed(s'.recordings[k]) && !s'.recordings[k].writing
  {
    var g := s.generation + 1;
    var t := AfterFailures(s, RESTART_ATTEMPTS - 1);
    LastAttemptFails(s, t, TaskAfter(s.active.value.recording, RESTART_ATTEMPTS - 1));
    hide Inv, Enabled, Next, Rebuilds, Closed, Leads;
    ThenDoes(s, Failures(g, RESTART_ATTEMPTS - 1), t, Wakes(g, false, None, [], []));
    s' := Next(t, Wakes(g, false, None, [], []));
  }

  lemma LastAttemptFails(s: Session, t: Session, task: Task)
    requires task.Restarting? && task.attempt == RESTART_ATTEMPTS - 1 && !task.cancelled && Rebuilds(s, t, task, [], 0)
    ensures var k, a := task.recording, Wakes(s.generation + 1, false, None, [], []);
      && Enabled(t, a)
      && var u := Next(t, a);
      && u.phase == Failed(Some(k)) && u.active == None && u.backend == None && k < |u.recordings|
      && Closed(u.recordings[k]) && !u.recordings[k].writing
  {
    var a := Wakes(s.generation + 1, false, None, [], []);
    OneLiveTask(t, s.generation + 1);
    NextHolds(t, a);
    hide Drained, ThreadStopped, TaskFits, ActiveHolds;
    assert RecordingHolds(Next(t, a).recordings[task.recording]);
  }
}
