/** The progress bar: what a run expects, what each event says and what the clamp makes of it
    (`ProcessingEstimator.swift`, `ProcessingRun.swift`). */
module Progress {
  import opened Options

  datatype Stage = Decode | Transcribe | Diarize | MatchSpeakers | Merge | Cleanup | Summarize | Persist | Deliver | Retention

  /** `rates` gives each stage's seconds per unit under the key of this run. */
  datatype Estimator = Estimator(duration: real, lanes: nat, tokens: nat, rates: Stage -> real) {

    ghost predicate Valid() {
      duration >= 0.0 && forall s :: rates(s) >= 0.0
    }

    /** Units of the stage's cost driver. */
    function Units(stage: Stage): real {
      match stage
      case Decode | Transcribe | Persist => duration * (lanes as real)
      case Diarize => duration
      case Cleanup | Summarize => (tokens as real) / 1000.0
      case MatchSpeakers | Merge | Deliver | Retention => 1.0
    }

    function ExpectedSeconds(stage: Stage): real {
      rates(stage) * Units(stage)
    }

    /** Until the next event: one lane inside `Transcribe`, else the whole stage. */
    function ExpectedStep(stage: Stage): real {
      if stage.Transcribe? && lanes > 0 then rates(stage) * duration else ExpectedSeconds(stage)
    }

    function Total(stages: seq<Stage>): real {
      if stages == [] then 0.0 else ExpectedSeconds(stages[0]) + Total(stages[1..])
    }

    /** The stages from the first occurrence of `stage` on. */
    function From(stage: Stage, stages: seq<Stage>): seq<Stage> {
      if stages == [] || stages[0] == stage then stages else From(stage, stages[1..])
    }

    function ExpectedRemaining(stage: Stage, lane: nat, stages: seq<Stage>): real {
      var later := Total(From(stage, stages)) - LaneTime(lane, ExpectedStep(stage));
      if later < 0.0 then 0.0 else later
    }

    /** The event before the clamp. */
    function Honest(stage: Stage, lane: nat, elapsed: real, stages: seq<Stage>): Event {
      var total := elapsed + ExpectedRemaining(stage, lane, stages);
      var fraction := if total > 0.0 then elapsed / total else 0.0;
      var next := if total > 0.0 then Min(1.0, (elapsed + ExpectedStep(stage)) / total) else 1.0;
      Event(fraction, if next > fraction then next else fraction)
    }

    lemma NotNegative(stage: Stage)
      requires Valid()
      ensures Units(stage) >= 0.0 && ExpectedSeconds(stage) >= 0.0 && ExpectedStep(stage) >= 0.0
    {
      assert rates(stage) >= 0.0;
      Product(duration, lanes as real);
      Product(rates(stage), Units(stage));
      Product(rates(stage), duration);
    }

    lemma {:induction false} TotalNotNegative(stages: seq<Stage>)
      requires Valid()
      ensures Total(stages) >= 0.0
    {
      if stages != [] {
        NotNegative(stages[0]);
        TotalNotNegative(stages[1..]);
      }
    }

    lemma {:induction false} TotalSplit(front: seq<Stage>, back: seq<Stage>)
      ensures Total(front + back) == Total(front) + Total(back)
    {
      hide ExpectedSeconds;
      if front == [] {
        assert front + back == back;
      } else {
        TotalSplit(front[1..], back);
        assert (front + back)[1..] == front[1..] + back;
      }
    }

    lemma {:induction false} FromSplit(front: seq<Stage>, stage: Stage, back: seq<Stage>)
      requires stage !in front
      ensures From(stage, front + ([stage] + back)) == [stage] + back
    {
      if front == [] {
        assert front + ([stage] + back) == [stage] + back;
      } else {
        FromSplit(front[1..], stage, back);
        assert (front + ([stage] + back))[1..] == front[1..] + ([stage] + back);
      }
    }

    /** An event before the clamp is in range and does not announce the past. */
    lemma HonestInRange(stage: Stage, lane: nat, elapsed: real, stages: seq<Stage>)
      requires Valid() && elapsed >= 0.0
      ensures Honest(stage, lane, elapsed, stages).InRange()
    {
      NotNegative(stage);
      var remaining := ExpectedRemaining(stage, lane, stages);
      hide ExpectedRemaining, ExpectedStep;
      var total := elapsed + remaining;
      if total > 0.0 { ShareInRange(elapsed, total); }
    }
  }

  /** The time of `lanes` steps. */
  function LaneTime(lanes: nat, step: real): real {
    (lanes as real) * step
  }

  lemma Product(a: real, b: real)
    requires a >= 0.0 && b >= 0.0
    ensures a * b >= 0.0
  {}

  function Min(a: real, b: real): real {
    if b < a then b else a
  }

  /** The fraction of the bar and where the next event is expected. */
  datatype Event = Event(fraction: real, next: real) {
    ghost predicate InRange() {
      0.0 <= fraction <= next <= 1.0
    }
  }

  lemma ShareInRange(a: real, b: real)
    requires 0.0 <= a <= b && b > 0.0
    ensures 0.0 <= a / b <= 1.0
  {
    assert (a / b) * b == a;
  }

  /** The clamp: never below what the last event announced, the rest of the bar shared as the honest
      event shares it. */
  function Clamped(last: Option<Event>, honest: Event): Event {
    var floor := if last.Some? then last.value.next else 0.0;
    if honest.fraction >= floor then honest
    else
      var share := if honest.fraction < 1.0 then (honest.next - honest.fraction) / (1.0 - honest.fraction) else 0.0;
      Event(floor, Min(1.0, floor + share * (1.0 - floor)))
  }

  lemma ClampedInRange(last: Option<Event>, honest: Event)
    requires honest.InRange() && (last.Some? ==> last.value.InRange())
    ensures Clamped(last, honest).InRange()
    ensures last.Some? ==> last.value.next <= Clamped(last, honest).fraction
  {
    var floor := if last.Some? then last.value.next else 0.0;
    if honest.fraction < floor {
      var share := (honest.next - honest.fraction) / (1.0 - honest.fraction);
      ShareInRange(honest.next - honest.fraction, 1.0 - honest.fraction);
      assert share * (1.0 - floor) >= 0.0;
    }
  }

  /** A clamped event keeps its share of what is left of the bar. */
  lemma ClampKeepsTheShare(last: Option<Event>, honest: Event)
    requires honest.InRange() && (last.Some? ==> last.value.InRange())
    ensures var event := Clamped(last, honest);
      (event.next - event.fraction) * (1.0 - honest.fraction) == (honest.next - honest.fraction) * (1.0 - event.fraction)
  {
    var floor := if last.Some? then last.value.next else 0.0;
    if honest.fraction < floor {
      var rest := 1.0 - honest.fraction;
      var share := (honest.next - honest.fraction) / rest;
      ShareInRange(honest.next - honest.fraction, rest);
      assert share * (1.0 - floor) <= 1.0 - floor;
      assert share * rest == honest.next - honest.fraction;
      ShareCommutes(share, 1.0 - floor, rest);
    }
  }

  lemma ShareCommutes(share: real, a: real, b: real)
    ensures (share * a) * b == (share * b) * a
  {}

  // Whole runs.

  /** One posted event: the estimator as it is then, and where the run is. */
  datatype Tick = Tick(estimator: Estimator, stage: Stage, lane: nat, elapsed: real)

  function HonestAt(tick: Tick, stages: seq<Stage>): Event {
    tick.estimator.Honest(tick.stage, tick.lane, tick.elapsed, stages)
  }

  function EventsOf(last: Option<Event>, ticks: seq<Tick>, stages: seq<Stage>): (events: seq<Event>)
    ensures |events| == |ticks|
    decreases |ticks|
  {
    if ticks == [] then []
    else
      var event := Clamped(last, HonestAt(ticks[0], stages));
      [event] + EventsOf(Some(event), ticks[1..], stages)
  }

  ghost predicate Rising(events: seq<Event>) {
    && (forall k :: 0 <= k < |events| ==> events[k].InRange())
    && forall k :: 0 < k < |events| ==> events[k - 1].next <= events[k].fraction
  }

  /** Main result: whatever is re-estimated and however late the events are, the bar never moves back
      and never leaves its range. */
  lemma {:induction false} TheBarNeverMovesBack(last: Option<Event>, ticks: seq<Tick>, stages: seq<Stage>)
    requires last.Some? ==> last.value.InRange()
    requires forall t :: t in ticks ==> t.estimator.Valid() && t.elapsed >= 0.0
    ensures Rising(EventsOf(last, ticks, stages))
    ensures last.Some? && ticks != [] ==> last.value.next <= EventsOf(last, ticks, stages)[0].fraction
    decreases |ticks|
  {
    if ticks != [] {
      hide Clamped, Event.InRange, HonestAt;
      var t := ticks[0];
      assert t in ticks;
      var honest := HonestAt(t, stages);
      TickInRange(t, stages);
      ClampedInRange(last, honest);
      TheBarNeverMovesBack(Some(Clamped(last, honest)), ticks[1..], stages);
    }
  }

  lemma TickInRange(tick: Tick, stages: seq<Stage>)
    requires tick.estimator.Valid() && tick.elapsed >= 0.0
    ensures HonestAt(tick, stages).InRange()
  {
    tick.estimator.HonestInRange(tick.stage, tick.lane, tick.elapsed, stages);
  }

  // A run that takes exactly as long as expected.

  /** A place in a run: a stage by index, and a lane of it. */
  datatype Place = Place(index: nat, lane: nat)

  ghost predicate IsPlace(e: Estimator, stages: seq<Stage>, p: Place) {
    p.index < |stages| && (if stages[p.index].Transcribe? then p.lane < e.lanes else p.lane == 0)
  }

  function Next(e: Estimator, stages: seq<Stage>, p: Place): Place
    requires p.index < |stages|
  {
    if stages[p.index].Transcribe? && p.lane + 1 < e.lanes then Place(p.index, p.lane + 1) else Place(p.index + 1, 0)
  }

  /** When the run is at a place. */
  function Elapsed(e: Estimator, stages: seq<Stage>, p: Place): real
    requires p.index < |stages|
  {
    e.Total(stages[..p.index]) + LaneTime(p.lane, e.ExpectedStep(stages[p.index]))
  }

  ghost predicate Distinct(stages: seq<Stage>) {
    forall i, j :: 0 <= i < j < |stages| ==> stages[i] != stages[j]
  }

  /** The places of a run with when each is reached: one expected step after the one before. */
  ghost predicate OnTime(e: Estimator, stages: seq<Stage>, places: seq<Place>, times: seq<real>) {
    && |places| == |times|
    && (places != [] ==> places[0] == Place(0, 0) && times[0] == 0.0)
    && (forall k :: 0 <= k < |places| ==> IsPlace(e, stages, places[k]))
    && forall k :: 0 < k < |places| ==>
      && places[k] == Next(e, stages, places[k - 1])
      && times[k] == times[k - 1] + e.ExpectedStep(stages[places[k - 1].index])
  }

  /** One step on from a place is the next one. */
  lemma StepReachesNext(e: Estimator, stages: seq<Stage>, p: Place)
    requires IsPlace(e, stages, p)
    ensures var after := Elapsed(e, stages, p) + e.ExpectedStep(stages[p.index]);
      var next := Next(e, stages, p);
      if next.index < |stages| then after == Elapsed(e, stages, next) else after == e.Total(stages)
  {
    hide Estimator.ExpectedStep, Estimator.Total, LaneTime;
    var stage, next := stages[p.index], Next(e, stages, p);
    if next.index == p.index {
      OneMore(p.lane, e.ExpectedStep(stage));
    } else {
      assert stages[..p.index + 1] == stages[..p.index] + [stage];
      e.TotalSplit(stages[..p.index], [stage]);
      LanesMakeTheStage(e, stage, p.lane);
      ZeroLane(e, stages, p.index + 1);
      if next.index == |stages| { assert stages[..p.index + 1] == stages; }
    }
  }

  lemma ZeroLane(e: Estimator, stages: seq<Stage>, i: nat)
    requires i <= |stages|
    ensures i < |stages| ==> Elapsed(e, stages, Place(i, 0)) == e.Total(stages[..i])
  {
    hide Estimator.ExpectedStep, Estimator.Total;
    if i < |stages| { assert LaneTime(0, e.ExpectedStep(stages[i])) == 0.0; }
  }

  lemma OneMore(lane: nat, step: real)
    ensures LaneTime(lane + 1, step) == LaneTime(lane, step) + step
  {}

  lemma LanesMakeTheStage(e: Estimator, stage: Stage, lane: nat)
    requires if stage.Transcribe? then lane + 1 == e.lanes else lane == 0
    ensures LaneTime(lane, e.ExpectedStep(stage)) + e.ExpectedStep(stage) == e.Total([stage])
  {
    assert e.Total([stage]) == e.ExpectedSeconds(stage);
    if stage.Transcribe? {
      var step, n := e.rates(stage) * e.duration, e.lanes as real;
      assert (lane as real) == n - 1.0;
      assert (n - 1.0) * step + step == n * step;
      ShareCommutes(e.rates(stage), e.duration, n);
      assert e.ExpectedSeconds(stage) == e.rates(stage) * (e.duration * n);
    } else {
      assert (lane as real) == 0.0;
    }
  }

  /** At a place, what has passed and what is expected make up the whole. */
  lemma ElapsedAndRemaining(e: Estimator, stages: seq<Stage>, p: Place)
    requires e.Valid() && Distinct(stages) && IsPlace(e, stages, p)
    ensures 0.0 <= Elapsed(e, stages, p)
    ensures Elapsed(e, stages, p) + e.ExpectedRemaining(stages[p.index], p.lane, stages) == e.Total(stages)
    ensures Elapsed(e, stages, p) + e.ExpectedStep(stages[p.index]) <= e.Total(stages)
  {
    hide Estimator.ExpectedStep, Estimator.Total, Estimator.From, Estimator.Valid, LaneTime;
    var stage, front, back := stages[p.index], stages[..p.index], stages[p.index + 1..];
    assert stages == front + ([stage] + back);
    assert stage !in front;
    e.FromSplit(front, stage, back);
    e.TotalSplit(front, [stage] + back);
    e.TotalSplit([stage], back);
    e.TotalNotNegative(front);
    e.TotalNotNegative(back);
    e.NotNegative(stage);
    LanesFit(e, stage, p.lane);
  }

  lemma LanesFit(e: Estimator, stage: Stage, lane: nat)
    requires e.Valid() && if stage.Transcribe? then lane < e.lanes else lane == 0
    ensures 0.0 <= LaneTime(lane, e.ExpectedStep(stage))
    ensures LaneTime(lane, e.ExpectedStep(stage)) + e.ExpectedStep(stage) <= e.Total([stage])
  {
    e.NotNegative(stage);
    if stage.Transcribe? {
      LanesMakeTheStage(e, stage, e.lanes - 1);
      LaneMonotone(lane as real, (e.lanes - 1) as real, e.ExpectedStep(stage));
    } else {
      LanesMakeTheStage(e, stage, 0);
    }
  }

  lemma LaneMonotone(a: real, b: real, step: real)
    requires 0.0 <= a <= b && step >= 0.0
    ensures 0.0 <= a * step <= b * step
  {
    assert (b - a) * step >= 0.0;
    assert b * step == a * step + (b - a) * step;
  }

  /** Times are places: `OnTime` reaches each place when it is due. */
  lemma {:induction false} TimesAreElapsed(e: Estimator, stages: seq<Stage>, places: seq<Place>, times: seq<real>, k: nat)
    requires OnTime(e, stages, places, times) && k < |places|
    ensures times[k] == Elapsed(e, stages, places[k])
  {
    hide Elapsed;
    assert IsPlace(e, stages, places[k]);
    if k == 0 {
      StartIsZero(e, stages);
    } else {
      TimesAreElapsed(e, stages, places, times, k - 1);
      assert IsPlace(e, stages, places[k - 1]);
      StepReachesNext(e, stages, places[k - 1]);
    }
  }

  lemma StartIsZero(e: Estimator, stages: seq<Stage>)
    requires stages != []
    ensures Elapsed(e, stages, Place(0, 0)) == 0.0
  {
    assert stages[..0] == [];
  }

  function TicksOf(e: Estimator, stages: seq<Stage>, places: seq<Place>, times: seq<real>): seq<Tick>
    requires |places| == |times| && forall k :: 0 <= k < |places| ==> places[k].index < |stages|
  {
    seq(|places|, k requires 0 <= k < |places| => Tick(e, stages[places[k].index], places[k].lane, times[k]))
  }

  /** On time, an honest event is at its share of the whole and announces where the next one falls. */
  lemma HonestOnTime(e: Estimator, stages: seq<Stage>, p: Place)
    requires e.Valid() && Distinct(stages) && IsPlace(e, stages, p) && e.Total(stages) > 0.0
    ensures var honest := e.Honest(stages[p.index], p.lane, Elapsed(e, stages, p), stages);
      && honest.fraction == Elapsed(e, stages, p) / e.Total(stages)
      && honest.next == (Elapsed(e, stages, p) + e.ExpectedStep(stages[p.index])) / e.Total(stages)
  {
    ElapsedAndRemaining(e, stages, p);
    e.NotNegative(stages[p.index]);
    hide Elapsed, Estimator.ExpectedStep, Estimator.ExpectedRemaining, Estimator.Total;
    var now, step, total := Elapsed(e, stages, p), e.ExpectedStep(stages[p.index]), e.Total(stages);
    ShareInRange(now + step, total);
    ShareMonotone(now, now + step, total);
  }

  lemma ShareMonotone(a: real, b: real, total: real)
    requires a <= b && total > 0.0
    ensures a / total <= b / total
  {
    assert (a / total) * total == a && (b / total) * total == b;
  }

  /** Main result: when every step takes exactly its expected time and any time is expected at all, no
      event is clamped and each lands exactly where the one before announced it. */
  lemma OnTimeNothingIsClamped(e: Estimator, stages: seq<Stage>, places: seq<Place>, times: seq<real>, k: nat)
    requires e.Valid() && Distinct(stages) && OnTime(e, stages, places, times) && k < |places|
    requires e.Total(stages) > 0.0
    ensures var ticks := TicksOf(e, stages, places, times);
      var events := EventsOf(None, ticks, stages);
      && events[k] == HonestAt(ticks[k], stages)
      && (k > 0 ==> events[k].fraction == events[k - 1].next)
    decreases k
  {
    hide EventsOf, Elapsed, Estimator.Honest, Estimator.Total, Next;
    var ticks := TicksOf(e, stages, places, times);
    EventAt(None, ticks, stages, k);
    assert IsPlace(e, stages, places[k]);
    TimesAreElapsed(e, stages, places, times, k);
    HonestOnTime(e, stages, places[k]);
    if k > 0 {
      OnTimeNothingIsClamped(e, stages, places, times, k - 1);
      assert IsPlace(e, stages, places[k - 1]);
      TimesAreElapsed(e, stages, places, times, k - 1);
      HonestOnTime(e, stages, places[k - 1]);
    } else {
      StartIsZero(e, stages);
    }
  }

  /** Each event is clamped against the one before. */
  lemma {:induction false} EventAt(last: Option<Event>, ticks: seq<Tick>, stages: seq<Stage>, k: nat)
    requires k < |ticks|
    ensures var events := EventsOf(last, ticks, stages);
      events[k] == Clamped(if k == 0 then last else Some(events[k - 1]), HonestAt(ticks[k], stages))
    decreases k
  {
    hide Clamped, HonestAt;
    if k > 0 {
      var event := Clamped(last, HonestAt(ticks[0], stages));
      EventAt(Some(event), ticks[1..], stages, k - 1);
    }
  }

  /** When no time is expected at all, the first event already announces the end and the second is
      clamped to it. */
  lemma NothingExpectedClampsTheSecond(e: Estimator, stages: seq<Stage>, places: seq<Place>, times: seq<real>)
    requires e.Valid() && Distinct(stages) && OnTime(e, stages, places, times) && |places| >= 2
    requires e.Total(stages) == 0.0
    ensures var ticks := TicksOf(e, stages, places, times);
      var events := EventsOf(None, ticks, stages);
      events[1] != HonestAt(ticks[1], stages) && events[1] == Event(1.0, 1.0)
  {
    hide EventsOf, Estimator.Total, Next, Elapsed, Estimator.ExpectedRemaining, Estimator.ExpectedStep;
    var ticks := TicksOf(e, stages, places, times);
    EventAt(None, ticks, stages, 0);
    EventAt(None, ticks, stages, 1);
    assert IsPlace(e, stages, places[0]) && IsPlace(e, stages, places[1]);
    TimesAreElapsed(e, stages, places, times, 0);
    TimesAreElapsed(e, stages, places, times, 1);
    ElapsedAndRemaining(e, stages, places[0]);
    ElapsedAndRemaining(e, stages, places[1]);
    e.NotNegative(stages[places[1].index]);
    assert HonestAt(ticks[0], stages) == Event(0.0, 1.0);
    assert HonestAt(ticks[1], stages) == Event(0.0, 1.0);
  }

  // One run on the pipeline.

  /** A rate learned from one run: seconds per unit of a stage. */
  datatype Rate = Rate(stage: Stage, secondsPerUnit: real)

  /** The timings of a run: seconds a stage over its lanes, and the stages another meeting overlapped. */
  datatype Timings = Timings(measured: map<Stage, real>, shared: set<Stage>)

  /** `measure` on values. */
  function Measured(t: Timings, stage: Stage, seconds: real, alone: bool): Timings {
    Timings(
      t.measured[stage := (if stage in t.measured then t.measured[stage] else 0.0) + seconds],
      if alone then t.shared else t.shared + {stage})
  }

  /** The sample a stage yields once its last lane is measured: none where it was shared, is never
      learned or had nothing to do. */
  function SampleOf(e: Estimator, t: Timings, stage: Stage, lane: nat): Option<Rate>
    requires stage in t.measured
  {
    if (stage.Transcribe? && lane + 1 != e.lanes) || stage.Decode? || stage in t.shared then None
    else if e.Units(stage) <= 0.0 then None
    else Some(Rate(stage, t.measured[stage] / e.Units(stage)))
  }

  class ProcessingRun {
    var estimator: Estimator
    const stages: seq<Stage>
    var last: Option<Event>
    var timings: Timings
    /** The places posted so far, each with the estimator it was posted on, and the events they gave. */
    ghost var ticks: seq<Tick>
    ghost var events: seq<Event>

    ghost predicate Valid()
      reads this
    {
      && estimator.Valid()
      && (forall t :: t in ticks ==> t.estimator.Valid() && t.elapsed >= 0.0)
      && events == EventsOf(None, ticks, stages)
      && last == if events == [] then None else Some(events[|events| - 1])
    }

    constructor (estimator: Estimator, stages: seq<Stage>)
      requires estimator.Valid()
      ensures Valid() && this.estimator == estimator && this.stages == stages
      ensures ticks == [] && timings == Timings(map[], {})
    {
      this.estimator := estimator;
      this.stages := stages;
      last := None;
      timings := Timings(map[], {});
      ticks, events := [], [];
    }

    /** The one re-estimate inside a run. */
    method Revise(tokens: nat)
      requires Valid()
      modifies this`estimator
      ensures Valid() && estimator == old(estimator).(tokens := tokens)
    {
      estimator := estimator.(tokens := tokens);
    }

    method Progress(stage: Stage, lane: nat, elapsed: real) returns (event: Event)
      requires Valid() && elapsed >= 0.0
      modifies this`last, this`ticks, this`events
      ensures Valid()
      ensures ticks == old(ticks) + [Tick(estimator, stage, lane, elapsed)] && events == old(events) + [event]
      ensures var honest := estimator.Honest(stage, lane, elapsed, stages);
        if old(last).None? || honest.fraction >= old(last).value.next then event == honest
        else event.fraction == old(last).value.next
    {
      estimator.HonestInRange(stage, lane, elapsed, stages);
      hide Estimator.Honest, Estimator.Valid, EventsOf;
      var honest := estimator.Honest(stage, lane, elapsed, stages);
      ghost var tick := Tick(estimator, stage, lane, elapsed);
      EventsAppend(None, ticks, tick, stages);
      ticks := ticks + [tick];
      event := Clamp(honest);
      last := Some(event);
      events := events + [event];
    }

    method Clamp(honest: Event) returns (event: Event)
      ensures event == Clamped(last, honest)
    {
      var floor := if last.Some? then last.value.next else 0.0;
      if honest.fraction >= floor { return honest; }
      var share := if honest.fraction < 1.0 then (honest.next - honest.fraction) / (1.0 - honest.fraction) else 0.0;
      event := Event(floor, Min(1.0, floor + share * (1.0 - floor)));
    }

    /** `None` leaves the stored rates as they are. */
    method Measure(stage: Stage, lane: nat, seconds: real, alone: bool) returns (sample: Option<Rate>)
      modifies this`timings
      ensures timings == Measured(old(timings), stage, seconds, alone)
      ensures sample == SampleOf(estimator, timings, stage, lane)
      ensures stage in timings.measured && timings.measured.Keys == old(timings).measured.Keys + {stage}
      ensures timings.measured[stage] == (if stage in old(timings).measured then old(timings).measured[stage] else 0.0) + seconds
      ensures forall other :: other in timings.measured && other != stage ==>
        timings.measured[other] == old(timings).measured[other]
      ensures timings.shared == old(timings).shared + if alone then {} else {stage}
      ensures sample.Some? <==>
        (!stage.Decode? && stage !in timings.shared && estimator.Units(stage) > 0.0
         && (stage.Transcribe? ==> lane + 1 == estimator.lanes))
      ensures sample.Some? ==> sample.value == Rate(stage, timings.measured[stage] / estimator.Units(stage))
    {
      var total := (if stage in timings.measured then timings.measured[stage] else 0.0) + seconds;
      timings := timings.(measured := timings.measured[stage := total]);
      if !alone { timings := timings.(shared := timings.shared + {stage}); }
      if (stage.Transcribe? && lane + 1 != estimator.lanes) || stage.Decode? || stage in timings.shared { return None; }
      var units := estimator.Units(stage);
      if units <= 0.0 { return None; }
      sample := Some(Rate(stage, total / units));
    }

    /** The events of a run, whatever it was revised to on the way. */
    lemma RunRises()
      requires Valid()
      ensures Rising(events)
    {
      TheBarNeverMovesBack(None, ticks, stages);
    }
  }

  lemma {:induction false} EventsAppend(last: Option<Event>, ticks: seq<Tick>, tick: Tick, stages: seq<Stage>)
    ensures var events := EventsOf(last, ticks, stages);
      EventsOf(last, ticks + [tick], stages)
      == events + [Clamped(if events == [] then last else Some(events[|events| - 1]), HonestAt(tick, stages))]
    decreases |ticks|
  {
    hide Clamped, HonestAt;
    if ticks == [] {
      assert ticks + [tick] == [tick];
    } else {
      var event := Clamped(last, HonestAt(ticks[0], stages));
      EventsAppend(Some(event), ticks[1..], tick, stages);
      assert (ticks + [tick])[1..] == ticks[1..] + [tick];
    }
  }
}
