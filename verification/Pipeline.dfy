/** One operation a meeting at a time, and rates learned only from stages that ran alone
    (`ProcessingPipeline.swift`). A step is what the actor does between two suspensions; operations on any
    number of meetings interleave at the steps. */
module Pipeline {
  import opened Options
  import opened Progress

  type Id = nat

  /** A measured stretch of a run: the instants from `begun` up to `ended`. */
  datatype Stretch = Stretch(begun: nat, ended: nat, seconds: real)

  /** A stage body under way: what was noted when it began. */
  datatype Span = Span(op: Id, meeting: Id, stage: Stage, lane: nat, alone: bool, admissionsBefore: nat, begun: nat)

  /** A run's timings, and the stretches they were measured over. */
  datatype Run = Run(estimator: Estimator, timings: Timings, stretches: map<Stage, seq<Stretch>>)

  datatype Learned = Learned(meeting: Id, rate: Rate, stretches: seq<Stretch>, units: real)

  /** The actor. `bodies` are the operations past the guard with their meetings, `spans` the stage bodies
      under way, `log` the meetings in flight after each step so far and `learned` the samples handed to
      the store. */
  datatype State = State(
    inFlight: set<Id>,
    admissions: nat,
    bodies: map<Id, Id>,
    runs: map<Id, Run>,
    spans: map<Id, Span>,
    log: seq<set<Id>>,
    learned: seq<Learned>)

  datatype Action =
    | Enter(op: Id, meeting: Id)
    | MakeRun(op: Id, estimator: Estimator)
    | Revise(op: Id, tokens: nat)
    | Begin(span: Id, op: Id, stage: Stage, lane: nat)
    | Finish(span: Id, seconds: real)
    | Throw(span: Id)
    | Leave(op: Id)

  function Start(): State {
    State({}, 0, map[], map[], map[], [{}], [])
  }

  /** Operations and spans are named once; a body ends its spans before it ends. */
  ghost predicate Enabled(s: State, a: Action) {
    match a
    case Enter(op, _) => op !in s.bodies
    case MakeRun(op, _) => op in s.bodies
    case Revise(op, _) => op in s.bodies
    case Begin(span, op, _, _) => span !in s.spans && op in s.bodies
    case Finish(span, _) => span in s.spans
    case Throw(span) => span in s.spans
    case Leave(op) => op in s.bodies && forall x :: x in s.spans ==> s.spans[x].op != op
  }

  function StretchesOf(r: Run, stage: Stage): seq<Stretch> {
    if stage in r.stretches then r.stretches[stage] else []
  }

  function SecondsOf(t: Timings, stage: Stage): real {
    if stage in t.measured then t.measured[stage] else 0.0
  }

  /** The run after a span, and the sample the span completes. */
  function Closed(r: Run, span: Span, ended: nat, seconds: real, alone: bool): (Run, Option<Rate>) {
    var timings := Measured(r.timings, span.stage, seconds, alone);
    var stretches := r.stretches[span.stage := StretchesOf(r, span.stage) + [Stretch(span.begun, ended, seconds)]];
    (Run(r.estimator, timings, stretches), SampleOf(r.estimator, timings, span.stage, span.lane))
  }

  /** What a step changes, before it is logged. */
  function Stepped(s: State, a: Action): State
    requires Enabled(s, a)
  {
    match a
    case Enter(op, m) =>
      // A meeting in flight refuses the operation: it throws and nothing changes.
      if m in s.inFlight then s
      else s.(inFlight := s.inFlight + {m}, admissions := s.admissions + 1, bodies := s.bodies[op := m])
    case MakeRun(op, estimator) =>
      s.(runs := s.runs[s.bodies[op] := Run(estimator, Timings(map[], {}), map[])])
    case Revise(op, tokens) =>
      var m := s.bodies[op];
      if m in s.runs then s.(runs := s.runs[m := s.runs[m].(estimator := s.runs[m].estimator.(tokens := tokens))]) else s
    case Begin(span, op, stage, lane) =>
      s.(spans := s.spans[span := Span(op, s.bodies[op], stage, lane, |s.inFlight| == 1, s.admissions, |s.log|)])
    case Finish(x, seconds) =>
      var span := s.spans[x];
      var m := span.meeting;
      if m !in s.runs then s.(spans := s.spans - {x})
      else
        var alone := span.alone && s.admissions == span.admissionsBefore;
        var (run, sample) := Closed(s.runs[m], span, |s.log|, seconds, alone);
        s.(spans := s.spans - {x}, runs := s.runs[m := run],
           learned := s.learned + (
             if sample.Some?
             then [Learned(m, sample.value, StretchesOf(run, span.stage), run.estimator.Units(span.stage))]
             else []))
    case Throw(x) => s.(spans := s.spans - {x})
    case Leave(op) =>
      var m := s.bodies[op];
      s.(inFlight := s.inFlight - {m}, bodies := s.bodies - {op}, runs := s.runs - {m})
  }

  function Next(s: State, a: Action): State
    requires Enabled(s, a)
  {
    var t := Stepped(s, a);
    t.(log := s.log + [t.inFlight])
  }

  ghost predicate Follows(s: State, actions: seq<Action>, t: State)
    decreases |actions|
  {
    if actions == [] then t == s else Enabled(s, actions[0]) && Follows(Next(s, actions[0]), actions[1..], t)
  }

  // What every run keeps.

  /** At each instant from `from` up to `to` only `m` was in flight. */
  ghost predicate AloneDuring(log: seq<set<Id>>, from: nat, to: nat, m: Id) {
    to <= |log| && forall k :: from <= k < to ==> log[k] == {m}
  }

  function Sum(stretches: seq<Stretch>): real {
    if stretches == [] then 0.0 else Sum(stretches[..|stretches| - 1]) + stretches[|stretches| - 1].seconds
  }

  /** One body a meeting, and the set of meetings in flight is theirs. */
  ghost predicate BodiesHold(s: State) {
    && (forall a, b :: a in s.bodies && b in s.bodies && a != b ==> s.bodies[a] != s.bodies[b])
    && (forall op :: op in s.bodies ==> s.bodies[op] in s.inFlight)
    && (forall m :: m in s.inFlight ==> exists op :: op in s.bodies && s.bodies[op] == m)
    && (forall m :: m in s.runs ==> m in s.inFlight)
    && s.log != [] && s.log[|s.log| - 1] == s.inFlight
  }

  /** A span under way would count as alone exactly when it has been, at every instant so far. */
  ghost predicate SpanHolds(s: State, span: Span) {
    && span.op in s.bodies && s.bodies[span.op] == span.meeting
    && span.begun < |s.log| && span.admissionsBefore <= s.admissions
    && (span.alone && span.admissionsBefore == s.admissions <==> AloneDuring(s.log, span.begun, |s.log|, span.meeting))
  }

  ghost predicate SpansHold(s: State) {
    forall x :: x in s.spans ==> SpanHolds(s, s.spans[x])
  }

  ghost predicate AllAlone(log: seq<set<Id>>, stretches: seq<Stretch>, m: Id) {
    forall i :: 0 <= i < |stretches| ==> AloneDuring(log, stretches[i].begun, stretches[i].ended, m)
  }

  /** A stage is marked shared exactly when some stretch of it was. */
  ghost predicate StageHolds(log: seq<set<Id>>, m: Id, run: Run, stage: Stage) {
    && (forall i :: 0 <= i < |StretchesOf(run, stage)| ==>
         StretchesOf(run, stage)[i].begun < StretchesOf(run, stage)[i].ended <= |log|)
    && SecondsOf(run.timings, stage) == Sum(StretchesOf(run, stage))
    && (stage !in run.timings.shared <==> AllAlone(log, StretchesOf(run, stage), m))
  }

  ghost predicate RunsHold(s: State) {
    forall m, stage :: m in s.runs ==> StageHolds(s.log, m, s.runs[m], stage)
  }

  ghost predicate LearnedHolds(log: seq<set<Id>>, l: Learned) {
    && AllAlone(log, l.stretches, l.meeting)
    && !l.rate.stage.Decode? && l.units > 0.0
    && l.rate.secondsPerUnit == Sum(l.stretches) / l.units
    && l.stretches != []
    && forall i :: 0 <= i < |l.stretches| ==> l.stretches[i].begun < l.stretches[i].ended <= |log|
  }

  ghost predicate AllLearnedHolds(s: State) {
    forall i :: 0 <= i < |s.learned| ==> LearnedHolds(s.log, s.learned[i])
  }

  ghost predicate Inv(s: State) {
    BodiesHold(s) && SpansHold(s) && RunsHold(s) && AllLearnedHolds(s)
  }

  lemma StartHolds()
    ensures Inv(Start())
  {
    var s := Start();
    assert BodiesHold(s) && SpansHold(s) && RunsHold(s) && AllLearnedHolds(s);
  }

  /** Later instants do not change what an earlier stretch was. */
  lemma AloneStays(log: seq<set<Id>>, now: set<Id>, from: nat, to: nat, m: Id)
    requires to <= |log|
    ensures AloneDuring(log + [now], from, to, m) <==> AloneDuring(log, from, to, m)
  {
    if AloneDuring(log + [now], from, to, m) {
      forall k | from <= k < to ensures log[k] == {m} { assert (log + [now])[k] == log[k]; }
    }
  }

  /** One more instant. */
  lemma AloneGrows(log: seq<set<Id>>, now: set<Id>, from: nat, m: Id)
    requires from <= |log|
    ensures AloneDuring(log + [now], from, |log| + 1, m) <==> AloneDuring(log, from, |log|, m) && now == {m}
  {
    var longer := log + [now];
    AloneStays(log, now, from, |log|, m);
    assert longer[|log|] == now;
    if AloneDuring(longer, from, |log| + 1, m) {
      forall k | from <= k < |log| ensures log[k] == {m} { assert longer[k] == {m}; }
    }
  }

  lemma AllAloneStays(log: seq<set<Id>>, now: set<Id>, stretches: seq<Stretch>, m: Id)
    requires forall i :: 0 <= i < |stretches| ==> stretches[i].ended <= |log|
    ensures AllAlone(log + [now], stretches, m) <==> AllAlone(log, stretches, m)
  {
    hide AloneDuring;
    forall i | 0 <= i < |stretches|
      ensures AloneDuring(log + [now], stretches[i].begun, stretches[i].ended, m)
          <==> AloneDuring(log, stretches[i].begun, stretches[i].ended, m)
    {
      AloneStays(log, now, stretches[i].begun, stretches[i].ended, m);
    }
  }

  lemma BodiesStep(s: State, a: Action)
    requires BodiesHold(s) && Enabled(s, a)
    ensures BodiesHold(Next(s, a))
  {
    if a.Enter? {
      EnterStep(s, a);
    } else if a.Leave? {
      LeaveStep(s, a);
    } else {
      hide Closed, Measured, SampleOf, StretchesOf, Estimator.Units;
      assert Next(s, a).bodies == s.bodies && Next(s, a).inFlight == s.inFlight;
    }
  }

  lemma EnterStep(s: State, a: Action)
    requires BodiesHold(s) && a.Enter? && Enabled(s, a)
    ensures BodiesHold(Next(s, a))
  {
    var t := Next(s, a);
    forall m | m in t.inFlight ensures exists op :: op in t.bodies && t.bodies[op] == m {
      if m in s.inFlight {
        var op :| op in s.bodies && s.bodies[op] == m;
        assert op in t.bodies && t.bodies[op] == m;
      } else {
        assert a.op in t.bodies && t.bodies[a.op] == m;
      }
    }
  }

  lemma LeaveStep(s: State, a: Action)
    requires BodiesHold(s) && a.Leave? && Enabled(s, a)
    ensures BodiesHold(Next(s, a))
  {
    var t := Next(s, a);
    forall m | m in t.inFlight ensures exists op :: op in t.bodies && t.bodies[op] == m {
      var op :| op in s.bodies && s.bodies[op] == m;
      assert op in t.bodies && t.bodies[op] == m;
    }
  }

  /** A span that stays open stays judged right. */
  lemma SpanStep(s: State, a: Action, x: Id)
    requires BodiesHold(s) && Enabled(s, a) && x in s.spans && SpanHolds(s, s.spans[x])
    requires x in Next(s, a).spans && s.spans[x] == Next(s, a).spans[x]
    ensures SpanHolds(Next(s, a), s.spans[x])
  {
    var t, span := Next(s, a), s.spans[x];
    hide AloneDuring, Closed;
    AloneGrows(s.log, t.inFlight, span.begun, span.meeting);
    var m := span.meeting;
    assert m in s.inFlight;
    if AloneDuring(s.log, span.begun, |s.log|, m) {
      LastAlone(s.log, span.begun, m);
      assert s.inFlight == {m};
      if a.Enter? && a.meeting !in s.inFlight {
        assert a.meeting in t.inFlight && a.meeting != m;
      }
    }
  }

  lemma LastAlone(log: seq<set<Id>>, from: nat, m: Id)
    requires from < |log| && AloneDuring(log, from, |log|, m)
    ensures log[|log| - 1] == {m}
  {}

  lemma SpansStep(s: State, a: Action)
    requires BodiesHold(s) && SpansHold(s) && Enabled(s, a)
    ensures SpansHold(Next(s, a))
  {
    var t := Next(s, a);
    hide SpanHolds, Closed;
    forall x | x in t.spans ensures SpanHolds(t, t.spans[x]) {
      if x in s.spans {
        SpanStep(s, a, x);
      } else {
        BegunHolds(s, a);
      }
    }
  }

  lemma BegunHolds(s: State, a: Action)
    requires BodiesHold(s) && a.Begin? && Enabled(s, a)
    ensures SpanHolds(Next(s, a), Next(s, a).spans[a.span])
  {
    var t := Next(s, a);
    var m := s.bodies[a.op];
    AloneGrows(s.log, t.inFlight, |s.log|, m);
    Single(s.inFlight, m);
  }

  lemma Single(ids: set<Id>, m: Id)
    requires m in ids
    ensures |ids| == 1 <==> ids == {m}
  {
    assert ids == (ids - {m}) + {m};
  }

  /** A stage whose run does not change keeps its record. */
  lemma StageStays(log: seq<set<Id>>, now: set<Id>, m: Id, run: Run, stage: Stage)
    requires StageHolds(log, m, run, stage)
    ensures StageHolds(log + [now], m, run, stage)
  {
    AllAloneStays(log, now, StretchesOf(run, stage), m);
  }

  /** A span that ends adds its stretch, marked shared exactly when it was. */
  lemma StageCloses(s: State, span: Span, run: Run, seconds: real, stage: Stage)
    requires SpanHolds(s, span) && StageHolds(s.log, span.meeting, run, stage)
    ensures var alone := span.alone && s.admissions == span.admissionsBefore;
      StageHolds(s.log, span.meeting, Closed(run, span, |s.log|, seconds, alone).0, stage)
  {
    hide AloneDuring, AllAlone, Sum, Closed, StretchesOf, SecondsOf;
    var alone := span.alone && s.admissions == span.admissionsBefore;
    var stretch := Stretch(span.begun, |s.log|, seconds);
    ClosedFields(run, span, |s.log|, seconds, alone, stage);
    if stage == span.stage {
      var before := StretchesOf(run, stage);
      SumAppend(before, stretch);
      AllAloneAppend(s.log, before, stretch, span.meeting);
    }
  }

  /** What a span that ends does to a stage's record. */
  lemma ClosedFields(run: Run, span: Span, ended: nat, seconds: real, alone: bool, stage: Stage)
    ensures var closed := Closed(run, span, ended, seconds, alone).0;
      if stage == span.stage then
        && StretchesOf(closed, stage) == StretchesOf(run, stage) + [Stretch(span.begun, ended, seconds)]
        && SecondsOf(closed.timings, stage) == SecondsOf(run.timings, stage) + seconds
        && (stage in closed.timings.shared <==> stage in run.timings.shared || !alone)
      else
        && StretchesOf(closed, stage) == StretchesOf(run, stage)
        && SecondsOf(closed.timings, stage) == SecondsOf(run.timings, stage)
        && (stage in closed.timings.shared <==> stage in run.timings.shared)
  {
    hide SampleOf;
  }

  lemma SumAppend(stretches: seq<Stretch>, more: Stretch)
    ensures Sum(stretches + [more]) == Sum(stretches) + more.seconds
  {
    assert (stretches + [more])[..|stretches|] == stretches;
  }

  lemma AllAloneAppend(log: seq<set<Id>>, stretches: seq<Stretch>, more: Stretch, m: Id)
    ensures AllAlone(log, stretches + [more], m)
       <==> AllAlone(log, stretches, m) && AloneDuring(log, more.begun, more.ended, m)
  {
    hide AloneDuring;
    var all := stretches + [more];
    assert all[|stretches|] == more;
    forall i | 0 <= i < |stretches| ensures all[i] == stretches[i] {}
  }

  lemma RunsStep(s: State, a: Action)
    requires BodiesHold(s) && SpansHold(s) && RunsHold(s) && Enabled(s, a)
    ensures RunsHold(Next(s, a))
  {
    var t := Next(s, a);
    hide StageHolds, Closed;
    forall m, stage | m in t.runs ensures StageHolds(t.log, m, t.runs[m], stage) {
      if a.MakeRun? && m == s.bodies[a.op] {
        NewRunHolds(t.log, m, a.estimator, stage);
      } else if a.Revise? && m == s.bodies[a.op] {
        StageStays(s.log, t.inFlight, m, s.runs[m], stage);
        RevisedHolds(t.log, m, s.runs[m], t.runs[m], stage);
      } else {
        if a.Finish? && m == s.spans[a.span].meeting {
          StageCloses(s, s.spans[a.span], s.runs[m], a.seconds, stage);
          var span := s.spans[a.span];
          var alone := span.alone && s.admissions == span.admissionsBefore;
          assert t.runs[m] == Closed(s.runs[m], span, |s.log|, a.seconds, alone).0;
          StageStays(s.log, t.inFlight, m, t.runs[m], stage);
        } else {
          assert t.runs[m] == s.runs[m];
          StageStays(s.log, t.inFlight, m, s.runs[m], stage);
        }
      }
    }
  }

  lemma NewRunHolds(log: seq<set<Id>>, m: Id, e: Estimator, stage: Stage)
    ensures StageHolds(log, m, Run(e, Timings(map[], {}), map[]), stage)
  {}

  lemma RevisedHolds(log: seq<set<Id>>, m: Id, run: Run, revised: Run, stage: Stage)
    requires StageHolds(log, m, run, stage) && revised.timings == run.timings && revised.stretches == run.stretches
    ensures StageHolds(log, m, revised, stage)
  {}

  lemma LearnedStays(log: seq<set<Id>>, now: set<Id>, l: Learned)
    requires LearnedHolds(log, l)
    ensures LearnedHolds(log + [now], l)
  {
    AllAloneStays(log, now, l.stretches, l.meeting);
  }

  lemma LearnedIsGood(s: State, span: Span, run: Run, seconds: real)
    requires SpanHolds(s, span) && StageHolds(s.log, span.meeting, run, span.stage)
    requires var alone := span.alone && s.admissions == span.admissionsBefore;
      Closed(run, span, |s.log|, seconds, alone).1.Some?
    ensures var alone := span.alone && s.admissions == span.admissionsBefore;
      var (closed, sample) := Closed(run, span, |s.log|, seconds, alone);
      LearnedHolds(s.log, Learned(span.meeting, sample.value, StretchesOf(closed, span.stage), run.estimator.Units(span.stage)))
  {
    StageCloses(s, span, run, seconds, span.stage);
    hide AllAlone, AloneDuring, Sum, SpanHolds;
  }

  lemma LearnedStep(s: State, a: Action)
    requires Inv(s) && Enabled(s, a)
    ensures AllLearnedHolds(Next(s, a))
  {
    var t := Next(s, a);
    hide LearnedHolds, Closed, StageHolds, SpanHolds, BodiesHold;
    forall i | 0 <= i < |t.learned| ensures LearnedHolds(t.log, t.learned[i]) {
      if i < |s.learned| {
        LearnedStays(s.log, t.inFlight, s.learned[i]);
      } else {
        var span := s.spans[a.span];
        assert StageHolds(s.log, span.meeting, s.runs[span.meeting], span.stage);
        LearnedIsGood(s, span, s.runs[span.meeting], a.seconds);
        EstimatorStays(s.runs[span.meeting], span, |s.log|, a.seconds, span.alone && s.admissions == span.admissionsBefore);
        LearnedStays(s.log, t.inFlight, t.learned[i]);
      }
    }
  }

  lemma EstimatorStays(run: Run, span: Span, ended: nat, seconds: real, alone: bool)
    ensures Closed(run, span, ended, seconds, alone).0.estimator == run.estimator
  {}

  lemma NextHolds(s: State, a: Action)
    requires Inv(s) && Enabled(s, a)
    ensures Inv(Next(s, a))
  {
    BodiesStep(s, a);
    SpansStep(s, a);
    RunsStep(s, a);
    LearnedStep(s, a);
  }

  lemma {:induction false} RunHolds(s: State, actions: seq<Action>, t: State)
    requires Inv(s) && Follows(s, actions, t)
    ensures Inv(t)
    decreases |actions|
  {
    if actions != [] {
      hide Inv, Next, Enabled;
      NextHolds(s, actions[0]);
      RunHolds(Next(s, actions[0]), actions[1..], t);
    }
  }

  // Main results.

  /** Under every interleaving no meeting has two operations in their bodies. */
  lemma OneBodyAMeeting(actions: seq<Action>, t: State, a: Id, b: Id)
    requires Follows(Start(), actions, t)
    requires a in t.bodies && b in t.bodies && t.bodies[a] == t.bodies[b]
    ensures a == b
  {
    StartHolds();
    RunHolds(Start(), actions, t);
  }

  /** Under every interleaving a learned rate comes from stretches at every instant of which its meeting
      was the only one in flight, and is their time a unit. */
  lemma LearnedAlone(actions: seq<Action>, t: State, i: nat, j: nat, k: nat)
    requires Follows(Start(), actions, t)
    requires i < |t.learned| && j < |t.learned[i].stretches|
    requires t.learned[i].stretches[j].begun <= k < t.learned[i].stretches[j].ended
    ensures k < |t.log| && t.log[k] == {t.learned[i].meeting}
    ensures t.learned[i].units > 0.0 && t.learned[i].rate.secondsPerUnit == Sum(t.learned[i].stretches) / t.learned[i].units
  {
    StartHolds();
    RunHolds(Start(), actions, t);
    assert LearnedHolds(t.log, t.learned[i]);
    assert AloneDuring(t.log, t.learned[i].stretches[j].begun, t.learned[i].stretches[j].ended, t.learned[i].meeting);
  }

  /** And nothing that was alone is thrown away: a stage is marked shared exactly when another meeting
      was in flight at some instant of a stretch of it. */
  lemma SharedExactly(actions: seq<Action>, t: State, m: Id, stage: Stage)
    requires Follows(Start(), actions, t) && m in t.runs
    ensures stage in t.runs[m].timings.shared <==>
      exists i :: 0 <= i < |StretchesOf(t.runs[m], stage)| && Overlapped(t.log, StretchesOf(t.runs[m], stage)[i], m)
  {
    hide Follows, BodiesHold, SpansHold, AllLearnedHolds, AloneDuring, Overlapped, Sum;
    StartHolds();
    RunHolds(Start(), actions, t);
    assert StageHolds(t.log, m, t.runs[m], stage);
    var stretches := StretchesOf(t.runs[m], stage);
    forall i | 0 <= i < |stretches|
      ensures AloneDuring(t.log, stretches[i].begun, stretches[i].ended, m) <==> !Overlapped(t.log, stretches[i], m)
    {
      AloneOrOverlapped(t.log, stretches[i], m);
    }
  }

  /** Another meeting was in flight at some instant of a stretch. */
  ghost predicate Overlapped(log: seq<set<Id>>, stretch: Stretch, m: Id) {
    exists k :: stretch.begun <= k < stretch.ended && k < |log| && log[k] != {m}
  }

  lemma AloneOrOverlapped(log: seq<set<Id>>, stretch: Stretch, m: Id)
    requires stretch.ended <= |log|
    ensures AloneDuring(log, stretch.begun, stretch.ended, m) <==> !Overlapped(log, stretch, m)
  {}

  /** Under every interleaving a span that ends yields a rate exactly when it is the last of a stage that
      is learned and has work, no instant of whose stretches, its own included, another meeting was in
      flight: their seconds a unit of that work. */
  lemma LearnedExactly(actions: seq<Action>, s: State, x: Id, seconds: real)
    requires Follows(Start(), actions, s) && x in s.spans && s.spans[x].meeting in s.runs
    ensures var span, m := s.spans[x], s.spans[x].meeting;
      var e, t := s.runs[m].estimator, Next(s, Finish(x, seconds));
      && m in t.runs && StretchesOf(t.runs[m], span.stage)
           == StretchesOf(s.runs[m], span.stage) + [Stretch(span.begun, |s.log|, seconds)]
      && var stretches := StretchesOf(t.runs[m], span.stage);
      if !span.stage.Decode? && (span.stage.Transcribe? ==> span.lane + 1 == e.lanes) && e.Units(span.stage) > 0.0
         && forall i :: 0 <= i < |stretches| ==> !Overlapped(s.log, stretches[i], m)
      then t.learned == s.learned
             + [Learned(m, Rate(span.stage, Sum(stretches) / e.Units(span.stage)), stretches, e.Units(span.stage))]
      else t.learned == s.learned
  {
    StartHolds();
    RunHolds(Start(), actions, s);
    var span, m := s.spans[x], s.spans[x].meeting;
    assert StageHolds(s.log, m, s.runs[m], span.stage) && SpanHolds(s, span);
    hide Follows, Inv, SpanHolds, StageHolds, Overlapped, Sum, Estimator.Units, AllAlone;
    SampleExactly(s, span, s.runs[m], seconds);
    var alone := span.alone && s.admissions == span.admissionsBefore;
    NeverOverlapped(s.log, StretchesOf(Closed(s.runs[m], span, |s.log|, seconds, alone).0, span.stage), m);
    hide Closed, StretchesOf;
  }

  lemma SampleExactly(s: State, span: Span, run: Run, seconds: real)
    requires SpanHolds(s, span) && StageHolds(s.log, span.meeting, run, span.stage)
    ensures var alone := span.alone && s.admissions == span.admissionsBefore;
      var (closed, sample) := Closed(run, span, |s.log|, seconds, alone);
      var stretches := StretchesOf(closed, span.stage);
      && closed.estimator == run.estimator
      && stretches == StretchesOf(run, span.stage) + [Stretch(span.begun, |s.log|, seconds)]
      && (forall i :: 0 <= i < |stretches| ==> stretches[i].ended <= |s.log|)
      && sample == (
           if !span.stage.Decode? && (span.stage.Transcribe? ==> span.lane + 1 == run.estimator.lanes)
              && run.estimator.Units(span.stage) > 0.0 && AllAlone(s.log, stretches, span.meeting)
           then Some(Rate(span.stage, Sum(stretches) / run.estimator.Units(span.stage))) else None)
  {
    StageCloses(s, span, run, seconds, span.stage);
    ClosedFields(run, span, |s.log|, seconds, span.alone && s.admissions == span.admissionsBefore, span.stage);
    hide AllAlone, AloneDuring, Sum, SpanHolds, Estimator.Units;
  }

  lemma NeverOverlapped(log: seq<set<Id>>, stretches: seq<Stretch>, m: Id)
    requires forall i :: 0 <= i < |stretches| ==> stretches[i].ended <= |log|
    ensures AllAlone(log, stretches, m) <==> forall i :: 0 <= i < |stretches| ==> !Overlapped(log, stretches[i], m)
  {
    hide AloneDuring, Overlapped;
    forall i | 0 <= i < |stretches|
      ensures AloneDuring(log, stretches[i].begun, stretches[i].ended, m) <==> !Overlapped(log, stretches[i], m)
    {
      AloneOrOverlapped(log, stretches[i], m);
    }
  }

  /** A meeting in flight refuses a second operation, which changes nothing; any other takes it. */
  lemma SecondOperationIsRefused(s: State, op: Id, m: Id)
    requires op !in s.bodies
    ensures Next(s, Enter(op, m)).bodies == s.bodies <==> m in s.inFlight
    ensures m !in s.inFlight ==>
      Next(s, Enter(op, m)).bodies == s.bodies[op := m] && Next(s, Enter(op, m)).inFlight == s.inFlight + {m}
    ensures m in s.inFlight ==> Next(s, Enter(op, m)).(log := s.log) == s
  {
    if m !in s.inFlight { assert op in Next(s, Enter(op, m)).bodies; }
  }
}
