/** Persons, the speakers confirmed to them and their voices (`MeetingStore+People.swift`). */
module People {
  import opened Options

  type Id = nat

  datatype Assignment = Unknown | Suggested(person: Id) | Confirmed(person: Id)

  /** `E` is a voice embedding. */
  datatype Speaker<E> = Speaker(
    meeting: Id,
    cluster: string,
    assignment: Assignment,
    embedding: Option<E>,
    clipRange: Option<nat>,
    clipFile: Option<nat>,
    confidence: int)

  datatype Voice<E> = Voice(embedding: Option<E>, sampleCount: nat)

  datatype Person<E> = Person(email: Option<string>, voice: Voice<E>)

  /** What the store asks of embeddings: a normalised mean, a weighted mean of two, and whether the
      dimension is the expected one. */
  datatype Vectors<!E> = Vectors(mean: seq<E> -> Option<E>, mix: (E, E) -> E, fits: E -> bool)

  /** The rows. A segment, participant or task names its speaker or person, if any; a meeting its
      start. */
  datatype Rows<E> = Rows(
    meetings: map<Id, int>,
    persons: map<Id, Person<E>>,
    speakers: map<Id, Speaker<E>>,
    segments: map<Id, Option<Id>>,
    participants: map<Id, Option<Id>>,
    assignees: map<Id, Option<Id>>,
    suggestions: set<Id>)

  datatype Problem = PersonNotFound | SpeakerNotFound | SpeakersInDifferentMeetings

  datatype Outcome<+T> = Done(value: T) | Refused(why: Problem)

  // Voices.

  const VOICE_WINDOW: nat := 50

  /** One confirmed speaker's start and embedding. */
  datatype Sample<E> = Sample(startedAt: int, embedding: E)

  /** The speakers a person's voice is computed from. */
  function Samples<E>(r: Rows<E>, p: Id): map<Id, Sample<E>> {
    map s | s in r.speakers && r.speakers[s].assignment == Confirmed(p) && r.speakers[s].embedding.Some?
            && r.speakers[s].meeting in r.meetings
          :: Sample(r.meetings[r.speakers[s].meeting], r.speakers[s].embedding.value)
  }

  /** `ORDER BY startedAt DESC, id`. */
  predicate NotAfter<E>(samples: map<Id, Sample<E>>, a: Id, b: Id)
    requires a in samples && b in samples
  {
    samples[a].startedAt > samples[b].startedAt || (samples[a].startedAt == samples[b].startedAt && a <= b)
  }

  predicate IsFirst<E>(samples: map<Id, Sample<E>>, ids: set<Id>, a: Id)
    requires ids <= samples.Keys
  {
    a in ids && forall b :: b in ids ==> NotAfter(samples, a, b)
  }

  lemma FirstExists<E>(samples: map<Id, Sample<E>>, ids: set<Id>)
    requires ids != {} && ids <= samples.Keys
    ensures exists a :: IsFirst(samples, ids, a)
    decreases |ids|
  {
    var x :| x in ids;
    if ids == {x} {
      assert IsFirst(samples, ids, x);
    } else {
      var rest := ids - {x};
      FirstExists(samples, rest);
      var a :| IsFirst(samples, rest, a);
      var first := if NotAfter(samples, x, a) then x else a;
      forall b | b in ids ensures NotAfter(samples, first, b) {
        if b != x { assert NotAfter(samples, a, b); }
      }
      assert IsFirst(samples, ids, first);
    }
  }

  function Ordered<E>(samples: map<Id, Sample<E>>, ids: set<Id>): (o: seq<Id>)
    requires ids <= samples.Keys
    ensures forall i :: i in o <==> i in ids
    ensures forall i, j :: 0 <= i < j < |o| ==> o[i] != o[j] && NotAfter(samples, o[i], o[j])
    decreases |ids|
  {
    if ids == {} then []
    else
      FirstExists(samples, ids);
      var a :| IsFirst(samples, ids, a);
      [a] + Ordered(samples, ids - {a})
  }

  /** The samples of the right dimension, in order. */
  function Fitting<E>(v: Vectors<E>, samples: map<Id, Sample<E>>, ids: seq<Id>): (f: seq<Id>)
    requires forall i :: i in ids ==> i in samples
    ensures forall i :: i in f <==> i in ids && v.fits(samples[i].embedding)
  {
    if ids == [] then []
    else (if v.fits(samples[ids[0]].embedding) then [ids[0]] else []) + Fitting(v, samples, ids[1..])
  }

  /** The newest `VOICE_WINDOW` samples that fit. */
  function Newest<E>(v: Vectors<E>, samples: map<Id, Sample<E>>): (n: seq<Id>)
    ensures forall i :: i in n ==> i in samples
  {
    var fitting := Fitting(v, samples, Ordered(samples, samples.Keys));
    if |fitting| > VOICE_WINDOW then fitting[..VOICE_WINDOW] else fitting
  }

  /** A voice from samples: their mean and how many there are. */
  function VoiceOf<E>(v: Vectors<E>, samples: map<Id, Sample<E>>): Voice<E> {
    var newest := Newest(v, samples);
    Voice(v.mean(seq(|newest|, k requires 0 <= k < |newest| => samples[newest[k]].embedding)), |newest|)
  }

  ghost predicate InOrder<E>(samples: map<Id, Sample<E>>, ids: seq<Id>)
    requires forall i :: i in ids ==> i in samples
  {
    forall i, j :: 0 <= i < j < |ids| ==> ids[i] != ids[j] && NotAfter(samples, ids[i], ids[j])
  }

  lemma {:induction false} FittingInOrder<E>(v: Vectors<E>, samples: map<Id, Sample<E>>, ids: seq<Id>)
    requires forall i :: i in ids ==> i in samples
    requires InOrder(samples, ids)
    ensures InOrder(samples, Fitting(v, samples, ids))
  {
    if ids != [] {
      var rest := ids[1..];
      assert InOrder(samples, rest) by {
        forall i, j | 0 <= i < j < |rest| ensures rest[i] != rest[j] && NotAfter(samples, rest[i], rest[j]) {
          assert rest[i] == ids[i + 1] && rest[j] == ids[j + 1];
        }
      }
      FittingInOrder(v, samples, rest);
      var g := Fitting(v, samples, rest);
      forall y | y in g ensures y != ids[0] && NotAfter(samples, ids[0], y) {
        var j :| 0 <= j < |rest| && rest[j] == y;
        assert y == ids[j + 1];
      }
      FirstInOrder(samples, ids[0], g);
      assert [] + g == g;
    }
  }

  lemma FirstInOrder<E>(samples: map<Id, Sample<E>>, x: Id, g: seq<Id>)
    requires x in samples && (forall i :: i in g ==> i in samples)
    requires InOrder(samples, g) && forall y :: y in g ==> y != x && NotAfter(samples, x, y)
    ensures InOrder(samples, [x] + g)
  {
    var f := [x] + g;
    forall i, j | 0 <= i < j < |f| ensures f[i] != f[j] && NotAfter(samples, f[i], f[j]) {
      var y := f[j];
      assert y == g[j - 1];
      if i > 0 {
        assert f[i] == g[i - 1];
      } else {
        assert y in g;
      }
    }
  }

  ghost function FitOf<E>(v: Vectors<E>, samples: map<Id, Sample<E>>): set<Id> {
    set i | i in samples && v.fits(samples[i].embedding)
  }

  /** A voice uses the newest samples that fit: at most `VOICE_WINDOW`, all of them where there are no
      more, and none newer is left out. */
  lemma VoiceUsesTheNewest<E>(v: Vectors<E>, samples: map<Id, Sample<E>>)
    ensures var newest := Newest(v, samples);
      && VoiceOf(v, samples).sampleCount == (if |FitOf(v, samples)| < VOICE_WINDOW then |FitOf(v, samples)| else VOICE_WINDOW)
      && (forall i :: i in newest ==> i in FitOf(v, samples))
      && forall i, j :: i in newest && j in FitOf(v, samples) && j !in newest ==> NotAfter(samples, i, j)
  {
    var fit, f := FitOf(v, samples), Fitting(v, samples, Ordered(samples, samples.Keys));
    FittingInOrder(v, samples, Ordered(samples, samples.Keys));
    assert forall i :: i in f <==> i in fit;
    hide Ordered, Fitting, FitOf;
    DistinctCount(f, fit);
    var newest := Newest(v, samples);
    assert newest == f[..|newest|];
    forall i, j | i in newest && j in fit && j !in newest ensures NotAfter(samples, i, j) {
      LaterInOrder(samples, f, |newest|, i, j);
    }
  }

  lemma LaterInOrder<E>(samples: map<Id, Sample<E>>, f: seq<Id>, n: nat, i: Id, j: Id)
    requires (forall x :: x in f ==> x in samples) && InOrder(samples, f)
    requires n <= |f| && i in f[..n] && j in f && j !in f[..n]
    ensures NotAfter(samples, i, j)
  {
    forall x | 0 <= x < n ensures f[x] in f[..n] { assert f[..n][x] == f[x]; }
    var a :| 0 <= a < n && f[..n][a] == i;
    var b :| 0 <= b < |f| && f[b] == j;
  }

  lemma {:induction false} DistinctCount(s: seq<Id>, ids: set<Id>)
    requires forall i, j :: 0 <= i < j < |s| ==> s[i] != s[j]
    requires forall x :: x in s <==> x in ids
    ensures |ids| == |s|
  {
    if s == [] {
      assert ids == {};
    } else {
      var rest := s[1..];
      assert s == [s[0]] + rest;
      forall i, j | 0 <= i < j < |rest| ensures rest[i] != rest[j] { assert s[i + 1] != s[j + 1]; }
      assert s[0] !in rest;
      DistinctCount(rest, ids - {s[0]});
    }
  }

  /** `refreshVoice` of every person in `ids`; a missing person is ignored. */
  function Refreshed<E>(v: Vectors<E>, r: Rows<E>, ids: set<Id>): Rows<E> {
    r.(persons := map p | p in r.persons ::
         if p in ids then r.persons[p].(voice := VoiceOf(v, Samples(r, p))) else r.persons[p])
  }

  // Transactions.

  /** What a merge of rows leaves: the clip file to remove and the persons it touched. */
  datatype Merge<E> = Merge(rows: Rows<E>, clip: Option<nat>, persons: set<Id>)

  function PersonsOf(a: Assignment): set<Id> {
    if a.Confirmed? then {a.person} else {}
  }

  function Merged<E>(v: Vectors<E>, source: Speaker<E>, target: Speaker<E>): Speaker<E> {
    var embedding :=
      match (target.embedding, source.embedding)
      case (Some(l), Some(r)) => Some(v.mix(l, r))
      case (None, Some(r)) => Some(r)
      case _ => target.embedding;
    var takes := target.clipRange.None?;
    Speaker(
      target.meeting, target.cluster,
      if target.assignment.Unknown? then source.assignment else target.assignment,
      embedding,
      if takes then source.clipRange else target.clipRange,
      if takes then source.clipFile else target.clipFile,
      if target.confidence >= source.confidence then target.confidence else source.confidence)
  }

  function Moved(refs: map<Id, Option<Id>>, from: Id, to: Id): map<Id, Option<Id>> {
    map x | x in refs :: if refs[x] == Some(from) then Some(to) else refs[x]
  }

  /** `mergeSpeakerRows`. Deleting the source takes its name suggestion with it. */
  function MergeRows<E>(v: Vectors<E>, r: Rows<E>, source: Id, target: Id, meeting: Id): Outcome<Merge<E>> {
    if source == target then Done(Merge(r, None, {}))
    else if source !in r.speakers || target !in r.speakers then Refused(SpeakerNotFound)
    else if r.speakers[source].meeting != meeting || r.speakers[target].meeting != meeting
    then Refused(SpeakersInDifferentMeetings)
    else
      var kept := Merged(v, r.speakers[source], r.speakers[target]);
      Done(Merge(
        r.(speakers := r.speakers[target := kept] - {source},
           segments := Moved(r.segments, source, target),
           suggestions := r.suggestions - {source}),
        if r.speakers[target].clipRange.None? then None else r.speakers[source].clipFile,
        PersonsOf(r.speakers[source].assignment) + PersonsOf(kept.assignment)))
  }

  function MergeSpeakers<E>(v: Vectors<E>, r: Rows<E>, source: Id, target: Id, meeting: Id): Outcome<Rows<E>> {
    match MergeRows(v, r, source, target, meeting)
    case Refused(why) => Refused(why)
    case Done(m) => Done(if source == target then r else Refreshed(v, m.rows, m.persons))
  }

  function MergePersons<E>(v: Vectors<E>, r: Rows<E>, keep: Id, remove: Id): Outcome<Rows<E>> {
    if keep == remove then Done(r)
    else if keep !in r.persons || remove !in r.persons then Refused(PersonNotFound)
    else
      Done(Refreshed(v, PersonsMerged(r, keep, remove), {keep}))
  }

  /** Every row that names the removed person now names the kept one. */
  function PersonsMerged<E>(r: Rows<E>, keep: Id, remove: Id): Rows<E>
    requires keep in r.persons && remove in r.persons
  {
    var kept := if r.persons[keep].email.None? then r.persons[keep].(email := r.persons[remove].email) else r.persons[keep];
    r.(persons := r.persons[keep := kept] - {remove},
       speakers := map s | s in r.speakers :: Repointed(r.speakers[s], keep, remove),
       participants := Moved(r.participants, remove, keep),
       assignees := Moved(r.assignees, remove, keep))
  }

  /** `UPDATE speaker SET personID`, which reaches suggestions too. */
  function Repointed<E>(s: Speaker<E>, keep: Id, remove: Id): Speaker<E> {
    match s.assignment
    case Suggested(p) => if p == remove then s.(assignment := Suggested(keep)) else s
    case Confirmed(p) => if p == remove then s.(assignment := Confirmed(keep)) else s
    case Unknown => s
  }

  /** Other speakers of the meeting confirmed to the person. */
  function Owners<E>(r: Rows<E>, speaker: Id, person: Id): set<Id>
    requires speaker in r.speakers
  {
    set s | s in r.speakers && s != speaker && r.speakers[s].meeting == r.speakers[speaker].meeting
            && r.speakers[s].assignment == Confirmed(person)
  }

  /** The clip goes with the confirmation once the meeting's audio is gone. */
  function ClipDropped<E>(r: Rows<E>, speaker: Id, audioExists: bool): Rows<E> {
    if speaker in r.speakers && r.speakers[speaker].clipFile.Some? && !audioExists
    then r.(speakers := r.speakers[speaker := r.speakers[speaker].(clipFile := None)])
    else r
  }

  /** `confirm`. `owner` is the row the query would fetch first, if there is one. */
  function Confirm<E>(v: Vectors<E>, r: Rows<E>, speaker: Id, person: Id, given: Person<E>, owner: Option<Id>, audioExists: bool)
    : Outcome<Rows<E>>
  {
    if speaker !in r.speakers then Refused(SpeakerNotFound)
    else
      var known := Prepared(r, speaker, person, given);
      var was := r.speakers[speaker].assignment;
      if was == Confirmed(person) then Done(known)
      else
        match owner
        case None =>
          Done(Refreshed(v, ClipDropped(Renamed(known, speaker, person), speaker, audioExists), {person} + PersonsOf(was)))
        case Some(o) =>
          match TakenOver(v, known, speaker, o, r.speakers[speaker].meeting, audioExists)
          case Refused(why) => Refused(why)
          case Done(m) => Done(Refreshed(v, m.rows, {person} + PersonsOf(was) + m.persons))
  }

  /** The person's other speaker of the meeting takes this one over. */
  function TakenOver<E>(v: Vectors<E>, r: Rows<E>, speaker: Id, owner: Id, meeting: Id, audioExists: bool): Outcome<Merge<E>> {
    match MergeRows(v, r, speaker, owner, meeting)
    case Refused(why) => Refused(why)
    case Done(m) => Done(m.(rows := ClipDropped(m.rows, owner, audioExists)))
  }

  /** The owner the query picks: none exactly when there is none. */
  ghost predicate IsOwner<E>(r: Rows<E>, speaker: Id, person: Id, owner: Option<Id>)
    requires speaker in r.speakers
  {
    match owner
    case None => Owners(r, speaker, person) == {}
    case Some(o) => o in Owners(r, speaker, person)
  }

  // What the operations keep.

  /** Every stored voice is the recomputation from the speakers now confirmed. */
  ghost predicate VoicesHold<E>(v: Vectors<E>, r: Rows<E>) {
    forall p :: p in r.persons ==> r.persons[p].voice == VoiceOf(v, Samples(r, p))
  }

  ghost predicate SegmentsHold<E>(r: Rows<E>) {
    forall s :: s in r.segments && r.segments[s].Some? ==> r.segments[s].value in r.speakers
  }

  /** The foreign keys of the speaker table. */
  ghost predicate SpeakersHold<E>(r: Rows<E>) {
    forall s :: s in r.speakers ==>
      && r.speakers[s].meeting in r.meetings
      && (r.speakers[s].assignment.Unknown? || r.speakers[s].assignment.person in r.persons)
  }

  /** At most one confirmed speaker a person a meeting. */
  ghost predicate OneSpeakerEach<E>(r: Rows<E>) {
    forall s, t :: s in r.speakers && t in r.speakers && s != t ==> !SamePerson(r.speakers[s], r.speakers[t])
  }

  /** Two speakers of one meeting confirmed to one person. */
  ghost predicate SamePerson<E>(s: Speaker<E>, t: Speaker<E>) {
    s.meeting == t.meeting && s.assignment.Confirmed? && s.assignment == t.assignment
  }

  ghost predicate Good<E>(v: Vectors<E>, r: Rows<E>) {
    VoicesHold(v, r) && SegmentsHold(r) && SpeakersHold(r)
  }

  /** A voice only needs refreshing for the persons a change touched. */
  lemma RefreshRestores<E>(v: Vectors<E>, before: Rows<E>, r: Rows<E>, ids: set<Id>)
    requires VoicesHold(v, before)
    requires forall p :: p in r.persons && p !in ids ==>
      p in before.persons && r.persons[p].voice == before.persons[p].voice && Samples(r, p) == Samples(before, p)
    ensures VoicesHold(v, Refreshed(v, r, ids))
  {
    hide VoiceOf;
    var after := Refreshed(v, r, ids);
    forall p | p in after.persons ensures after.persons[p].voice == VoiceOf(v, Samples(after, p)) {
      assert Samples(after, p) == Samples(r, p);
    }
  }

  /** Merging rows leaves the samples of every person it does not name. */
  lemma MergeRowsLeavesOthers<E>(v: Vectors<E>, r: Rows<E>, source: Id, target: Id, meeting: Id, p: Id)
    requires SpeakersHold(r) && source != target
    requires MergeRows(v, r, source, target, meeting).Done?
    requires p !in MergeRows(v, r, source, target, meeting).value.persons
    ensures Samples(MergeRows(v, r, source, target, meeting).value.rows, p) == Samples(r, p)
  {
    var m := MergeRows(v, r, source, target, meeting).value;
    assert r.speakers[target].assignment != Confirmed(p) && r.speakers[source].assignment != Confirmed(p);
  }

  lemma MergeRowsKeeps<E>(v: Vectors<E>, r: Rows<E>, source: Id, target: Id, meeting: Id)
    requires SegmentsHold(r) && SpeakersHold(r) && source != target
    requires MergeRows(v, r, source, target, meeting).Done?
    ensures var after := MergeRows(v, r, source, target, meeting).value.rows;
      && SegmentsHold(after) && SpeakersHold(after) && source !in after.speakers
      && after.persons == r.persons && after.meetings == r.meetings
  {}

  lemma MergeRowsOneEach<E>(v: Vectors<E>, r: Rows<E>, source: Id, target: Id, meeting: Id)
    requires OneSpeakerEach(r) && source != target
    requires MergeRows(v, r, source, target, meeting).Done?
    ensures OneSpeakerEach(MergeRows(v, r, source, target, meeting).value.rows)
  {
    var after := MergeRows(v, r, source, target, meeting).value.rows;
    forall s, t | s in after.speakers && t in after.speakers && s != t
      ensures !SamePerson(after.speakers[s], after.speakers[t])
    {
      assert !SamePerson(r.speakers[s], r.speakers[t]);
      // The target may have taken the source's assignment.
      assert s != target ==> !SamePerson(r.speakers[s], r.speakers[source]);
      assert t != target ==> !SamePerson(r.speakers[source], r.speakers[t]);
    }
  }

  /** Refreshing voices touches no speaker and no segment. */
  lemma RefreshKeeps<E>(v: Vectors<E>, r: Rows<E>, ids: set<Id>)
    requires SegmentsHold(r) && SpeakersHold(r)
    ensures SegmentsHold(Refreshed(v, r, ids)) && SpeakersHold(Refreshed(v, r, ids))
    ensures OneSpeakerEach(r) ==> OneSpeakerEach(Refreshed(v, r, ids))
  {
    hide VoiceOf;
  }

  lemma MergeSpeakersKeeps<E>(v: Vectors<E>, r: Rows<E>, source: Id, target: Id, meeting: Id)
    requires Good(v, r) && MergeSpeakers(v, r, source, target, meeting).Done?
    ensures Good(v, MergeSpeakers(v, r, source, target, meeting).value)
    ensures OneSpeakerEach(r) ==> OneSpeakerEach(MergeSpeakers(v, r, source, target, meeting).value)
  {
    if source != target {
      hide VoiceOf, MergeRows, Refreshed, SegmentsHold, SpeakersHold, OneSpeakerEach;
      var m := MergeRows(v, r, source, target, meeting).value;
      MergeRowsKeeps(v, r, source, target, meeting);
      if OneSpeakerEach(r) { MergeRowsOneEach(v, r, source, target, meeting); }
      forall p | p in m.rows.persons && p !in m.persons ensures Samples(m.rows, p) == Samples(r, p) {
        MergeRowsLeavesOthers(v, r, source, target, meeting, p);
      }
      RefreshRestores(v, r, m.rows, m.persons);
      RefreshKeeps(v, m.rows, m.persons);
    }
  }

  // Confirming.

  /** What a confirmation does before it looks for an owner. */
  function Prepared<E>(r: Rows<E>, speaker: Id, person: Id, given: Person<E>): Rows<E> {
    r.(suggestions := r.suggestions - {speaker},
       persons := if person in r.persons then r.persons else r.persons[person := given])
  }

  lemma ClipLeavesSamples<E>(r: Rows<E>, speaker: Id, audioExists: bool, p: Id)
    ensures Samples(ClipDropped(r, speaker, audioExists), p) == Samples(r, p)
  {}

  lemma ClipKeeps<E>(r: Rows<E>, speaker: Id, audioExists: bool)
    requires SegmentsHold(r) && SpeakersHold(r)
    ensures var after := ClipDropped(r, speaker, audioExists);
      after.persons == r.persons && SegmentsHold(after) && SpeakersHold(after)
  {}

  lemma ClipOneEach<E>(r: Rows<E>, speaker: Id, audioExists: bool)
    requires OneSpeakerEach(r)
    ensures OneSpeakerEach(ClipDropped(r, speaker, audioExists))
  {
    var after := ClipDropped(r, speaker, audioExists);
    forall s, t | s in after.speakers && t in after.speakers && s != t
      ensures !SamePerson(after.speakers[s], after.speakers[t])
    {
      assert !SamePerson(r.speakers[s], r.speakers[t]);
    }
  }

  /** The speaker takes the person's name where no other speaker of the meeting has it. */
  function Renamed<E>(r: Rows<E>, speaker: Id, person: Id): Rows<E>
    requires speaker in r.speakers
  {
    r.(speakers := r.speakers[speaker := r.speakers[speaker].(assignment := Confirmed(person))])
  }

  lemma RenamedKeeps<E>(r: Rows<E>, speaker: Id, person: Id)
    requires SegmentsHold(r) && SpeakersHold(r) && speaker in r.speakers && person in r.persons
    ensures SegmentsHold(Renamed(r, speaker, person)) && SpeakersHold(Renamed(r, speaker, person))
    ensures OneSpeakerEach(r) && Owners(r, speaker, person) == {} ==> OneSpeakerEach(Renamed(r, speaker, person))
  {
    var after := Renamed(r, speaker, person);
    if OneSpeakerEach(r) && Owners(r, speaker, person) == {} {
      forall s, t | s in after.speakers && t in after.speakers && s != t
        ensures !SamePerson(after.speakers[s], after.speakers[t])
      {
        assert !SamePerson(r.speakers[s], r.speakers[t]);
        assert s != speaker ==> s !in Owners(r, speaker, person);
        assert t != speaker ==> t !in Owners(r, speaker, person);
      }
    }
  }

  lemma RenamedLeavesOthers<E>(r: Rows<E>, speaker: Id, person: Id, p: Id)
    requires speaker in r.speakers && p != person && r.speakers[speaker].assignment != Confirmed(p)
    ensures Samples(Renamed(r, speaker, person), p) == Samples(r, p)
  {}

  /** Main result: confirming keeps the stored voices, the segments, the foreign keys and one
      confirmed speaker a person a meeting. */
  lemma ConfirmKeeps<E>(v: Vectors<E>, r: Rows<E>, speaker: Id, person: Id, given: Person<E>, owner: Option<Id>, audioExists: bool)
    requires Good(v, r) && speaker in r.speakers && IsOwner(r, speaker, person, owner)
    ensures Confirm(v, r, speaker, person, given, owner, audioExists).Done?
    ensures Good(v, Confirm(v, r, speaker, person, given, owner, audioExists).value)
    ensures OneSpeakerEach(r) ==> OneSpeakerEach(Confirm(v, r, speaker, person, given, owner, audioExists).value)
  {
    hide VoiceOf, OneSpeakerEach;
    var known := Prepared(r, speaker, person, given);
    assert OneSpeakerEach(r) ==> OneSpeakerEach(known) by { PreparedKeeps(v, r, speaker, person, given); }
    PreparedKeeps(v, r, speaker, person, given);
    var was := r.speakers[speaker].assignment;
    if was != Confirmed(person) {
      if owner.None? {
        ConfirmFresh(v, r, speaker, person, given, audioExists);
      } else {
        ConfirmOwned(v, r, speaker, person, given, owner.value, audioExists);
      }
    }
  }

  lemma PreparedKeeps<E>(v: Vectors<E>, r: Rows<E>, speaker: Id, person: Id, given: Person<E>)
    requires Good(v, r) && speaker in r.speakers
    ensures var known := Prepared(r, speaker, person, given);
      && SegmentsHold(known) && SpeakersHold(known)
      && (OneSpeakerEach(r) ==> OneSpeakerEach(known))
      && (person in r.persons ==> Good(v, known))
      && known.speakers == r.speakers && person in known.persons
      && (forall p :: p in known.persons && p != person ==> p in r.persons && known.persons[p] == r.persons[p])
      && forall p :: Samples(known, p) == Samples(r, p)
  {
    hide VoiceOf;
    var known := Prepared(r, speaker, person, given);
    forall p ensures Samples(known, p) == Samples(r, p) {}
  }

  lemma ConfirmFresh<E>(v: Vectors<E>, r: Rows<E>, speaker: Id, person: Id, given: Person<E>, audioExists: bool)
    requires Good(v, r) && speaker in r.speakers && Owners(r, speaker, person) == {}
    requires r.speakers[speaker].assignment != Confirmed(person)
    ensures Confirm(v, r, speaker, person, given, None, audioExists).Done?
    ensures Good(v, Confirm(v, r, speaker, person, given, None, audioExists).value)
    ensures OneSpeakerEach(r) ==> OneSpeakerEach(Confirm(v, r, speaker, person, given, None, audioExists).value)
  {
    hide VoiceOf, OneSpeakerEach, SegmentsHold, SpeakersHold, Samples, Refreshed, ClipDropped, Prepared, VoicesHold;
    var known := Prepared(r, speaker, person, given);
    PreparedKeeps(v, r, speaker, person, given);
    var renamed := Renamed(known, speaker, person);
    var after := ClipDropped(renamed, speaker, audioExists);
    var ids := {person} + PersonsOf(r.speakers[speaker].assignment);
    RenamedKeeps(known, speaker, person);
    ClipKeeps(renamed, speaker, audioExists);
    if OneSpeakerEach(r) { ClipOneEach(renamed, speaker, audioExists); }
    forall p | p in after.persons && p !in ids
      ensures p in r.persons && after.persons[p].voice == r.persons[p].voice && Samples(after, p) == Samples(r, p)
    {
      ClipLeavesSamples(renamed, speaker, audioExists, p);
      RenamedLeavesOthers(known, speaker, person, p);
    }
    RefreshRestores(v, r, after, ids);
    RefreshKeeps(v, after, ids);
  }

  lemma TakenOverKeeps<E>(v: Vectors<E>, r: Rows<E>, speaker: Id, owner: Id, person: Id, audioExists: bool)
    requires SegmentsHold(r) && SpeakersHold(r) && speaker in r.speakers && owner in Owners(r, speaker, person)
    ensures var t := TakenOver(v, r, speaker, owner, r.speakers[speaker].meeting, audioExists);
      && t.Done? && SegmentsHold(t.value.rows) && SpeakersHold(t.value.rows)
      && t.value.rows.persons == r.persons
      && (OneSpeakerEach(r) ==> OneSpeakerEach(t.value.rows))
  {
    var meeting := r.speakers[speaker].meeting;
    assert MergeRows(v, r, speaker, owner, meeting).Done?;
    hide OneSpeakerEach, SegmentsHold, SpeakersHold, MergeRows, ClipDropped, Owners;
    var m := MergeRows(v, r, speaker, owner, meeting).value;
    MergeRowsKeeps(v, r, speaker, owner, meeting);
    ClipKeeps(m.rows, owner, audioExists);
    if OneSpeakerEach(r) {
      MergeRowsOneEach(v, r, speaker, owner, meeting);
      ClipOneEach(m.rows, owner, audioExists);
    }
  }

  lemma TakenOverLeavesOthers<E>(v: Vectors<E>, r: Rows<E>, speaker: Id, owner: Id, person: Id, audioExists: bool, p: Id)
    requires SpeakersHold(r) && speaker in r.speakers && owner in Owners(r, speaker, person)
    requires TakenOver(v, r, speaker, owner, r.speakers[speaker].meeting, audioExists).Done?
    requires p !in TakenOver(v, r, speaker, owner, r.speakers[speaker].meeting, audioExists).value.persons
    ensures Samples(TakenOver(v, r, speaker, owner, r.speakers[speaker].meeting, audioExists).value.rows, p) == Samples(r, p)
  {
    var meeting := r.speakers[speaker].meeting;
    hide SpeakersHold, MergeRows, ClipDropped, Samples;
    MergeRowsLeavesOthers(v, r, speaker, owner, meeting, p);
    ClipLeavesSamples(MergeRows(v, r, speaker, owner, meeting).value.rows, owner, audioExists, p);
  }

  lemma ConfirmOwned<E>(v: Vectors<E>, r: Rows<E>, speaker: Id, person: Id, given: Person<E>, owner: Id, audioExists: bool)
    requires Good(v, r) && speaker in r.speakers && owner in Owners(r, speaker, person)
    requires r.speakers[speaker].assignment != Confirmed(person)
    ensures Confirm(v, r, speaker, person, given, Some(owner), audioExists).Done?
    ensures Good(v, Confirm(v, r, speaker, person, given, Some(owner), audioExists).value)
    ensures OneSpeakerEach(r) ==> OneSpeakerEach(Confirm(v, r, speaker, person, given, Some(owner), audioExists).value)
  {
    hide VoiceOf, OneSpeakerEach, SegmentsHold, SpeakersHold, Samples, Refreshed, TakenOver, Prepared, VoicesHold;
    var known := Prepared(r, speaker, person, given);
    PreparedKeeps(v, r, speaker, person, given);
    assert owner in Owners(known, speaker, person);
    TakenOverKeeps(v, known, speaker, owner, person, audioExists);
    var m := TakenOver(v, known, speaker, owner, r.speakers[speaker].meeting, audioExists).value;
    var ids := {person} + PersonsOf(r.speakers[speaker].assignment) + m.persons;
    forall p | p in m.rows.persons && p !in ids
      ensures p in r.persons && m.rows.persons[p].voice == r.persons[p].voice && Samples(m.rows, p) == Samples(r, p)
    {
      TakenOverLeavesOthers(v, known, speaker, owner, person, audioExists, p);
    }
    RefreshRestores(v, r, m.rows, ids);
    RefreshKeeps(v, m.rows, ids);
  }

  // Merging persons.

  lemma PersonsMergedKeeps<E>(r: Rows<E>, keep: Id, remove: Id)
    requires SegmentsHold(r) && SpeakersHold(r) && keep in r.persons && remove in r.persons && keep != remove
    ensures SegmentsHold(PersonsMerged(r, keep, remove)) && SpeakersHold(PersonsMerged(r, keep, remove))
  {}

  lemma PersonsMergedLeavesOthers<E>(r: Rows<E>, keep: Id, remove: Id, p: Id)
    requires keep in r.persons && remove in r.persons && p != keep && p in PersonsMerged(r, keep, remove).persons
    ensures p in r.persons && PersonsMerged(r, keep, remove).persons[p] == r.persons[p]
    ensures Samples(PersonsMerged(r, keep, remove), p) == Samples(r, p)
  {}

  lemma MergePersonsKeeps<E>(v: Vectors<E>, r: Rows<E>, keep: Id, remove: Id)
    requires Good(v, r) && MergePersons(v, r, keep, remove).Done?
    ensures Good(v, MergePersons(v, r, keep, remove).value)
  {
    if keep != remove {
      var after := PersonsMerged(r, keep, remove);
      hide VoiceOf, Refreshed, VoicesHold, SegmentsHold, SpeakersHold, Samples, PersonsMerged;
      PersonsMergedKeeps(r, keep, remove);
      forall p | p in after.persons && p != keep
        ensures p in r.persons && after.persons[p].voice == r.persons[p].voice && Samples(after, p) == Samples(r, p)
      {
        PersonsMergedLeavesOthers(r, keep, remove, p);
      }
      RefreshRestores(v, r, after, {keep});
      RefreshKeeps(v, after, {keep});
    }
  }

  /** One meeting has a speaker confirmed to each of two persons. */
  ghost predicate BothSpeak<E>(r: Rows<E>, a: Id, b: Id) {
    exists s, t :: Speaks(r, s, a) && Speaks(r, t, b) && r.speakers[s].meeting == r.speakers[t].meeting
  }

  ghost predicate Speaks<E>(r: Rows<E>, s: Id, p: Id) {
    s in r.speakers && r.speakers[s].assignment == Confirmed(p)
  }

  /** Merging persons keeps one confirmed speaker a person a meeting exactly where no meeting had both
      of them. */
  lemma MergePersonsOneEach<E>(v: Vectors<E>, r: Rows<E>, keep: Id, remove: Id)
    requires OneSpeakerEach(r) && keep != remove && MergePersons(v, r, keep, remove).Done?
    ensures OneSpeakerEach(MergePersons(v, r, keep, remove).value) <==> !BothSpeak(r, keep, remove)
  {
    hide VoiceOf;
    var after := MergePersons(v, r, keep, remove).value;
    if BothSpeak(r, keep, remove) {
      var s, t :| Speaks(r, s, keep) && Speaks(r, t, remove) && r.speakers[s].meeting == r.speakers[t].meeting;
      assert SamePerson(after.speakers[s], after.speakers[t]);
    } else {
      forall s, t | s in after.speakers && t in after.speakers && s != t
        ensures !SamePerson(after.speakers[s], after.speakers[t])
      {
        assert !SamePerson(r.speakers[s], r.speakers[t]);
        assert !(Speaks(r, s, keep) && Speaks(r, t, remove) && r.speakers[s].meeting == r.speakers[t].meeting);
        assert !(Speaks(r, t, keep) && Speaks(r, s, remove) && r.speakers[s].meeting == r.speakers[t].meeting);
      }
    }
  }

  /** The guard can fail: one meeting with a speaker of each person. */
  lemma MergingTwoWhoMetLeavesTwoSpeakers(v: Vectors<int>)
    ensures exists r: Rows<int> ::
              && OneSpeakerEach(r) && SpeakersHold(r) && SegmentsHold(r) && MergePersons(v, r, 0, 1).Done?
              && !OneSpeakerEach(MergePersons(v, r, 0, 1).value)
  {
    hide VoiceOf, Refreshed, PersonsMerged;
    var person := Person(None, Voice(None, 0));
    var s0 := Speaker(0, "", Confirmed(0), None, None, None, 0);
    var s1 := Speaker(0, "", Confirmed(1), None, None, None, 0);
    var r: Rows<int> := Rows(map[0 := 0], map[0 := person, 1 := person], map[0 := s0, 1 := s1], map[], map[], map[], {});
    assert Speaks(r, 0, 0) && Speaks(r, 1, 1);
    assert OneSpeakerEach(r) && SpeakersHold(r) && SegmentsHold(r);
    assert BothSpeak(r, 0, 1);
    MergePersonsOneEach(v, r, 0, 1);
  }

  // What changes, row by row, and nothing else.

  /** The same references; those to `from` are to `to` now, and every other is as it was. */
  ghost predicate Repoints(refs: map<Id, Option<Id>>, refs': map<Id, Option<Id>>, from: Id, to: Id) {
    && refs'.Keys == refs.Keys
    && forall x :: x in refs ==> refs'[x] == if refs[x] == Some(from) then Some(to) else refs[x]
  }

  /** Every speaker but these is as it was. */
  ghost predicate OthersStay<E>(speakers: map<Id, Speaker<E>>, speakers': map<Id, Speaker<E>>, but: set<Id>) {
    forall s :: s !in but ==> (s in speakers <==> s in speakers') && (s in speakers ==> speakers'[s] == speakers[s])
  }

  /** Persons keep their rows up to a voice recomputed. */
  ghost predicate PersonsStay<E>(r: Rows<E>, r': Rows<E>) {
    forall p :: p in r.persons ==> p in r'.persons && r'.persons[p].email == r.persons[p].email
  }

  /** `kept` is the target with what the source adds: its name where the target has none, its clip with its
      range where the target has none, the mean of the voices, the larger confidence. */
  ghost predicate Takes<E>(v: Vectors<E>, source: Speaker<E>, target: Speaker<E>, kept: Speaker<E>, clipStays: bool) {
    var clip := if target.clipRange.Some? then target else source;
    && kept.meeting == target.meeting && kept.cluster == target.cluster
    && (target.assignment.Unknown? ==> kept.assignment == source.assignment)
    && (!target.assignment.Unknown? ==> kept.assignment == target.assignment)
    && kept.clipRange == clip.clipRange && kept.clipFile == (if clipStays then clip.clipFile else None)
    && kept.confidence >= source.confidence && kept.confidence >= target.confidence
    && (kept.confidence == source.confidence || kept.confidence == target.confidence)
    && (source.embedding.None? ==> kept.embedding == target.embedding)
    && (target.embedding.None? ==> kept.embedding == source.embedding)
    && (source.embedding.Some? && target.embedding.Some? ==>
          kept.embedding == Some(v.mix(target.embedding.value, source.embedding.value)))
  }

  /** Main result: a merge of speakers commits exactly for two speakers of the meeting; the source is gone,
      the target has taken over from it, the segments that named it name the target, and no other speaker,
      segment, participant, task or person has changed. */
  lemma MergeSpeakersMovesExactly<E>(v: Vectors<E>, r: Rows<E>, source: Id, target: Id, meeting: Id)
    requires source != target
    ensures var done := MergeSpeakers(v, r, source, target, meeting);
      && (done.Done? <==>
            && source in r.speakers && target in r.speakers
            && r.speakers[source].meeting == meeting && r.speakers[target].meeting == meeting)
      && (done.Done? ==>
            && var r' := done.value;
            && source !in r'.speakers && target in r'.speakers && OthersStay(r.speakers, r'.speakers, {source, target})
            && Takes(v, r.speakers[source], r.speakers[target], r'.speakers[target], true)
            && Repoints(r.segments, r'.segments, source, target)
            && r'.participants == r.participants && r'.assignees == r.assignees && r'.meetings == r.meetings
            && r'.suggestions == r.suggestions - {source} && r'.persons.Keys == r.persons.Keys && PersonsStay(r, r'))
  {
    hide VoiceOf, Samples;
  }

  /** The source's clip goes exactly where the target keeps one of its own: none is lost and none is shared. */
  lemma MergedClipIsKeptOrRemoved<E>(v: Vectors<E>, r: Rows<E>, source: Id, target: Id, meeting: Id)
    requires source != target && MergeRows(v, r, source, target, meeting).Done?
    ensures var m := MergeRows(v, r, source, target, meeting).value;
      && source in r.speakers && target in r.speakers && target in m.rows.speakers
      && var kept := m.rows.speakers[target].clipFile;
      && (r.speakers[target].clipRange.Some? ==> kept == r.speakers[target].clipFile && m.clip == r.speakers[source].clipFile)
      && (r.speakers[target].clipRange.None? ==> kept == r.speakers[source].clipFile && m.clip == None)
  {}

  /** What every confirmation does: it answers the name suggestion, and adds the person if need be. */
  ghost predicate Answers<E>(r: Rows<E>, r': Rows<E>, speaker: Id, person: Id, given: Person<E>) {
    && r'.persons.Keys == r.persons.Keys + {person} && PersonsStay(r, r')
    && (person !in r.persons ==> r'.persons[person].email == given.email)
    && r'.participants == r.participants && r'.assignees == r.assignees && r'.meetings == r.meetings
    && r'.suggestions == r.suggestions - {speaker}
  }

  /** Where the person has no speaker in the meeting: the speaker has the name, and its clip file as long as
      there is audio. */
  ghost predicate TakesTheName<E>(r: Rows<E>, r': Rows<E>, speaker: Id, person: Id, audioExists: bool)
    requires speaker in r.speakers
  {
    var was := r.speakers[speaker];
    && r'.segments == r.segments && speaker in r'.speakers && OthersStay(r.speakers, r'.speakers, {speaker})
    && r'.speakers[speaker] == was.(assignment := Confirmed(person), clipFile := if audioExists then was.clipFile else None)
  }

  /** Where it has: that one takes the speaker over with its segments. */
  ghost predicate IsTakenOver<E>(v: Vectors<E>, r: Rows<E>, r': Rows<E>, speaker: Id, owner: Id, audioExists: bool)
    requires speaker in r.speakers && owner in r.speakers
  {
    && speaker !in r'.speakers && owner in r'.speakers && OthersStay(r.speakers, r'.speakers, {speaker, owner})
    && Repoints(r.segments, r'.segments, speaker, owner)
    && Takes(v, r.speakers[speaker], r.speakers[owner], r'.speakers[owner], audioExists)
  }

  /** Main result: a confirmation gives the speaker the person's name, or, where the person has a speaker in
      the meeting, that one takes it over with its segments; it changes no other speaker, segment,
      participant or task. */
  lemma ConfirmMovesExactly<E>(v: Vectors<E>, r: Rows<E>, speaker: Id, person: Id, given: Person<E>, owner: Option<Id>, audioExists: bool)
    requires speaker in r.speakers && IsOwner(r, speaker, person, owner)
    ensures Confirm(v, r, speaker, person, given, owner, audioExists).Done?
    ensures var r', was := Confirm(v, r, speaker, person, given, owner, audioExists).value, r.speakers[speaker].assignment;
      && Answers(r, r', speaker, person, given)
      && (was == Confirmed(person) ==> r'.speakers == r.speakers && r'.segments == r.segments)
      && (was != Confirmed(person) && owner.None? ==> TakesTheName(r, r', speaker, person, audioExists))
      && (was != Confirmed(person) && owner.Some? ==> IsTakenOver(v, r, r', speaker, owner.value, audioExists))
  {
    hide VoiceOf, Samples, OthersStay, Repoints, Takes, Refreshed, ClipDropped, TakenOver, Owners;
    var known := Prepared(r, speaker, person, given);
    var was := r.speakers[speaker].assignment;
    if was == Confirmed(person) {
    } else if owner.None? {
      NameTaken(v, r, speaker, person, given, audioExists);
      RefreshedRows(v, ClipDropped(Renamed(known, speaker, person), speaker, audioExists), {person} + PersonsOf(was));
    } else {
      ConfirmOwnedMoves(v, r, speaker, person, given, owner.value, audioExists);
      var m := TakenOver(v, known, speaker, owner.value, r.speakers[speaker].meeting, audioExists).value;
      RefreshedRows(v, m.rows, {person} + PersonsOf(was) + m.persons);
    }
  }

  /** Refreshing voices changes voices alone. */
  lemma RefreshedRows<E>(v: Vectors<E>, r: Rows<E>, ids: set<Id>)
    ensures Refreshed(v, r, ids) == r.(persons := Refreshed(v, r, ids).persons)
    ensures Refreshed(v, r, ids).persons.Keys == r.persons.Keys && PersonsStay(r, Refreshed(v, r, ids))
  {
    hide VoiceOf, Samples;
  }

  lemma NameTaken<E>(v: Vectors<E>, r: Rows<E>, speaker: Id, person: Id, given: Person<E>, audioExists: bool)
    requires speaker in r.speakers
    ensures var r' := ClipDropped(Renamed(Prepared(r, speaker, person, given), speaker, person), speaker, audioExists);
      && TakesTheName(r, r', speaker, person, audioExists)
      && r' == Prepared(r, speaker, person, given).(speakers := r'.speakers)
  {}

  lemma ConfirmOwnedMoves<E>(v: Vectors<E>, r: Rows<E>, speaker: Id, person: Id, given: Person<E>, owner: Id, audioExists: bool)
    requires speaker in r.speakers && owner in Owners(r, speaker, person) && r.speakers[speaker].assignment != Confirmed(person)
    ensures var known := Prepared(r, speaker, person, given);
      var done := TakenOver(v, known, speaker, owner, r.speakers[speaker].meeting, audioExists);
      && done.Done? && IsTakenOver(v, r, done.value.rows, speaker, owner, audioExists)
      && done.value.rows == known.(speakers := done.value.rows.speakers, segments := done.value.rows.segments,
                                   suggestions := done.value.rows.suggestions)
      && done.value.rows.suggestions == r.suggestions - {speaker}
  {
    var known := Prepared(r, speaker, person, given);
    MergeRowsMoves(v, known, speaker, owner, r.speakers[speaker].meeting);
    var m := MergeRows(v, known, speaker, owner, r.speakers[speaker].meeting);
    hide MergeRows, Repoints;
    ClipGoes(m.value.rows, owner, audioExists);
    hide ClipDropped;
  }

  lemma MergeRowsMoves<E>(v: Vectors<E>, r: Rows<E>, source: Id, target: Id, meeting: Id)
    requires source != target && source in r.speakers && target in r.speakers
    requires r.speakers[source].meeting == meeting == r.speakers[target].meeting
    ensures var m := MergeRows(v, r, source, target, meeting);
      && m.Done? && IsTakenOver(v, r, m.value.rows, source, target, true)
      && m.value.rows == r.(speakers := m.value.rows.speakers, segments := m.value.rows.segments,
                            suggestions := r.suggestions - {source})
  {}

  lemma ClipGoes<E>(r: Rows<E>, speaker: Id, audioExists: bool)
    requires speaker in r.speakers
    ensures var r' := ClipDropped(r, speaker, audioExists);
      && r' == r.(speakers := r'.speakers) && speaker in r'.speakers && OthersStay(r.speakers, r'.speakers, {speaker})
      && r'.speakers[speaker] == r.speakers[speaker].(clipFile := if audioExists then r.speakers[speaker].clipFile else None)
  {}

  /** Main result: a merge of persons commits exactly for two that exist; everything that named the removed
      one names the kept one in the same way, the kept one has an email if either had, and no other row has
      changed. */
  lemma MergePersonsMovesExactly<E>(v: Vectors<E>, r: Rows<E>, keep: Id, remove: Id)
    requires keep != remove
    ensures var done := MergePersons(v, r, keep, remove);
      && (done.Done? <==> keep in r.persons && remove in r.persons)
      && (done.Done? ==>
            && var r' := done.value;
            && r'.persons.Keys == r.persons.Keys - {remove}
            && (forall p :: p in r'.persons && p != keep ==> r'.persons[p] == r.persons[p])
            && r'.persons[keep].email == (if r.persons[keep].email.Some? then r.persons[keep].email else r.persons[remove].email)
            && Repoints(r.participants, r'.participants, remove, keep) && Repoints(r.assignees, r'.assignees, remove, keep)
            && r'.segments == r.segments && r'.meetings == r.meetings && r'.suggestions == r.suggestions
            && r'.speakers.Keys == r.speakers.Keys
            && forall s :: s in r.speakers ==> SameSpeaker(r.speakers[s], r'.speakers[s], remove, keep))
  {
    hide VoiceOf, Samples;
  }

  /** The speaker as it was, but for the person removed. */
  ghost predicate SameSpeaker<E>(s: Speaker<E>, s': Speaker<E>, remove: Id, keep: Id) {
    && s' == s.(assignment := s'.assignment)
    && (s.assignment == Suggested(remove) ==> s'.assignment == Suggested(keep))
    && (s.assignment == Confirmed(remove) ==> s'.assignment == Confirmed(keep))
    && (s.assignment != Suggested(remove) && s.assignment != Confirmed(remove) ==> s'.assignment == s.assignment)
  }

  // Voices, from the rows.

  /** The speakers confirmed to the person whose voice can be used. */
  ghost function Usable<E>(v: Vectors<E>, r: Rows<E>, p: Id): set<Id> {
    set s | s in r.speakers && r.speakers[s].assignment == Confirmed(p) && r.speakers[s].meeting in r.meetings
            && r.speakers[s].embedding.Some? && v.fits(r.speakers[s].embedding.value)
  }

  /** Newest meeting first, then by id. */
  ghost predicate Newer<E>(r: Rows<E>, a: Id, b: Id) {
    && a in r.speakers && b in r.speakers && r.speakers[a].meeting in r.meetings && r.speakers[b].meeting in r.meetings
    && var at, bt := r.meetings[r.speakers[a].meeting], r.meetings[r.speakers[b].meeting];
    at > bt || (at == bt && a < b)
  }

  ghost function Embeddings<E>(v: Vectors<E>, r: Rows<E>, p: Id, ids: seq<Id>): (e: seq<E>)
    requires forall i :: i in ids ==> i in Usable(v, r, p)
    ensures |e| == |ids|
    ensures forall k :: 0 <= k < |ids| ==> ids[k] in r.speakers && r.speakers[ids[k]].embedding == Some(e[k])
  {
    if ids == [] then [] else assert ids[0] in Usable(v, r, p); [r.speakers[ids[0]].embedding.value] + Embeddings(v, r, p, ids[1..])
  }

  /** Main result: a stored voice is the mean of the newest usable speakers confirmed to the person, newest
      first, fifty at most and all of them where there are no more. */
  lemma VoiceIsTheMeanOfTheNewest<E>(v: Vectors<E>, r: Rows<E>, p: Id) returns (ids: seq<Id>)
    requires VoicesHold(v, r) && p in r.persons
    ensures forall i :: i in ids ==> i in Usable(v, r, p)
    ensures |ids| == if |Usable(v, r, p)| < VOICE_WINDOW then |Usable(v, r, p)| else VOICE_WINDOW
    ensures forall i, j :: 0 <= i < j < |ids| ==> Newer(r, ids[i], ids[j])
    ensures forall i, s :: i in ids && s in Usable(v, r, p) && s !in ids ==> Newer(r, i, s)
    ensures r.persons[p].voice == Voice(v.mean(Embeddings(v, r, p, ids)), |ids|)
  {
    ids := Newest(v, Samples(r, p));
    NewestAreUsable(v, r, p);
    hide Newest, VoicesHold, Usable, Samples, Newer, VoiceOf;
    VoiceIs(v, r, p);
    VoiceFrom(v, Samples(r, p));
    SameEmbeddings(v, r, p, ids, Samples(r, p));
  }

  lemma NewestAreUsable<E>(v: Vectors<E>, r: Rows<E>, p: Id)
    ensures var ids, usable := Newest(v, Samples(r, p)), Usable(v, r, p);
      && (forall i :: i in ids ==>
            i in usable && i in r.speakers && i in Samples(r, p) && r.speakers[i].embedding == Some(Samples(r, p)[i].embedding))
      && |ids| == (if |usable| < VOICE_WINDOW then |usable| else VOICE_WINDOW)
      && (forall i, j :: 0 <= i < j < |ids| ==> Newer(r, ids[i], ids[j]))
      && (forall i, s :: i in ids && s in usable && s !in ids ==> Newer(r, i, s))
  {
    var samples := Samples(r, p);
    VoiceUsesTheNewest(v, samples);
    VoiceFrom(v, samples);
    NewestInOrder(v, samples);
    UsableAreSamples(v, r, p);
    hide Newest, FitOf, Usable, Samples, NotAfter, Newer, VoiceOf;
    var ids := Newest(v, samples);
    forall i, j | 0 <= i < j < |ids| ensures Newer(r, ids[i], ids[j]) {
      assert ids[i] in samples && ids[j] in samples && ids[i] != ids[j] && NotAfter(samples, ids[i], ids[j]);
    }
    forall i, s | i in ids && s in Usable(v, r, p) && s !in ids ensures Newer(r, i, s) {
      assert i in samples && s in samples && i != s && NotAfter(samples, i, s);
    }
  }

  lemma VoiceFrom<E>(v: Vectors<E>, samples: map<Id, Sample<E>>)
    ensures var n := Newest(v, samples);
      VoiceOf(v, samples) == Voice(v.mean(seq(|n|, k requires 0 <= k < |n| => samples[n[k]].embedding)), |n|)
  {
    hide Newest;
  }

  lemma SameEmbeddings<E>(v: Vectors<E>, r: Rows<E>, p: Id, ids: seq<Id>, samples: map<Id, Sample<E>>)
    requires forall i :: i in ids ==> i in Usable(v, r, p) && i in samples && r.speakers[i].embedding == Some(samples[i].embedding)
    ensures Embeddings(v, r, p, ids) == seq(|ids|, k requires 0 <= k < |ids| => samples[ids[k]].embedding)
  {
    hide Usable;
    var (a, b) := (Embeddings(v, r, p, ids), seq(|ids|, k requires 0 <= k < |ids| => samples[ids[k]].embedding));
    hide Embeddings;
    forall k | 0 <= k < |ids| ensures a[k] == b[k] { assert ids[k] in ids; }
  }

  /** The samples of a person are its confirmed speakers with a voice, and their meetings' starts. */
  lemma UsableAreSamples<E>(v: Vectors<E>, r: Rows<E>, p: Id)
    ensures FitOf(v, Samples(r, p)) == Usable(v, r, p) <= Samples(r, p).Keys
    ensures forall s :: s in Samples(r, p) ==> s in r.speakers && r.speakers[s].embedding == Some(Samples(r, p)[s].embedding)
    ensures forall a, b :: a in Samples(r, p) && b in Samples(r, p) && a != b && NotAfter(Samples(r, p), a, b) ==> Newer(r, a, b)
  {}

  lemma NewestInOrder<E>(v: Vectors<E>, samples: map<Id, Sample<E>>)
    ensures var n := Newest(v, samples); forall i, j :: 0 <= i < j < |n| ==> n[i] != n[j] && NotAfter(samples, n[i], n[j])
  {
    FittingInOrder(v, samples, Ordered(samples, samples.Keys));
    hide Ordered, Fitting;
  }

  // Taking a name back.

  lemma ConfirmedFresh<E>(v: Vectors<E>, r: Rows<E>, speaker: Id, person: Id, given: Person<E>, audioExists: bool)
    requires speaker in r.speakers && r.speakers[speaker].assignment != Confirmed(person)
    ensures var c := Confirm(v, r, speaker, person, given, None, audioExists);
      && c.Done? && person in c.value.persons && c.value.meetings == r.meetings
      && r.persons.Keys <= c.value.persons.Keys
      && c.value.speakers.Keys == r.speakers.Keys
      && (forall s :: s in r.speakers && s != speaker ==> c.value.speakers[s] == r.speakers[s])
      && c.value.speakers[speaker].meeting == r.speakers[speaker].meeting
      && c.value.speakers[speaker].embedding == r.speakers[speaker].embedding
      && c.value.speakers[speaker].assignment == Confirmed(person)
  {
    hide VoiceOf, Samples, TakenOver;
  }

  /** Main result: confirming a speaker to one person and then to another, neither of whom has a speaker
      in the meeting, gives the first person's voice back exactly. */
  lemma SecondNameTakesTheFirstBack<E>(
      v: Vectors<E>, r: Rows<E>, speaker: Id, a: Id, b: Id, givenA: Person<E>, givenB: Person<E>, audioA: bool, audioB: bool)
    requires Good(v, r) && speaker in r.speakers && a in r.persons && a != b
    requires Owners(r, speaker, a) == {} && Owners(r, speaker, b) == {}
    requires r.speakers[speaker].assignment != Confirmed(a)
    ensures var once := Confirm(v, r, speaker, a, givenA, None, audioA);
      && once.Done? && speaker in once.value.speakers && IsOwner(once.value, speaker, b, None)
      && var twice := Confirm(v, once.value, speaker, b, givenB, None, audioB);
      && twice.Done? && a in twice.value.persons && twice.value.persons[a].voice == r.persons[a].voice
  {
    hide VoiceOf, Confirm, VoicesHold, SegmentsHold, SpeakersHold;
    ConfirmedFresh(v, r, speaker, a, givenA, audioA);
    var once := Confirm(v, r, speaker, a, givenA, None, audioA).value;
    ConfirmKeeps(v, r, speaker, a, givenA, None, audioA);
    assert Owners(once, speaker, b) == Owners(r, speaker, b);
    ConfirmedFresh(v, once, speaker, b, givenB, audioB);
    var twice := Confirm(v, once, speaker, b, givenB, None, audioB).value;
    ConfirmKeeps(v, once, speaker, b, givenB, None, audioB);
    SamplesAgree(r, twice, speaker, a);
    VoiceIs(v, r, a);
    VoiceIs(v, twice, a);
  }

  lemma SamplesAgree<E>(r: Rows<E>, t: Rows<E>, speaker: Id, p: Id)
    requires t.meetings == r.meetings && t.speakers.Keys == r.speakers.Keys
    requires forall s :: s in r.speakers && s != speaker ==> t.speakers[s] == r.speakers[s]
    requires speaker in r.speakers
    requires r.speakers[speaker].assignment != Confirmed(p) && t.speakers[speaker].assignment != Confirmed(p)
    ensures Samples(t, p) == Samples(r, p)
  {}

  lemma VoiceIs<E>(v: Vectors<E>, r: Rows<E>, p: Id)
    requires VoicesHold(v, r) && p in r.persons
    ensures r.persons[p].voice == VoiceOf(v, Samples(r, p))
  {
    hide VoiceOf;
  }

  // The store that carries them out.

  lemma RefreshedTwice<E>(v: Vectors<E>, r: Rows<E>, a: set<Id>, b: set<Id>)
    ensures Refreshed(v, Refreshed(v, r, a), b) == Refreshed(v, r, a + b)
  {
    hide VoiceOf;
    var once := Refreshed(v, r, a);
    forall p ensures Samples(once, p) == Samples(r, p) {}
  }

  lemma RefreshedNone<E>(v: Vectors<E>, r: Rows<E>)
    ensures Refreshed(v, r, {}) == r
  {
    hide VoiceOf;
    assert Refreshed(v, r, {}).persons == r.persons;
  }

  /** The tables, changed in place. A refused operation is rolled back. */
  class PeopleStore<E> {
    const v: Vectors<E>
    var rows: Rows<E>

    constructor (v: Vectors<E>, rows: Rows<E>)
      ensures this.v == v && this.rows == rows
    {
      this.v := v;
      this.rows := rows;
    }

    method RefreshVoice(p: Id)
      modifies this
      ensures rows == Refreshed(v, old(rows), {p})
    {
      hide Newest, Samples;
      if p !in rows.persons {
        assert Refreshed(v, rows, {p}).persons == rows.persons;
        return;
      }
      var samples := Samples(rows, p);
      var newest := Newest(v, samples);
      var embeddings := seq(|newest|, k requires 0 <= k < |newest| => samples[newest[k]].embedding);
      var person := rows.persons[p].(voice := Voice(v.mean(embeddings), |embeddings|));
      rows := rows.(persons := rows.persons[p := person]);
      assert rows.persons == Refreshed(v, old(rows), {p}).persons;
    }

    method RefreshVoices(ids: set<Id>)
      modifies this
      ensures rows == Refreshed(v, old(rows), ids)
    {
      hide Refreshed;
      var rest := ids;
      RefreshedNone(v, rows);
      assert ids - rest == {};
      while rest != {}
        invariant rest <= ids
        invariant rows == Refreshed(v, old(rows), ids - rest)
        decreases |rest|
      {
        var p :| p in rest;
        RefreshVoice(p);
        RefreshedTwice(v, old(rows), ids - rest, {p});
        assert ids - (rest - {p}) == (ids - rest) + {p};
        rest := rest - {p};
      }
      assert ids - rest == ids;
    }

    method MergeSpeakerRows(source: Id, target: Id, meeting: Id) returns (merge: Outcome<(Option<nat>, set<Id>)>)
      modifies this
      ensures match MergeRows(v, old(rows), source, target, meeting) {
        case Done(m) => merge == Done((m.clip, m.persons)) && rows == m.rows
        case Refused(why) => merge == Refused(why) && rows == old(rows)
      }
    {
      if source == target { return Done((None, {})); }
      if source !in rows.speakers { return Refused(SpeakerNotFound); }
      if target !in rows.speakers { return Refused(SpeakerNotFound); }
      var merged, kept := rows.speakers[source], rows.speakers[target];
      if merged.meeting != meeting || kept.meeting != meeting { return Refused(SpeakersInDifferentMeetings); }
      var persons := PersonsOf(merged.assignment);
      match (kept.embedding, merged.embedding) {
        case (Some(l), Some(r)) => kept := kept.(embedding := Some(v.mix(l, r)));
        case (None, Some(r)) => kept := kept.(embedding := Some(r));
        case _ =>
      }
      if kept.assignment.Unknown? { kept := kept.(assignment := merged.assignment); }
      persons := persons + PersonsOf(kept.assignment);
      var clip := merged.clipFile;
      if kept.clipRange.None? {
        kept := kept.(clipRange := merged.clipRange, clipFile := merged.clipFile);
        clip := None;
      }
      if merged.confidence > kept.confidence { kept := kept.(confidence := merged.confidence); }
      rows := rows.(speakers := rows.speakers[target := kept]);
      rows := rows.(segments := Moved(rows.segments, source, target));
      rows := rows.(speakers := rows.speakers - {source}, suggestions := rows.suggestions - {source});
      return Done((clip, persons));
    }

    method Merge(source: Id, target: Id, meeting: Id) returns (clip: Outcome<Option<nat>>)
      modifies this
      ensures match MergeSpeakers(v, old(rows), source, target, meeting) {
        case Done(after) => clip.Done? && rows == after
        case Refused(why) => clip == Refused(why) && rows == old(rows)
      }
    {
      hide MergeRows, Refreshed;
      if source == target {
        assert MergeRows(v, rows, source, target, meeting).Done? by { MergeSelf(v, rows, source, meeting); }
        return Done(None);
      }
      var merge := MergeSpeakerRows(source, target, meeting);
      match merge {
        case Refused(why) => clip := Refused(why);
        case Done(m) =>
          RefreshVoices(m.1);
          clip := Done(m.0);
      }
    }

    method MergePersonRows(keep: Id, remove: Id) returns (done: Outcome<()>)
      modifies this
      ensures match MergePersons(v, old(rows), keep, remove) {
        case Done(after) => done.Done? && rows == after
        case Refused(why) => done == Refused(why) && rows == old(rows)
      }
    {
      hide Refreshed;
      if keep == remove { return Done(()); }
      if keep !in rows.persons { return Refused(PersonNotFound); }
      if remove !in rows.persons { return Refused(PersonNotFound); }
      var kept := rows.persons[keep];
      if kept.email.None? { kept := kept.(email := rows.persons[remove].email); }
      rows := rows.(persons := rows.persons[keep := kept]);
      rows := rows.(speakers := map s | s in rows.speakers :: Repointed(rows.speakers[s], keep, remove));
      rows := rows.(participants := Moved(rows.participants, remove, keep));
      rows := rows.(assignees := Moved(rows.assignees, remove, keep));
      rows := rows.(persons := rows.persons - {remove});
      assert rows == PersonsMerged(old(rows), keep, remove);
      RefreshVoice(keep);
      done := Done(());
    }

    method DropClipWhenAudioIsGone(speaker: Id, audioExists: bool)
      modifies this
      ensures rows == ClipDropped(old(rows), speaker, audioExists)
    {
      if speaker !in rows.speakers { return; }
      var s := rows.speakers[speaker];
      if s.clipFile.None? || audioExists { return; }
      rows := rows.(speakers := rows.speakers[speaker := s.(clipFile := None)]);
    }

    /** `owner` is what the query for another speaker of the person in this meeting fetches. */
    method ConfirmSpeaker(speaker: Id, person: Id, given: Person<E>, owner: Option<Id>, audioExists: bool)
      returns (done: Outcome<()>)
      requires speaker in rows.speakers ==> IsOwner(rows, speaker, person, owner)
      modifies this
      ensures match Confirm(v, old(rows), speaker, person, given, owner, audioExists) {
        case Done(after) => done.Done? && rows == after
        case Refused(why) => done == Refused(why) && rows == old(rows)
      }
    {
      hide MergeRows, Refreshed, ClipDropped, Owners;
      if speaker !in rows.speakers { return Refused(SpeakerNotFound); }
      var before := rows;
      rows := rows.(suggestions := rows.suggestions - {speaker});
      if person !in rows.persons {
        rows := rows.(persons := rows.persons[person := given]);
      }
      var was := rows.speakers[speaker].assignment;
      if was == Confirmed(person) { return Done(()); }
      var persons := {person} + PersonsOf(was);
      var kept := speaker;
      if owner.Some? {
        var merge := MergeSpeakerRows(speaker, owner.value, rows.speakers[speaker].meeting);
        match merge {
          case Refused(why) =>
            rows := before;
            return Refused(why);
          case Done(m) =>
            persons := persons + m.1;
        }
        kept := owner.value;
      } else {
        rows := Renamed(rows, speaker, person);
      }
      DropClipWhenAudioIsGone(kept, audioExists);
      RefreshVoices(persons);
      done := Done(());
    }
  }

  lemma MergeSelf<E>(v: Vectors<E>, r: Rows<E>, s: Id, meeting: Id)
    ensures MergeRows(v, r, s, s, meeting).Done?
  {}
}
