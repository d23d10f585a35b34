/** The durable admission of a phone recording (`RecordingIntake.swift`) as a crash protocol: admits
    interleaved with one another, with local writes, process crashes, power losses and launches. */
module Admission {
  import opened Handover
  import opened Options

  /** The store on disk. `synced` is what the disk surely holds, `tail` the commits after it that no
      sync covers yet, oldest first, and `failed` the tables of durable commits whose sync failed:
      the process rolled them back, but their frames may still be replayed. A durable commit covers
      the tail and writes over every such frame. */
  datatype Store = Store(synced: Tables, tail: seq<Tables>, failed: set<Tables>)

  /** What the process reads. */
  function Live(s: Store): Tables {
    if s.tail == [] then s.synced else s.tail[|s.tail| - 1]
  }

  /** What recovery may bring back. */
  ghost predicate Recoverable(s: Store, t: Tables) {
    t == s.synced || t in s.tail || t in s.failed
  }

  datatype Phase = Down | Opened | Serving

  /** How far one `admit` has come: the receipt read, the meeting read, the copy, its sync, the
      commit, and the failed receipt after a failed commit. */
  datatype Task =
    | Started(upload: Upload)
    | Looked(upload: Upload, found: Option<Id>)
    | Cleared(upload: Upload)
    | Copying(upload: Upload, meeting: Id)
    | Copied(upload: Upload, meeting: Id)
    | Saved(upload: Upload, meeting: Id, admitted: Id)
    | Failing(upload: Upload, meeting: Id)

  /** `masters` are the copies that exist, `kept` those a power loss leaves; a copy goes by its
      meeting's id, since the meeting's folder bears it. `answered` records every id `admit`
      returned, and `rewritten` every recording whose settled receipt a local write changed, or that
      one settled. */
  datatype State = State(
    store: Store,
    masters: set<Id>,
    kept: set<Id>,
    phase: Phase,
    tasks: map<nat, Task>,
    next: nat,
    answered: set<(Upload, Id)>,
    rewritten: set<Id>)

  datatype Write = Plain | Synced | SyncFails | Throws

  datatype Action =
    | Begin(task: nat, upload: Upload)
    | Look(task: nat)
    | Recheck(task: nat)
    | Abandon(task: nat)
    | CopyFile(task: nat)
    | SyncCopy(task: nat, worked: bool)
    | Commit(task: nat, how: Write)
    | SaveFailed(task: nat, how: Write)
    | Finish(task: nat)
    | Local(tables: Tables, next: nat, how: Write)
    | Settle(commit: nat)
    | Crash(recovered: Tables)
    | PowerLoss(recovered: Tables, left: set<Id>)
    | Open
    | Checkpoint(worked: bool)

  /** A transaction's tables into the store. A durable one covers the tail. */
  function Written(s: Store, t: Tables, how: Write): Store {
    match how
    case Plain => s.(tail := s.tail + [t])
    case Synced => Store(t, [], {})
    case SyncFails => s.(failed := s.failed + {t})
    case Throws => s
  }

  function Dropped(s: State, task: nat): State {
    s.(tasks := s.tasks - {task})
  }

  function Without(s: State, meeting: Id): State {
    s.(masters := s.masters - {meeting}, kept := s.kept - {meeting})
  }

  /** The receipt read: another upload's receipt ends the admission. */
  function Looking(s: State, task: nat, u: Upload): State {
    var t := Live(s.store);
    if AnotherUploads(t, u) then Dropped(s, task)
    else
      var found := if u.key.recording in t.receipts && t.receipts[u.key.recording].state.Complete?
                   then Some(t.receipts[u.key.recording].state.meeting) else None;
      s.(tasks := s.tasks[task := Looked(u, found)])
  }

  /** The meeting read: a complete receipt whose meeting exists is answered from. */
  function Rechecking(s: State, task: nat, u: Upload, found: Option<Id>): State {
    if found.Some? && found.value in Live(s.store).meetings
    then Dropped(s, task).(answered := s.answered + {(u, found.value)})
    else s.(tasks := s.tasks[task := Cleared(u)])
  }

  function Committing(s: State, task: nat, u: Upload, meeting: Id, how: Write): State {
    match Admit(Live(s.store), u, meeting)
    case Refused(ReceiptOfAnotherUpload) => Without(Dropped(s, task), meeting)
    case Refused(_) => s.(tasks := s.tasks[task := Failing(u, meeting)])
    case Committed(tables, admitted) =>
      s.(store := Written(s.store, tables, how),
         tasks := s.tasks[task := if how.Synced? then Saved(u, meeting, admitted) else Failing(u, meeting)])
  }

  /** The copy goes only once the failed receipt is on the disk. */
  function SavingFailed(s: State, task: nat, u: Upload, meeting: Id, how: Write): State {
    match SaveReceipt(Live(s.store), Receipt(u, Failed))
    case Refused(_) => Dropped(s, task)
    case Committed(tables, _) =>
      var after := Dropped(s, task).(store := Written(s.store, tables, how));
      if how.Synced? then Without(after, meeting) else after
  }

  function Finishing(s: State, task: nat, u: Upload, meeting: Id, admitted: Id): State {
    var after := Dropped(s, task).(answered := s.answered + {(u, admitted)});
    if admitted == meeting then after else Without(after, meeting)
  }

  /** Whether the receipt of a recording is complete with a meeting that exists. */
  predicate Settled(t: Tables, recording: Id) {
    recording in t.receipts && t.receipts[recording].state.Complete? && t.receipts[recording].state.meeting in t.meetings
  }

  /** A write of this process that is not an admission: it deletes no meeting and no asset, writes no
      ledger row, gives new meetings new ids, and completes a receipt only as the ledger says. */
  ghost predicate KeepsAdmissions(t: Tables, t': Tables, next: nat, next': nat) {
    && LedgerHolds(t', next') && next <= next'
    && t'.ledger == t.ledger && t.assets <= t'.assets
    && (forall m :: m in t.meetings ==> m in t'.meetings && t'.meetings[m].admittedFor == t.meetings[m].admittedFor)
    && (forall m :: m in t'.meetings && m !in t.meetings ==> m >= next && t'.meetings[m].admittedFor == {})
    && (forall r :: r in t'.receipts ==> (r in t.receipts && t'.receipts[r] == t.receipts[r]) || AgreesWithLedger(t, t'.receipts[r]))
  }

  /** The recordings whose settled receipt a write changed, or that it settled. */
  ghost function Rewritten(t: Tables, t': Tables): set<Id> {
    set r | r in t.receipts.Keys + t'.receipts.Keys && (Settled(t, r) || Settled(t', r)) && !SameReceipt(t, t', r)
  }

  ghost predicate SameReceipt(t: Tables, t': Tables, r: Id) {
    r in t.receipts && r in t'.receipts && t'.receipts[r] == t.receipts[r]
  }

  /** What a caller, the disk and the scheduler may do. With `exclusive`, one `complete` per
      recording runs at a time, which is what the handover's handler sees to. */
  ghost predicate Enabled(s: State, a: Action, exclusive: bool) {
    match a
    case Begin(task, u) =>
      && s.phase == Serving && task !in s.tasks
      && (exclusive ==> forall k :: k in s.tasks ==> s.tasks[k].upload.key.recording != u.key.recording)
    case Look(task) => task in s.tasks && s.tasks[task].Started?
    case Recheck(task) => task in s.tasks && s.tasks[task].Looked?
    case Abandon(task) => task in s.tasks && (s.tasks[task].Started? || s.tasks[task].Looked? || s.tasks[task].Cleared?)
    case CopyFile(task) => task in s.tasks && s.tasks[task].Cleared?
    case SyncCopy(task, _) => task in s.tasks && s.tasks[task].Copying?
    case Commit(task, how) => task in s.tasks && s.tasks[task].Copied? && !how.Plain?
    case SaveFailed(task, how) => task in s.tasks && s.tasks[task].Failing? && !how.Plain?
    case Finish(task) => task in s.tasks && s.tasks[task].Saved?
    case Local(t, next, how) => s.phase != Down && KeepsAdmissions(Live(s.store), t, s.next, next)
    case Settle(commit) => commit < |s.store.tail|
    case Crash(t) => t == Live(s.store) || t in s.store.failed
    case PowerLoss(t, left) => Recoverable(s.store, t) && s.kept <= left <= s.masters
    case Open => s.phase == Down && Keyed(Live(s.store))
    case Checkpoint(_) => s.phase == Opened
  }

  ghost function Next(s: State, a: Action, exclusive: bool): State
    requires Enabled(s, a, exclusive)
  {
    match a
    case Begin(task, u) => s.(tasks := s.tasks[task := Started(u)])
    case Look(task) => Looking(s, task, s.tasks[task].upload)
    case Recheck(task) => Rechecking(s, task, s.tasks[task].upload, s.tasks[task].found)
    case Abandon(task) => Dropped(s, task)
    case CopyFile(task) =>
      s.(tasks := s.tasks[task := Copying(s.tasks[task].upload, s.next)],
         masters := s.masters + {s.next}, next := s.next + 1)
    case SyncCopy(task, worked) =>
      var (u, meeting) := (s.tasks[task].upload, s.tasks[task].meeting);
      if worked then s.(tasks := s.tasks[task := Copied(u, meeting)], kept := s.kept + {meeting})
      else Without(Dropped(s, task), meeting)
    case Commit(task, how) => Committing(s, task, s.tasks[task].upload, s.tasks[task].meeting, how)
    case SaveFailed(task, how) => SavingFailed(s, task, s.tasks[task].upload, s.tasks[task].meeting, how)
    case Finish(task) => Finishing(s, task, s.tasks[task].upload, s.tasks[task].meeting, s.tasks[task].admitted)
    case Local(t, next, how) =>
      s.(store := Written(s.store, t, how), next := next, rewritten := s.rewritten + Rewritten(Live(s.store), t))
    case Settle(commit) => s.(store := s.store.(synced := s.store.tail[commit], tail := s.store.tail[commit + 1..]))
    case Crash(t) =>
      s.(store := if t == Live(s.store) then s.store else s.store.(tail := s.store.tail + [t]),
         tasks := map[], phase := Down)
    case PowerLoss(t, left) => s.(store := Store(t, [], {}), masters := left, tasks := map[], phase := Down)
    case Open => s.(store := Written(s.store, Backfill(Live(s.store)), Plain), phase := Opened)
    case Checkpoint(worked) => if worked then s.(store := Store(Live(s.store), [], {}), phase := Serving) else s
  }

  const INITIAL := State(Store(EMPTY, [], {}), {}, {}, Down, map[], 0, {}, {})

  // What every reachable state keeps.

  ghost predicate IsAdmitted(t: Tables, u: Upload, m: Id) {
    m in t.meetings && u.key in t.meetings[m].admittedFor
  }

  /** Every meeting admitted in `t` is admitted in `t'`. */
  ghost predicate Includes(t': Tables, t: Tables) {
    forall m :: m in t.meetings && t.meetings[m].admittedFor != {} ==>
      m in t'.meetings && t'.meetings[m].admittedFor == t.meetings[m].admittedFor
  }

  /** One of the tables recovery may bring back. */
  ghost predicate TablesHold(s: State, t: Tables) {
    && LedgerHolds(t, s.next)
    && (forall m :: m in t.meetings && t.meetings[m].admittedFor != {} ==> m in s.kept)
    && (s.phase == Serving ==> Includes(t, Live(s.store)))
    && (forall a :: a in s.answered ==> IsAdmitted(t, a.0, a.1))
  }

  ghost predicate HasCopy(t: Task) {
    t.Copying? || t.Copied? || t.Saved? || t.Failing?
  }

  /** A meeting read from a complete receipt is the upload's own, if it exists, and none that is
      still being copied. */
  ghost predicate Found(s: State, u: Upload, m: Id) {
    && m < s.next && (m in Live(s.store).meetings ==> IsAdmitted(Live(s.store), u, m))
    && forall k :: k in s.tasks && (s.tasks[k].Copying? || s.tasks[k].Copied?) ==> s.tasks[k].meeting != m
  }

  /** One admission in flight: its copy's id is its own, and no table knows it before the commit. */
  ghost predicate TaskHolds(s: State, t: Task) {
    && (HasCopy(t) ==> t.meeting < s.next)
    && (t.Looked? && t.found.Some? ==> Found(s, t.upload, t.found.value))
    && (t.Copying? ==> t.meeting in s.masters)
    && (t.Copied? ==> t.meeting in s.kept)
    && (t.Copying? || t.Copied? ==> forall d :: Recoverable(s.store, d) ==> Unused(d, t.meeting))
    && (t.Failing? ==> Unused(s.store.synced, t.meeting) && forall d :: d in s.store.tail ==> Unused(d, t.meeting))
    && (t.Saved? ==> forall d :: Recoverable(s.store, d) ==>
          IsAdmitted(d, t.upload, t.admitted) && (t.admitted != t.meeting ==> t.meeting !in d.meetings))
  }

  ghost predicate Inv(s: State) {
    && (forall d :: Recoverable(s.store, d) ==> TablesHold(s, d))
    && s.kept <= s.masters && (forall m :: m in s.masters ==> m < s.next)
    && (s.phase != Serving ==> s.tasks == map[])
    && (forall k :: k in s.tasks ==> TaskHolds(s, s.tasks[k]))
    && (forall k, l :: k in s.tasks && l in s.tasks && k != l && HasCopy(s.tasks[k]) && HasCopy(s.tasks[l]) ==>
          s.tasks[k].meeting != s.tasks[l].meeting)
  }

  lemma LiveIsRecoverable(s: Store)
    ensures Recoverable(s, Live(s))
  {}

  lemma InitialHolds()
    ensures Inv(INITIAL)
  {}

  lemma LedgerMonotone(t: Tables, next: nat, next': nat)
    requires LedgerHolds(t, next) && next <= next'
    ensures LedgerHolds(t, next')
  {}

  /** A step that leaves the store, the copies and the answers alone, and drops or moves one task. */
  lemma TaskStep(s: State, s': State, task: nat)
    requires Inv(s) && s' == s.(tasks := s'.tasks)
    requires forall k :: k in s'.tasks && k != task ==> k in s.tasks && s'.tasks[k] == s.tasks[k]
    requires task in s'.tasks ==> s.phase == Serving && TaskHolds(s, s'.tasks[task]) && !HasCopy(s'.tasks[task])
    requires s.phase != Serving ==> s'.tasks == map[]
    ensures Inv(s')
  {
    hide LedgerHolds, Includes;
    forall d | Recoverable(s'.store, d) ensures TablesHold(s', d) { assert TablesHold(s, d); }
    forall k | k in s'.tasks ensures TaskHolds(s', s'.tasks[k]) {
      if k != task { assert TaskHolds(s, s.tasks[k]); }
    }
  }

  lemma LookStep(s: State, task: nat)
    requires Inv(s) && task in s.tasks && s.tasks[task].Started?
    ensures Inv(Looking(s, task, s.tasks[task].upload))
  {
    var u := s.tasks[task].upload;
    var t := Live(s.store);
    var s' := Looking(s, task, u);
    LiveIsRecoverable(s.store);
    assert TablesHold(s, t);
    if task in s'.tasks && s'.tasks[task].found.Some? {
      var r := t.receipts[u.key.recording];
      assert ReceiptAgrees(t, r) && r.upload == u;
      forall k | k in s'.tasks && (s'.tasks[k].Copying? || s'.tasks[k].Copied?)
        ensures s'.tasks[k].meeting != r.state.meeting
      {
        assert TaskHolds(s, s.tasks[k]) && Unused(t, s.tasks[k].meeting);
      }
      assert Found(s, u, r.state.meeting);
    }
    TaskStep(s, s', task);
  }

  /** An id read from a settled receipt is admitted in everything recovery may bring back. */
  lemma RecheckStep(s: State, task: nat)
    requires Inv(s) && task in s.tasks && s.tasks[task].Looked?
    ensures Inv(Rechecking(s, task, s.tasks[task].upload, s.tasks[task].found))
  {
    var (u, found) := (s.tasks[task].upload, s.tasks[task].found);
    var s' := Rechecking(s, task, u, found);
    assert TaskHolds(s, s.tasks[task]);
    if found.Some? && found.value in Live(s.store).meetings {
      var dropped := Dropped(s, task);
      TaskStep(s, dropped, task);
      forall d | Recoverable(s'.store, d) ensures TablesHold(s', d) {
        assert TablesHold(dropped, d);
        assert Includes(d, Live(s.store)) && IsAdmitted(Live(s.store), u, found.value);
      }
      forall k | k in s'.tasks ensures TaskHolds(s', s'.tasks[k]) { assert TaskHolds(dropped, s'.tasks[k]); }
    } else {
      TaskStep(s, s', task);
    }
  }

  lemma CopyStep(s: State, task: nat)
    requires Inv(s) && task in s.tasks && s.tasks[task].Cleared?
    ensures Inv(Next(s, CopyFile(task), true))
  {
    hide LedgerPointsAtIt, LedgerRowsAreOwned, ReceiptsAgreeWithLedger, Includes;
    var s' := Next(s, CopyFile(task), true);
    forall d | Recoverable(s'.store, d) ensures TablesHold(s', d) && Unused(d, s.next) {
      assert TablesHold(s, d);
      LedgerMonotone(d, s.next, s'.next);
    }
    forall k | k in s'.tasks ensures TaskHolds(s', s'.tasks[k]) {
      if k != task { assert TaskHolds(s, s.tasks[k]); }
    }
    forall k, l | k in s'.tasks && l in s'.tasks && k != l && HasCopy(s'.tasks[k]) && HasCopy(s'.tasks[l])
      ensures s'.tasks[k].meeting != s'.tasks[l].meeting
    {
      if k != task { assert TaskHolds(s, s.tasks[k]); }
      if l != task { assert TaskHolds(s, s.tasks[l]); }
    }
  }

  lemma SyncStep(s: State, task: nat, worked: bool)
    requires Inv(s) && task in s.tasks && s.tasks[task].Copying?
    ensures Inv(Next(s, SyncCopy(task, worked), true))
  {
    hide LedgerHolds, Includes;
    var s' := Next(s, SyncCopy(task, worked), true);
    assert TaskHolds(s, s.tasks[task]);
    if worked {
      forall d | Recoverable(s'.store, d) ensures TablesHold(s', d) { assert TablesHold(s, d); }
      forall k | k in s'.tasks ensures TaskHolds(s', s'.tasks[k]) { assert TaskHolds(s, s.tasks[k]); }
    } else {
      RemovalStep(s, s.tasks[task].meeting, task);
    }
  }

  /** An admission ends and takes its copy with it: no table that may come back names the meeting. */
  lemma RemovalStep(s: State, meeting: Id, task: nat)
    requires Inv(s) && task in s.tasks && HasCopy(s.tasks[task]) && s.tasks[task].meeting == meeting
    requires forall d :: Recoverable(s.store, d) ==> meeting !in d.meetings
    ensures Inv(Without(Dropped(s, task), meeting))
  {
    hide LedgerHolds, Includes;
    var s' := Without(Dropped(s, task), meeting);
    forall d | Recoverable(s'.store, d) ensures TablesHold(s', d) { assert TablesHold(s, d); }
    forall k | k in s'.tasks ensures TaskHolds(s', s'.tasks[k]) { assert TaskHolds(s, s.tasks[k]); }
  }

  lemma FinishStep(s: State, task: nat)
    requires Inv(s) && task in s.tasks && s.tasks[task].Saved?
    ensures Inv(Next(s, Finish(task), true))
  {
    hide LedgerHolds, Includes;
    var Saved(u, meeting, admitted) := s.tasks[task];
    assert TaskHolds(s, s.tasks[task]);
    var s1 := s.(answered := s.answered + {(u, admitted)});
    forall d | Recoverable(s1.store, d) ensures TablesHold(s1, d) { assert TablesHold(s, d); }
    forall k | k in s1.tasks ensures TaskHolds(s1, s1.tasks[k]) { assert TaskHolds(s, s.tasks[k]); }
    assert Inv(s1);
    if admitted == meeting { TaskStep(s1, Dropped(s1, task), task); } else { RemovalStep(s1, meeting, task); }
  }

  /** An admission names its meeting and none that the tables did not name before. */
  lemma AdmitNames(t: Tables, u: Upload, meeting: Id, other: Id)
    requires Unused(t, other) && other != meeting
    ensures var done := Admit(t, u, meeting); done.Committed? ==> Unused(done.tables, other)
  {}

  lemma AdmitIncludes(t: Tables, u: Upload, meeting: Id)
    requires meeting !in t.meetings
    requires LedgerRowsAreOwned(t)
    ensures var done := Admit(t, u, meeting);
      done.Committed? ==>
        && Includes(done.tables, t) && IsAdmitted(done.tables, u, done.value)
        && (done.value != meeting ==> done.tables.meetings == t.meetings)
        && (forall m :: m in done.tables.meetings ==> m in t.meetings || m == meeting)
        && (forall v, m :: IsAdmitted(t, v, m) ==> IsAdmitted(done.tables, v, m))
  {}

  /** What an admission commits is fit to come back. */
  lemma CommittedHolds(s: State, task: nat)
    requires Inv(s) && task in s.tasks && s.tasks[task].Copied?
    requires Admit(Live(s.store), s.tasks[task].upload, s.tasks[task].meeting).Committed?
    ensures var done := Admit(Live(s.store), s.tasks[task].upload, s.tasks[task].meeting);
      && LedgerHolds(done.tables, s.next)
      && (forall m :: m in done.tables.meetings && done.tables.meetings[m].admittedFor != {} ==> m in s.kept)
      && (forall a :: a in s.answered ==> IsAdmitted(done.tables, a.0, a.1))
  {
    var (t, u, meeting) := (Live(s.store), s.tasks[task].upload, s.tasks[task].meeting);
    LiveIsRecoverable(s.store);
    assert TablesHold(s, t) && TaskHolds(s, s.tasks[task]) && Unused(t, meeting);
    AdmitKeepsLedger(t, s.next, u, meeting);
    AdmitIncludes(t, u, meeting);
  }

  lemma CommitStep(s: State, task: nat, how: Write)
    requires Inv(s) && task in s.tasks && s.tasks[task].Copied? && !how.Plain?
    ensures Inv(Next(s, Commit(task, how), true))
  {
    hide LedgerHolds, Includes, Unused;
    var (t, u, meeting) := (Live(s.store), s.tasks[task].upload, s.tasks[task].meeting);
    var s' := Next(s, Commit(task, how), true);
    var done := Admit(t, u, meeting);
    LiveIsRecoverable(s.store);
    assert TaskHolds(s, s.tasks[task]) && TablesHold(s, t) && Unused(t, meeting);
    if done.Refused? {
      if done.why == ReceiptOfAnotherUpload {
        forall d | Recoverable(s.store, d) ensures meeting !in d.meetings { UnusedIsAbsent(d, meeting); }
        RemovalStep(s, meeting, task);
      } else {
        FailStep(s, task);
      }
    } else if how.Throws? {
      FailStep(s, task);
    } else {
      CommittedHolds(s, task);
      UnusedIsAbsent(t, meeting);
      AdmitIncludesLive(s, task);
      if how.SyncFails? { SyncFailedStep(s, task); } else { SyncedStep(s, task); }
    }
  }

  lemma UnusedIsAbsent(t: Tables, m: Id)
    requires Unused(t, m)
    ensures m !in t.meetings
  {}

  lemma AdmitIncludesLive(s: State, task: nat)
    requires Inv(s) && task in s.tasks && s.tasks[task].Copied?
    ensures var (t, u, meeting) := (Live(s.store), s.tasks[task].upload, s.tasks[task].meeting);
      var done := Admit(t, u, meeting);
      done.Committed? ==>
        && Includes(done.tables, t) && IsAdmitted(done.tables, u, done.value)
        && (done.value != meeting ==> done.tables.meetings == t.meetings)
        && (forall m :: m in done.tables.meetings ==> m in t.meetings || m == meeting)
        && (forall v, m :: IsAdmitted(t, v, m) ==> IsAdmitted(done.tables, v, m))
  {
    LiveIsRecoverable(s.store);
    assert TaskHolds(s, s.tasks[task]) && TablesHold(s, Live(s.store));
    AdmitIncludes(Live(s.store), s.tasks[task].upload, s.tasks[task].meeting);
  }

  /** A commit that wrote nothing. */
  lemma FailStep(s: State, task: nat)
    requires Inv(s) && task in s.tasks && s.tasks[task].Copied?
    ensures Inv(s.(tasks := s.tasks[task := Failing(s.tasks[task].upload, s.tasks[task].meeting)]))
  {
    hide LedgerHolds, Includes, Unused;
    var s' := s.(tasks := s.tasks[task := Failing(s.tasks[task].upload, s.tasks[task].meeting)]);
    assert TaskHolds(s, s.tasks[task]);
    forall d | Recoverable(s'.store, d) ensures TablesHold(s', d) { assert TablesHold(s, d); }
    forall k | k in s'.tasks ensures TaskHolds(s', s'.tasks[k]) { assert TaskHolds(s, s.tasks[k]); }
  }

  /** A commit whose sync failed may come back, and its copy is still there. */
  lemma SyncFailedStep(s: State, task: nat)
    requires Inv(s) && task in s.tasks && s.tasks[task].Copied?
    requires Admit(Live(s.store), s.tasks[task].upload, s.tasks[task].meeting).Committed?
    ensures Inv(Next(s, Commit(task, SyncFails), true))
  {
    hide LedgerHolds, Includes, Unused, Admit;
    var (t, u, meeting) := (Live(s.store), s.tasks[task].upload, s.tasks[task].meeting);
    var done := Admit(t, u, meeting);
    var s' := Next(s, Commit(task, SyncFails), true);
    CommittedHolds(s, task);
    AdmitIncludesLive(s, task);
    LiveIsRecoverable(s.store);
    assert TablesHold(s, t);
    forall d | Recoverable(s'.store, d) ensures TablesHold(s', d) {
      if d != done.tables { assert TablesHold(s, d); }
    }
    forall k | k in s'.tasks ensures TaskHolds(s', s'.tasks[k]) {
      assert TaskHolds(s, s.tasks[k]);
      if k != task { OthersUnused(s, task, k); }
    }
  }

  lemma OthersUnused(s: State, task: nat, k: nat)
    requires Inv(s) && task in s.tasks && s.tasks[task].Copied? && k in s.tasks && k != task
    ensures var done := Admit(Live(s.store), s.tasks[task].upload, s.tasks[task].meeting);
      done.Committed? && (s.tasks[k].Copying? || s.tasks[k].Copied? || s.tasks[k].Failing?) ==>
        Unused(done.tables, s.tasks[k].meeting)
  {
    LiveIsRecoverable(s.store);
    assert TaskHolds(s, s.tasks[k]) && TaskHolds(s, s.tasks[task]);
    if HasCopy(s.tasks[k]) && !s.tasks[k].Saved? {
      AdmitNames(Live(s.store), s.tasks[task].upload, s.tasks[task].meeting, s.tasks[k].meeting);
    }
  }

  /** A commit on the disk is all that may come back. */
  lemma SyncedStep(s: State, task: nat)
    requires Inv(s) && task in s.tasks && s.tasks[task].Copied?
    requires Admit(Live(s.store), s.tasks[task].upload, s.tasks[task].meeting).Committed?
    ensures Inv(Next(s, Commit(task, Synced), true))
  {
    hide LedgerHolds, Unused, Admit;
    var (t, u, meeting) := (Live(s.store), s.tasks[task].upload, s.tasks[task].meeting);
    var done := Admit(t, u, meeting);
    var s' := Next(s, Commit(task, Synced), true);
    CommittedHolds(s, task);
    AdmitIncludesLive(s, task);
    LiveIsRecoverable(s.store);
    assert TaskHolds(s, s.tasks[task]);
    UnusedIsAbsent(t, meeting);
    forall d | Recoverable(s'.store, d) ensures TablesHold(s', d) { assert d == done.tables; }
    forall k | k in s'.tasks ensures TaskHolds(s', s'.tasks[k]) {
      assert TaskHolds(s, s.tasks[k]);
      if k != task { OthersUnused(s, task, k); }
    }
  }

  /** Tables that keep every admission of `t` and name no id still in flight. */
  ghost predicate Extends(t: Tables, t': Tables, next: nat, next': nat) {
    && LedgerHolds(t', next') && next <= next' && Includes(t', t)
    && (forall m :: m in t.meetings ==> m in t'.meetings && t'.meetings[m].admittedFor == t.meetings[m].admittedFor)
    && (forall m :: m in t'.meetings && m !in t.meetings ==> m >= next && t'.meetings[m].admittedFor == {})
    && (forall m: Id :: m < next && Unused(t, m) ==> Unused(t', m))
  }

  lemma WriteStep(s: State, t: Tables, next: nat, how: Write)
    requires Inv(s) && Extends(Live(s.store), t, s.next, next)
    ensures Inv(s.(store := Written(s.store, t, how), next := next))
  {
    hide LedgerHolds, Unused, Includes;
    var s' := s.(store := Written(s.store, t, how), next := next);
    LiveIsRecoverable(s.store);
    assert TablesHold(s, Live(s.store));
    forall d | Recoverable(s'.store, d) ensures TablesHold(s', d) {
      if d == t { WrittenHolds(s, t, next, how); } else { StaysHeld(s, t, next, how, d); }
    }
    forall k | k in s'.tasks ensures TaskHolds(s', s'.tasks[k]) {
      assert TaskHolds(s, s.tasks[k]);
    }
  }

  lemma WrittenHolds(s: State, t: Tables, next: nat, how: Write)
    requires Inv(s) && Extends(Live(s.store), t, s.next, next)
    requires Recoverable(Written(s.store, t, how), t)
    ensures TablesHold(s.(store := Written(s.store, t, how), next := next), t)
  {
    hide LedgerHolds, Unused;
    LiveIsRecoverable(s.store);
    assert TablesHold(s, Live(s.store));
    if how.Throws? {
      assert TablesHold(s, t);
    }
  }

  lemma StaysHeld(s: State, t: Tables, next: nat, how: Write, d: Tables)
    requires Inv(s) && Extends(Live(s.store), t, s.next, next)
    requires Recoverable(s.store, d) && !how.Synced?
    ensures TablesHold(s.(store := Written(s.store, t, how), next := next), d)
  {
    hide LedgerHolds, Unused;
    assert TablesHold(s, d);
    LedgerMonotone(d, s.next, next);
    var s' := s.(store := Written(s.store, t, how), next := next);
    if s.phase == Serving {
      assert Includes(d, Live(s'.store)) by {
        assert Includes(d, Live(s.store));
        assert how.Plain? ==> Live(s'.store) == t;
      }
    }
  }

  lemma LocalExtends(t: Tables, t': Tables, next: nat, next': nat)
    requires KeepsAdmissions(t, t', next, next')
    ensures Extends(t, t', next, next')
  {
    forall m: Id | m < next && Unused(t, m) ensures Unused(t', m) {}
  }

  lemma FailedReceiptExtends(t: Tables, next: nat, u: Upload)
    requires LedgerHolds(t, next) && SaveReceipt(t, Receipt(u, Failed)).Committed?
    ensures Extends(t, SaveReceipt(t, Receipt(u, Failed)).tables, next, next)
  {
    var t' := SaveReceipt(t, Receipt(u, Failed)).tables;
    forall m: Id | m < next && Unused(t, m) ensures Unused(t', m) {}
  }

  lemma SaveFailedStep(s: State, task: nat, how: Write)
    requires Inv(s) && task in s.tasks && s.tasks[task].Failing? && !how.Plain?
    ensures Inv(Next(s, SaveFailed(task, how), true))
  {
    hide LedgerHolds, Unused, Extends, Includes;
    var (t, u, meeting) := (Live(s.store), s.tasks[task].upload, s.tasks[task].meeting);
    LiveIsRecoverable(s.store);
    assert TablesHold(s, t) && TaskHolds(s, s.tasks[task]) && Unused(t, meeting);
    var done := SaveReceipt(t, Receipt(u, Failed));
    if done.Refused? {
      TaskStep(s, Dropped(s, task), task);
    } else {
      FailedReceiptExtends(t, s.next, u);
      WriteStep(s, done.tables, s.next, how);
      var written := s.(store := Written(s.store, done.tables, how), next := s.next);
      if how.Synced? {
        UnusedIsAbsent(t, meeting);
        RemovalStep(written, meeting, task);
      } else {
        TaskStep(written, Dropped(written, task), task);
      }
    }
  }

  /** Steps that only narrow down what may come back. */
  lemma NarrowStep(s: State, s': State)
    requires Inv(s) && s' == s.(store := s'.store, phase := s'.phase, tasks := s'.tasks, masters := s'.masters)
    requires forall d :: Recoverable(s'.store, d) ==> Recoverable(s.store, d)
    requires s.kept <= s'.masters <= s.masters
    requires s'.tasks == map[] || (s'.tasks == s.tasks && s'.masters == s.masters && Live(s'.store) == Live(s.store) && s'.phase == s.phase)
    requires s'.phase == Serving ==>
      s'.store == Store(Live(s'.store), [], {}) || (s.phase == Serving && Live(s'.store) == Live(s.store))
    requires forall d :: s'.store.synced == d || d in s'.store.tail ==> s'.tasks == map[] || s.store.synced == d || d in s.store.tail
    ensures Inv(s')
  {
    hide LedgerHolds, Unused;
    forall d | Recoverable(s'.store, d) ensures TablesHold(s', d) { assert TablesHold(s, d); }
    forall k | k in s'.tasks ensures TaskHolds(s', s'.tasks[k]) { assert TaskHolds(s, s.tasks[k]); }
  }

  lemma OpenExtends(t: Tables, next: nat)
    requires LedgerHolds(t, next)
    ensures Keyed(t) && Backfill(t) == t && Extends(t, t, next, next)
  {
    hide Unused;
    BackfillIsIdentity(t, next);
  }

  lemma OpenStep(s: State)
    requires Inv(s) && s.phase == Down
    ensures Keyed(Live(s.store)) && Inv(Next(s, Open, true))
  {
    hide LedgerHolds, Unused, Extends, Includes, Backfill, TaskHolds;
    LiveIsRecoverable(s.store);
    var t := Live(s.store);
    assert TablesHold(s, t);
    OpenExtends(t, s.next);
    WriteStep(s, t, s.next, Plain);
    hide TablesHold;
    var written := s.(store := Written(s.store, t, Plain));
    assert Inv(written);
    NarrowStep(written, Next(s, Open, true));
  }

  lemma RewrittenHolds(s: State, s': State)
    requires Inv(s) && s' == s.(rewritten := s'.rewritten)
    ensures Inv(s')
  {
    hide LedgerHolds, Unused;
    forall d | Recoverable(s'.store, d) ensures TablesHold(s', d) { assert TablesHold(s, d); }
    forall k | k in s'.tasks ensures TaskHolds(s', s'.tasks[k]) { assert TaskHolds(s, s.tasks[k]); }
  }

  /** The store's own transactions other than admissions and deletions are such writes; a receipt of a
      meeting that is gone takes a deletion first. */
  lemma OperationsKeepAdmissions(t: Tables, next: nat, op: Operation)
    requires LedgerHolds(t, next) && !op.Admits? && !op.Deletes?
    requires op.Saves? ==> AgreesWithLedger(t, op.receipt)
    ensures var (t', next') := Operate(t, next, op); KeepsAdmissions(t, t', next, next')
  {
    OperateKeepsLedger(t, next, op);
    if op.Opens? { BackfillIsIdentity(t, next); }
    hide LedgerPointsAtIt, LedgerRowsAreOwned, ReceiptsAgreeWithLedger, GivenOut, Backfill;
  }

  /** Every step keeps the invariant. */
  lemma NextHolds(s: State, a: Action, exclusive: bool)
    requires Inv(s) && Enabled(s, a, exclusive)
    ensures Inv(Next(s, a, exclusive))
  {
    hide LedgerHolds, Unused, Includes, TablesHold, TaskHolds, KeepsAdmissions;
    match a {
      case Begin(task, u) => BeginStep(s, task, u);
      case Look(task) => LookStep(s, task);
      case Recheck(task) => RecheckStep(s, task);
      case Abandon(task) => TaskStep(s, Dropped(s, task), task);
      case CopyFile(task) => CopyStep(s, task);
      case SyncCopy(task, worked) => SyncStep(s, task, worked);
      case Commit(task, how) => CommitStep(s, task, how);
      case SaveFailed(task, how) => SaveFailedStep(s, task, how);
      case Finish(task) => FinishStep(s, task);
      case Local(t, next, how) =>
        LocalExtends(Live(s.store), t, s.next, next);
        WriteStep(s, t, next, how);
        RewrittenHolds(s.(store := Written(s.store, t, how), next := next), Next(s, a, exclusive));
      case Open => OpenStep(s);
      case _ => NarrowStep(s, Next(s, a, exclusive));
    }
  }

  lemma BeginStep(s: State, task: nat, u: Upload)
    requires Inv(s) && s.phase == Serving && task !in s.tasks
    ensures Inv(s.(tasks := s.tasks[task := Started(u)]))
  {
    TaskStep(s, s.(tasks := s.tasks[task := Started(u)]), task);
  }

  // Whole runs.

  ghost predicate Run(run: seq<State>, actions: seq<Action>, exclusive: bool) {
    && |run| == |actions| + 1 && run[0] == INITIAL
    && forall i :: 0 <= i < |actions| ==> Enabled(run[i], actions[i], exclusive) && run[i + 1] == Next(run[i], actions[i], exclusive)
  }

  lemma {:induction false} RunHolds(run: seq<State>, actions: seq<Action>, exclusive: bool, i: nat)
    requires Run(run, actions, exclusive) && i < |run|
    ensures Inv(run[i])
    decreases i
  {
    hide Inv, Enabled, Next;
    if i == 0 {
      InitialHolds();
    } else {
      RunHolds(run, actions, exclusive, i - 1);
      NextHolds(run[i - 1], actions[i - 1], exclusive);
    }
  }

  /** Main result, for every run: whatever recovery brings back, an id `admit` ever returned is a
      meeting of the very bytes, with its asset, its ledger row and a copy that survives a power
      loss. */
  lemma AnsweredIsDurable(run: seq<State>, actions: seq<Action>, exclusive: bool, i: nat, u: Upload, m: Id, t: Tables)
    requires Run(run, actions, exclusive) && i < |run|
    requires (u, m) in run[i].answered && Recoverable(run[i].store, t)
    ensures m in t.meetings && t.meetings[m].admittedFor == {u.key} && m in t.assets
    ensures u.key in t.ledger && t.ledger[u.key] == m
    ensures m in run[i].kept
  {
    RunHolds(run, actions, exclusive, i);
    assert TablesHold(run[i], t) && IsAdmitted(t, u, m) && PointsAt(t, m, u.key);
  }

  /** Main result, for every run: a phone meeting that recovery may bring back, even from a commit
      that failed, still has its copy. */
  lemma ReplayedMeetingsHaveTheirMaster(run: seq<State>, actions: seq<Action>, exclusive: bool, i: nat, t: Tables, m: Id)
    requires Run(run, actions, exclusive) && i < |run|
    requires Recoverable(run[i].store, t) && m in t.meetings && t.meetings[m].admittedFor != {}
    ensures m in run[i].kept && m in run[i].masters
  {
    RunHolds(run, actions, exclusive, i);
    assert TablesHold(run[i], t);
  }

  // The receipt.

  ghost predicate ReceiptStands(t: Tables, u: Upload, m: Id) {
    u.key.recording in t.receipts && t.receipts[u.key.recording] == Receipt(u, Complete(m))
  }

  /** A local write changed or made the settled receipt of the upload's recording. */
  ghost predicate RewrittenAt(s: State, u: Upload) {
    u.key.recording in s.rewritten
  }

  /** What one `complete` per recording adds for one admission. */
  ghost predicate AloneHolds(s: State, t: Task) {
    RewrittenAt(s, t.upload) ||
    var (live, r) := (Live(s.store), t.upload.key.recording);
    && (t.Looked? ==> Settled(live, r) ==> t.found.Some? && ReceiptStands(live, t.upload, t.found.value))
    && (t.Looked? && t.found.Some? && t.found.value in live.meetings ==> ReceiptStands(live, t.upload, t.found.value))
    && (t.Cleared? || t.Copying? || t.Copied? || t.Failing? ==> !Settled(live, r))
    && (t.Saved? ==> forall d :: Recoverable(s.store, d) ==> ReceiptStands(d, t.upload, t.admitted))
  }

  ghost predicate SettledStay(t': Tables, t: Tables, rewritten: set<Id>) {
    forall r :: Settled(t, r) && r !in rewritten ==> r in t'.receipts && t'.receipts[r] == t.receipts[r]
  }

  ghost predicate InvAlone(s: State) {
    && (forall d, a :: Recoverable(s.store, d) && a in s.answered && !RewrittenAt(s, a.0) ==> ReceiptStands(d, a.0, a.1))
    && (s.phase == Serving ==> forall d :: Recoverable(s.store, d) ==> SettledStay(d, Live(s.store), s.rewritten))
    && (forall k :: k in s.tasks ==> AloneHolds(s, s.tasks[k]))
    && (forall k, l :: k in s.tasks && l in s.tasks && k != l ==>
          s.tasks[k].upload.key.recording != s.tasks[l].upload.key.recording)
  }

  /** An answered receipt is settled in what the process reads. */
  lemma AnsweredIsSettled(s: State, a: (Upload, Id))
    requires Inv(s) && InvAlone(s) && a in s.answered && !RewrittenAt(s, a.0)
    ensures Settled(Live(s.store), a.0.key.recording)
  {
    LiveIsRecoverable(s.store);
    assert TablesHold(s, Live(s.store));
    assert ReceiptStands(Live(s.store), a.0, a.1);
  }

  /** A step on one task that leaves the store alone. */
  lemma AloneTaskStep(s: State, s': State, task: nat)
    requires InvAlone(s) && s' == s.(tasks := s'.tasks, answered := s'.answered, masters := s'.masters, kept := s'.kept, next := s'.next)
    requires task in s.tasks
    requires forall k :: k in s'.tasks ==> k in s.tasks && s'.tasks[k].upload == s.tasks[k].upload
    requires forall k :: k in s'.tasks && k != task ==> s'.tasks[k] == s.tasks[k]
    requires task in s'.tasks ==> AloneHolds(s, s'.tasks[task])
    requires forall a :: a in s'.answered ==> a in s.answered || RewrittenAt(s, a.0) || forall d :: Recoverable(s.store, d) ==> ReceiptStands(d, a.0, a.1)
    ensures InvAlone(s')
  {
    forall k | k in s'.tasks ensures AloneHolds(s', s'.tasks[k]) {
      if k != task { assert AloneHolds(s, s.tasks[k]); }
    }
  }

  lemma AloneRecheckStep(s: State, task: nat)
    requires Inv(s) && InvAlone(s) && task in s.tasks && s.tasks[task].Looked?
    ensures InvAlone(Rechecking(s, task, s.tasks[task].upload, s.tasks[task].found))
  {
    var (u, found) := (s.tasks[task].upload, s.tasks[task].found);
    var live := Live(s.store);
    assert AloneHolds(s, s.tasks[task]);
    if found.Some? && found.value in live.meetings && !RewrittenAt(s, u) {
      assert Settled(live, u.key.recording) && s.phase == Serving;
      forall d | Recoverable(s.store, d) ensures ReceiptStands(d, u, found.value) {
        assert SettledStay(d, live, s.rewritten);
      }
    }
    AloneTaskStep(s, Rechecking(s, task, u, found), task);
  }

  /** What a write does to receipts outside `rewritten`: it settles or unsettles none but that of the
      recording being admitted, which is not settled. */
  ghost predicate KeepsSettled(t: Tables, t': Tables, except: set<Id>, rewritten: set<Id>) {
    && (forall r :: (Settled(t, r) || Settled(t', r)) && r !in except && r !in rewritten ==>
          SameReceipt(t, t', r) && Settled(t, r) && Settled(t', r))
    && (forall r :: r in except && r !in rewritten ==> !Settled(t, r))
  }

  /** A write, and one task moved by it. */
  lemma AloneWriteStep(s: State, s': State, t: Tables, how: Write, task: int, except: set<Id>)
    requires Inv(s) && InvAlone(s) && s.phase != Down
    requires s.rewritten <= s'.rewritten
    requires KeepsSettled(Live(s.store), t, except, s'.rewritten) && (how.Plain? ==> except == {})
    requires s'.store == Written(s.store, t, how) && s'.answered == s.answered && s'.phase == s.phase
    requires forall m :: m in t.meetings ==> m in Live(s.store).meetings || forall k :: k in s.tasks && k != task && s.tasks[k].Looked? && s.tasks[k].found.Some? ==> s.tasks[k].found.value != m
    requires forall k :: k in s'.tasks ==> k in s.tasks && s'.tasks[k].upload == s.tasks[k].upload
    requires forall k :: k in s'.tasks && k != task ==> s'.tasks[k] == s.tasks[k] && s.tasks[k].upload.key.recording !in except
    requires task in s'.tasks ==> AloneHolds(s', s'.tasks[task])
    ensures InvAlone(s')
  {
    var live := Live(s.store);
    LiveIsRecoverable(s.store);
    forall d, a | Recoverable(s'.store, d) && a in s'.answered && !RewrittenAt(s', a.0) ensures ReceiptStands(d, a.0, a.1) {
      AnsweredIsSettled(s, a);
      assert ReceiptStands(live, a.0, a.1);
      if d == t { assert a.0.key.recording !in except; } else { assert Recoverable(s.store, d); }
    }
    if s'.phase == Serving {
      forall d | Recoverable(s'.store, d) ensures SettledStay(d, Live(s'.store), s'.rewritten) {
        if d != t { assert SettledStay(d, live, s.rewritten); }
      }
    }
    forall k | k in s'.tasks ensures AloneHolds(s', s'.tasks[k]) {
      if k != task { AloneOther(s, s', t, how, task, except, k); }
    }
  }

  lemma AloneOther(s: State, s': State, t: Tables, how: Write, task: int, except: set<Id>, k: nat)
    requires Inv(s) && InvAlone(s) && k in s.tasks && k != task
    requires s.rewritten <= s'.rewritten
    requires KeepsSettled(Live(s.store), t, except, s'.rewritten) && s.tasks[k].upload.key.recording !in except
    requires s'.store == Written(s.store, t, how)
    requires forall m :: m in t.meetings ==> m in Live(s.store).meetings || forall k :: k in s.tasks && k != task && s.tasks[k].Looked? && s.tasks[k].found.Some? ==> s.tasks[k].found.value != m
    ensures AloneHolds(s', s.tasks[k])
  {
    var (live, x) := (Live(s.store), s.tasks[k]);
    LiveIsRecoverable(s.store);
    assert AloneHolds(s, x) && TaskHolds(s, x);
    if x.Saved? && !RewrittenAt(s', x.upload) {
      assert ReceiptStands(live, x.upload, x.admitted) && IsAdmitted(live, x.upload, x.admitted);
      assert Settled(live, x.upload.key.recording);
    }
  }

  lemma AloneCommitStep(s: State, task: nat, how: Write)
    requires Inv(s) && InvAlone(s) && task in s.tasks && s.tasks[task].Copied? && !how.Plain?
    ensures InvAlone(Next(s, Commit(task, how), true))
  {
    hide LedgerHolds, Includes, Inv, InvAlone;
    var (t, u, meeting) := (Live(s.store), s.tasks[task].upload, s.tasks[task].meeting);
    var s' := Next(s, Commit(task, how), true);
    var done := Admit(t, u, meeting);
    AloneAt(s, task);
    if done.Refused? || how.Throws? {
      AloneTaskStep(s, s', task);
    } else {
      CommitKeepsSettled(s, task);
      if how.Synced? {
        assert ReceiptStands(done.tables, u, done.value);
      }
      AloneWriteStep(s, s', done.tables, how, task, {u.key.recording});
    }
  }

  lemma AloneAt(s: State, task: nat)
    requires Inv(s) && InvAlone(s) && task in s.tasks
    ensures AloneHolds(s, s.tasks[task]) && s.phase == Serving
    ensures forall k :: k in s.tasks && k != task ==> s.tasks[k].upload.key.recording != s.tasks[task].upload.key.recording
    ensures s.tasks[task].Copied? ==> Unused(Live(s.store), s.tasks[task].meeting)
    ensures s.tasks[task].Copied? ==>
      forall k :: k in s.tasks && s.tasks[k].Looked? && s.tasks[k].found.Some? ==> s.tasks[k].found.value != s.tasks[task].meeting
  {
    LiveIsRecoverable(s.store);
    assert TaskHolds(s, s.tasks[task]);
    forall k | k in s.tasks && s.tasks[k].Looked? && s.tasks[k].found.Some? && s.tasks[task].Copied?
      ensures s.tasks[k].found.value != s.tasks[task].meeting
    {
      assert TaskHolds(s, s.tasks[k]) && Found(s, s.tasks[k].upload, s.tasks[k].found.value);
    }
  }

  lemma CommitKeepsSettled(s: State, task: nat)
    requires Inv(s) && InvAlone(s) && task in s.tasks && s.tasks[task].Copied?
    ensures var (t, u, meeting) := (Live(s.store), s.tasks[task].upload, s.tasks[task].meeting);
      var done := Admit(t, u, meeting);
      done.Committed? ==>
        && KeepsSettled(t, done.tables, {u.key.recording}, s.rewritten)
        && (forall m :: m in done.tables.meetings ==> m in t.meetings || m == meeting)
  {
    AloneAt(s, task);
    AdmitKeepsSettled(Live(s.store), s.tasks[task].upload, s.tasks[task].meeting, s.rewritten);
  }

  lemma AdmitKeepsSettled(t: Tables, u: Upload, meeting: Id, rewritten: set<Id>)
    requires Unused(t, meeting) && (Settled(t, u.key.recording) ==> u.key.recording in rewritten)
    ensures var done := Admit(t, u, meeting);
      done.Committed? ==>
        && KeepsSettled(t, done.tables, {u.key.recording}, rewritten)
        && (forall m :: m in done.tables.meetings ==> m in t.meetings || m == meeting)
  {}

  lemma AloneSaveFailedStep(s: State, task: nat, how: Write)
    requires Inv(s) && InvAlone(s) && task in s.tasks && s.tasks[task].Failing? && !how.Plain?
    ensures InvAlone(Next(s, SaveFailed(task, how), true))
  {
    hide LedgerHolds, Includes, Inv, InvAlone;
    var (t, u) := (Live(s.store), s.tasks[task].upload);
    var s' := Next(s, SaveFailed(task, how), true);
    var done := SaveReceipt(t, Receipt(u, Failed));
    AloneAt(s, task);
    if done.Refused? {
      AloneTaskStep(s, s', task);
    } else {
      assert KeepsSettled(t, done.tables, {u.key.recording}, s.rewritten);
      AloneWriteStep(s, s', done.tables, how, task, {u.key.recording});
    }
  }

  lemma AloneLocalStep(s: State, t: Tables, next: nat, how: Write)
    requires Inv(s) && InvAlone(s) && Enabled(s, Local(t, next, how), true)
    ensures InvAlone(Next(s, Local(t, next, how), true))
  {
    hide LedgerHolds, Includes;
    var live, s' := Live(s.store), Next(s, Local(t, next, how), true);
    LiveIsRecoverable(s.store);
    assert TablesHold(s, live);
    forall r | (Settled(live, r) || Settled(t, r)) && r !in s'.rewritten
      ensures SameReceipt(live, t, r) && Settled(live, r) && Settled(t, r)
    {
      assert r !in Rewritten(live, t);
      assert SameReceipt(live, t, r);
      GivenOutMeeting(live, s.next, r);
    }
    forall m | m in t.meetings && m !in live.meetings, k | k in s.tasks && s.tasks[k].Looked? && s.tasks[k].found.Some?
      ensures s.tasks[k].found.value != m
    {
      assert TaskHolds(s, s.tasks[k]);
    }
    AloneWriteStep(s, s', t, how, -1, {});
  }

  lemma GivenOutMeeting(t: Tables, next: nat, r: Id)
    requires LedgerHolds(t, next) && r in t.receipts && t.receipts[r].state.Complete?
    ensures t.receipts[r].state.meeting < next
  {}

  lemma AloneLookStep(s: State, task: nat)
    requires Inv(s) && InvAlone(s) && task in s.tasks && s.tasks[task].Started?
    ensures InvAlone(Looking(s, task, s.tasks[task].upload))
  {
    AloneTaskStep(s, Looking(s, task, s.tasks[task].upload), task);
  }

  lemma AloneBeginStep(s: State, task: nat, u: Upload)
    requires InvAlone(s) && Enabled(s, Begin(task, u), true)
    ensures InvAlone(Next(s, Begin(task, u), true))
  {
    var s' := Next(s, Begin(task, u), true);
    forall k | k in s'.tasks ensures AloneHolds(s', s'.tasks[k]) {
      if k != task { assert AloneHolds(s, s.tasks[k]); }
    }
  }

  /** Steps that only narrow down what may come back, and an open that backfills nothing. */
  lemma AloneNarrowStep(s: State, a: Action)
    requires Inv(s) && InvAlone(s) && Enabled(s, a, true)
    requires a.Settle? || a.Crash? || a.PowerLoss? || a.Open? || a.Checkpoint?
    ensures InvAlone(Next(s, a, true))
  {
    hide LedgerHolds, Includes, Backfill;
    var s' := Next(s, a, true);
    if a.Open? { AloneOpen(s); }
    forall d | Recoverable(s'.store, d) ensures Recoverable(s.store, d) { LiveIsRecoverable(s.store); }
    forall k | k in s'.tasks ensures AloneHolds(s', s'.tasks[k]) { assert AloneHolds(s, s.tasks[k]); }
  }

  lemma AloneOpen(s: State)
    requires Inv(s)
    ensures Keyed(Live(s.store)) && Backfill(Live(s.store)) == Live(s.store)
  {
    LiveIsRecoverable(s.store);
    assert TablesHold(s, Live(s.store));
    BackfillIsIdentity(Live(s.store), s.next);
  }

  lemma NextHoldsAlone(s: State, a: Action)
    requires Inv(s) && InvAlone(s) && Enabled(s, a, true)
    ensures InvAlone(Next(s, a, true))
  {
    match a {
      case Begin(task, u) => hide Inv, InvAlone, LedgerHolds; AloneBeginStep(s, task, u);
      case Look(task) => hide Inv, InvAlone, LedgerHolds; AloneLookStep(s, task);
      case Recheck(task) => hide Inv, InvAlone, LedgerHolds; AloneRecheckStep(s, task);
      case Commit(task, how) => hide Inv, InvAlone, LedgerHolds; AloneCommitStep(s, task, how);
      case SaveFailed(task, how) => hide Inv, InvAlone, LedgerHolds; AloneSaveFailedStep(s, task, how);
      case Local(t, next, how) => hide Inv, InvAlone, LedgerHolds; AloneLocalStep(s, t, next, how);
      case Abandon(task) => AloneMoveStep(s, a, task);
      case CopyFile(task) => AloneMoveStep(s, a, task);
      case SyncCopy(task, _) => AloneMoveStep(s, a, task);
      case Finish(task) => AloneMoveStep(s, a, task);
      case _ => hide Inv, InvAlone, LedgerHolds; AloneNarrowStep(s, a);
    }
  }

  lemma AloneMoveStep(s: State, a: Action, task: nat)
    requires Inv(s) && InvAlone(s) && Enabled(s, a, true)
    requires a == Abandon(task) || a == CopyFile(task) || (a.SyncCopy? && a.task == task) || a == Finish(task)
    ensures InvAlone(Next(s, a, true))
  {
    hide LedgerHolds;
    assert AloneHolds(s, s.tasks[task]);
    hide Inv, InvAlone;
    AloneTaskStep(s, Next(s, a, true), task);
  }

  lemma {:induction false} RunHoldsAlone(run: seq<State>, actions: seq<Action>, i: nat)
    requires Run(run, actions, true) && i < |run|
    ensures InvAlone(run[i])
    decreases i
  {
    hide Inv, Enabled, Next;
    if i > 0 {
      RunHolds(run, actions, true, i - 1);
      RunHoldsAlone(run, actions, i - 1);
      NextHoldsAlone(run[i - 1], actions[i - 1]);
    }
  }

  /** Main result: while one `complete` per recording runs at a time, the disk also holds the
      answered recording's complete receipt, whatever recovery brings back, for every recording whose
      settled receipt no local write changed or made. */
  lemma AnsweredReceiptStands(run: seq<State>, actions: seq<Action>, i: nat, u: Upload, m: Id, t: Tables)
    requires Run(run, actions, true) && i < |run|
    requires (u, m) in run[i].answered && Recoverable(run[i].store, t)
    requires u.key.recording !in run[i].rewritten
    ensures ReceiptStands(t, u, m)
  {
    RunHoldsAlone(run, actions, i);
  }

  /** Exactly when the failed receipt after a failed commit takes an answered receipt with it: when
      an answer was given for the same recording meanwhile. */
  lemma FailedSaveKeepsReceiptsUnlessAnswered(s: State, task: nat)
    requires Inv(s) && task in s.tasks && s.tasks[task].Failing?
    requires s.tasks[task].upload.device in Live(s.store).devices
    requires forall a :: a in s.answered ==> ReceiptStands(Live(s.store), a.0, a.1)
    ensures var after := Live(Next(s, SaveFailed(task, Synced), false).store);
      (forall a :: a in s.answered ==> ReceiptStands(after, a.0, a.1)) <==>
      (forall a :: a in s.answered ==> a.0.key.recording != s.tasks[task].upload.key.recording)
  {
    var after := Live(Next(s, SaveFailed(task, Synced), false).store);
    var r := s.tasks[task].upload.key.recording;
    if a :| a in s.answered && a.0.key.recording == r {
      assert !ReceiptStands(after, a.0, a.1);
    }
  }

  /** The actions, one after another, lead from `s` to `s'`. */
  ghost predicate Leads(s: State, actions: seq<Action>, exclusive: bool, s': State)
    decreases |actions|
  {
    if actions == [] then s == s'
    else Enabled(s, actions[0], exclusive) && Leads(Next(s, actions[0], exclusive), actions[1..], exclusive, s')
  }

  lemma {:induction false} LeadsOn(s: State, first: seq<Action>, s': State, second: seq<Action>, exclusive: bool, s'': State)
    requires Leads(s, first, exclusive, s') && Leads(s', second, exclusive, s'')
    ensures Leads(s, first + second, exclusive, s'')
    decreases |first|
  {
    hide Enabled, Next;
    if first == [] {
      assert first + second == second;
    } else {
      assert (first + second)[1..] == first[1..] + second;
      LeadsOn(Next(s, first[0], exclusive), first[1..], s', second, exclusive, s'');
    }
  }

  lemma {:induction false} LeadsAlong(run: seq<State>, actions: seq<Action>, exclusive: bool)
    requires |run| == |actions| + 1
    requires forall i :: 0 <= i < |actions| ==> Enabled(run[i], actions[i], exclusive) && run[i + 1] == Next(run[i], actions[i], exclusive)
    ensures Leads(run[0], actions, exclusive, run[|actions|])
    decreases |actions|
  {
    hide Enabled, Next;
    if actions != [] {
      LeadsAlong(run[1..], actions[1..], exclusive);
    }
  }

  // What one admission comes to.

  /** A `complete` of the upload may start as `task`. */
  ghost predicate MayBegin(s: State, task: nat, u: Upload, exclusive: bool) {
    && s.phase == Serving && task !in s.tasks
    && (exclusive ==> forall k :: k in s.tasks ==> s.tasks[k].upload.key.recording != u.key.recording)
  }

  /** The stored receipt under the upload's id is its own, or there is none. */
  predicate OwnReceipt(t: Tables, u: Upload) {
    u.key.recording in t.receipts ==> t.receipts[u.key.recording].upload == u
  }

  /** And it is complete with a meeting that exists. */
  predicate AdmittedBefore(t: Tables, u: Upload) {
    && u.key.recording in t.receipts && t.receipts[u.key.recording].state.Complete?
    && t.receipts[u.key.recording].state.meeting in t.meetings
  }

  lemma NothingToBackfill(s: State)
    requires Inv(s)
    ensures Keyed(Live(s.store)) && Backfill(Live(s.store)) == Live(s.store)
  {
    LiveIsRecoverable(s.store);
    assert TablesHold(s, Live(s.store));
    BackfillIsIdentity(Live(s.store), s.next);
  }

  /** Whatever recovery brought back opens, and serves once its checkpoint is done. */
  lemma {:induction false} EveryStoreServes(s: State, exclusive: bool)
    requires Inv(s) && s.phase == Down
    ensures Leads(s, [Open, Checkpoint(true)], exclusive, s.(store := Store(Live(s.store), [], {}), phase := Serving))
  {
    var s1 := s.(store := s.store.(tail := s.store.tail + [Live(s.store)]), phase := Opened);
    var s2 := s.(store := Store(Live(s.store), [], {}), phase := Serving);
    NothingToBackfill(s);
    OpensAndServes(s, s1, s2, exclusive);
    hide Inv, Next, Enabled;
    LeadsAlong([s, s1, s2], [Open, Checkpoint(true)], exclusive);
  }

  lemma OpensAndServes(s: State, s1: State, s2: State, exclusive: bool)
    requires s.phase == Down && Keyed(Live(s.store)) && Backfill(Live(s.store)) == Live(s.store)
    requires s1 == s.(store := s.store.(tail := s.store.tail + [Live(s.store)]), phase := Opened)
    requires s2 == s.(store := Store(Live(s.store), [], {}), phase := Serving)
    ensures Enabled(s, Open, exclusive) && Next(s, Open, exclusive) == s1
    ensures Enabled(s1, Checkpoint(true), exclusive) && Next(s1, Checkpoint(true), exclusive) == s2
  {
    hide KeepsAdmissions, Backfill, Keyed;
  }

  /** The upload, read and cleared for admission, as far as its copy. */
  lemma CopyMade(s: State, task: nat, u: Upload, exclusive: bool)
    requires MayBegin(s, task, u, exclusive) && OwnReceipt(Live(s.store), u) && !AdmittedBefore(Live(s.store), u)
    ensures Leads(s, [Begin(task, u), Look(task), Recheck(task), CopyFile(task)], exclusive,
                  s.(tasks := s.tasks[task := Copying(u, s.next)], masters := s.masters + {s.next}, next := s.next + 1))
  {
    var s4 := s.(tasks := s.tasks[task := Copying(u, s.next)], masters := s.masters + {s.next}, next := s.next + 1);
    var (a0, a1, a2, a3) := (Begin(task, u), Look(task), Recheck(task), CopyFile(task));
    assert Enabled(s, a0, exclusive);
    var s1 := Next(s, a0, exclusive);
    assert Enabled(s1, a1, exclusive);
    var s2 := Next(s1, a1, exclusive);
    assert Enabled(s2, a2, exclusive);
    var s3 := Next(s2, a2, exclusive);
    assert s3.tasks == s.tasks[task := Cleared(u)];
    assert Enabled(s3, a3, exclusive) && Next(s3, a3, exclusive) == s4;
    hide Next, Enabled;
    LeadsAlong([s, s1, s2, s3, s4], [a0, a1, a2, a3], exclusive);
  }

  /** Main result: an upload of a paired phone, with no receipt of another upload under its id, is answered
      if nothing fails: with its meeting at once where it was admitted before, else after a copy, its sync
      and the commit. A copy stays exactly where the meeting is new. */
  lemma {:induction false} EveryUploadIsAdmitted(s: State, task: nat, u: Upload, exclusive: bool) returns (s': State, m: Id)
    requires Inv(s) && MayBegin(s, task, u, exclusive)
    requires u.device in Live(s.store).devices && OwnReceipt(Live(s.store), u)
    ensures (u, m) in s'.answered && m in Live(s'.store).meetings && s'.tasks == s.tasks
    ensures if AdmittedBefore(Live(s.store), u)
      then m == Live(s.store).receipts[u.key.recording].state.meeting && s' == s.(answered := s'.answered)
           && Leads(s, [Begin(task, u), Look(task), Recheck(task)], exclusive, s')
      else s'.masters == (if m in Live(s.store).meetings then s.masters else s.masters + {m})
           && Leads(s, [Begin(task, u), Look(task), Recheck(task), CopyFile(task), SyncCopy(task, true), Commit(task, Synced), Finish(task)],
                    exclusive, s')
  {
    if AdmittedBefore(Live(s.store), u) {
      s', m := AnsweredAtOnce(s, task, u, exclusive);
    } else {
      CopyMade(s, task, u, exclusive);
      s', m := CopyAdmitted(s, task, u, exclusive);
      hide Inv, Next, Leads;
      var copying := s.(tasks := s.tasks[task := Copying(u, s.next)], masters := s.masters + {s.next}, next := s.next + 1);
      LeadsOn(s, [Begin(task, u), Look(task), Recheck(task), CopyFile(task)], copying,
              [SyncCopy(task, true), Commit(task, Synced), Finish(task)], exclusive, s');
      assert [Begin(task, u), Look(task), Recheck(task), CopyFile(task)] + [SyncCopy(task, true), Commit(task, Synced), Finish(task)]
          == [Begin(task, u), Look(task), Recheck(task), CopyFile(task), SyncCopy(task, true), Commit(task, Synced), Finish(task)];
    }
  }

  lemma AnsweredAtOnce(s: State, task: nat, u: Upload, exclusive: bool) returns (s': State, m: Id)
    requires MayBegin(s, task, u, exclusive) && OwnReceipt(Live(s.store), u) && AdmittedBefore(Live(s.store), u)
    ensures m == Live(s.store).receipts[u.key.recording].state.meeting && s' == s.(answered := s.answered + {(u, m)})
    ensures Leads(s, [Begin(task, u), Look(task), Recheck(task)], exclusive, s')
  {
    m := Live(s.store).receipts[u.key.recording].state.meeting;
    s' := s.(answered := s.answered + {(u, m)});
    var (a0, a1, a2) := (Begin(task, u), Look(task), Recheck(task));
    assert Enabled(s, a0, exclusive);
    var s1 := Next(s, a0, exclusive);
    assert Enabled(s1, a1, exclusive);
    var s2 := Next(s1, a1, exclusive);
    assert s.tasks[task := Looked(u, Some(m))] - {task} == s.tasks;
    assert Enabled(s2, a2, exclusive) && Next(s2, a2, exclusive) == s';
    hide Next, Enabled;
    LeadsAlong([s, s1, s2, s'], [a0, a1, a2], exclusive);
  }

  /** The copy on the disk, and the commit. */
  lemma CopyCommitted(s: State, task: nat, u: Upload, exclusive: bool, how: Write)
    requires u.device in Live(s.store).devices && OwnReceipt(Live(s.store), u) && !how.Plain?
    ensures var done := Admit(Live(s.store), u, s.next);
      && done.Committed?
      && Leads(s.(tasks := s.tasks[task := Copying(u, s.next)], masters := s.masters + {s.next}, next := s.next + 1),
               [SyncCopy(task, true), Commit(task, how)], exclusive,
               s.(store := Written(s.store, done.tables, how), masters := s.masters + {s.next}, kept := s.kept + {s.next}, next := s.next + 1,
                  tasks := s.tasks[task := if how.Synced? then Saved(u, s.next, done.value) else Failing(u, s.next)]))
  {
    AdmitIsExact(Live(s.store), u, s.next);
    hide Admit, OnlyAdmitted;
    var done := Admit(Live(s.store), u, s.next);
    var s0 := s.(tasks := s.tasks[task := Copying(u, s.next)], masters := s.masters + {s.next}, next := s.next + 1);
    var s1 := s0.(tasks := s.tasks[task := Copied(u, s.next)], kept := s.kept + {s.next});
    var s2 := s1.(store := Written(s.store, done.tables, how),
                  tasks := s.tasks[task := if how.Synced? then Saved(u, s.next, done.value) else Failing(u, s.next)]);
    var (a1, a2) := (SyncCopy(task, true), Commit(task, how));
    assert Enabled(s0, a1, exclusive) && Next(s0, a1, exclusive) == s1;
    assert Enabled(s1, a2, exclusive) && Next(s1, a2, exclusive) == s2;
    hide Next, Enabled;
    LeadsAlong([s0, s1, s2], [a1, a2], exclusive);
  }

  lemma OneMore(s: State, actions: seq<Action>, s': State, last: Action, exclusive: bool)
    requires Leads(s, actions, exclusive, s') && Enabled(s', last, exclusive)
    ensures Leads(s, actions + [last], exclusive, Next(s', last, exclusive))
  {
    LeadsAlong([s', Next(s', last, exclusive)], [last], exclusive);
    hide Next, Enabled;
    LeadsOn(s, actions, s', [last], exclusive, Next(s', last, exclusive));
  }

  /** The next id is in no table that may come back, and no copy's. */
  lemma NextIsNew(s: State)
    requires Inv(s)
    ensures s.next !in Live(s.store).meetings && s.next !in s.masters
  {
    LiveIsRecoverable(s.store);
    assert TablesHold(s, Live(s.store));
  }

  /** From the copy to the answer. */
  lemma CopyAdmitted(s: State, task: nat, u: Upload, exclusive: bool) returns (s': State, m: Id)
    requires Inv(s) && task !in s.tasks
    requires u.device in Live(s.store).devices && OwnReceipt(Live(s.store), u)
    ensures Leads(s.(tasks := s.tasks[task := Copying(u, s.next)], masters := s.masters + {s.next}, next := s.next + 1),
                  [SyncCopy(task, true), Commit(task, Synced), Finish(task)], exclusive, s')
    ensures (u, m) in s'.answered && m in Live(s'.store).meetings && s'.tasks == s.tasks
    ensures s'.masters == if m in Live(s.store).meetings then s.masters else s.masters + {m}
  {
    NextIsNew(s);
    hide Inv, Leads, Admit;
    CopyCommitted(s, task, u, exclusive, Synced);
    AdmitIsExact(Live(s.store), u, s.next);
    var done := Admit(Live(s.store), u, s.next);
    m := done.value;
    var s2 := s.(store := Written(s.store, done.tables, Synced), masters := s.masters + {s.next}, kept := s.kept + {s.next}, next := s.next + 1,
                 tasks := s.tasks[task := Saved(u, s.next, m)]);
    s' := Next(s2, Finish(task), exclusive);
    OneMore(s.(tasks := s.tasks[task := Copying(u, s.next)], masters := s.masters + {s.next}, next := s.next + 1),
            [SyncCopy(task, true), Commit(task, Synced)], s2, Finish(task), exclusive);
    assert s.tasks[task := Saved(u, s.next, m)] - {task} == s.tasks;
    assert s.masters + {s.next} - {s.next} == s.masters;
    assert [SyncCopy(task, true), Commit(task, Synced)] + [Finish(task)] == [SyncCopy(task, true), Commit(task, Synced), Finish(task)];
  }

  /** Another upload's receipt under the id ends the admission, and nothing has changed. */
  lemma AnotherUploadIsRefused(s: State, task: nat, u: Upload, exclusive: bool)
    requires MayBegin(s, task, u, exclusive) && !OwnReceipt(Live(s.store), u)
    ensures Leads(s, [Begin(task, u), Look(task)], exclusive, s)
  {
    var s1 := Next(s, Begin(task, u), exclusive);
    assert s.tasks[task := Started(u)] - {task} == s.tasks;
    assert Enabled(s1, Look(task), exclusive) && Next(s1, Look(task), exclusive) == s;
    hide Next, Enabled;
    LeadsAlong([s, s1, s], [Begin(task, u), Look(task)], exclusive);
  }

  /** A commit that fails, and its failed receipt on the disk, leave no copy and no meeting behind: only
      the receipt. */
  lemma FailedCommitLeavesNoCopy(s: State, task: nat, u: Upload, exclusive: bool, how: Write) returns (s': State)
    requires Inv(s) && MayBegin(s, task, u, exclusive) && (how.SyncFails? || how.Throws?)
    requires u.device in Live(s.store).devices && OwnReceipt(Live(s.store), u) && !AdmittedBefore(Live(s.store), u)
    ensures s'.masters == s.masters && s'.tasks == s.tasks && s'.answered == s.answered
    ensures forall t :: Recoverable(s'.store, t) <==>
      t == Live(s.store).(receipts := Live(s.store).receipts[u.key.recording := Receipt(u, Failed)])
    ensures Leads(s, [Begin(task, u), Look(task), Recheck(task), CopyFile(task), SyncCopy(task, true), Commit(task, how), SaveFailed(task, Synced)],
                  exclusive, s')
  {
    CopyMade(s, task, u, exclusive);
    s' := CopyFailed(s, task, u, exclusive, how);
    hide Inv, Next, Leads;
    var copying := s.(tasks := s.tasks[task := Copying(u, s.next)], masters := s.masters + {s.next}, next := s.next + 1);
    LeadsOn(s, [Begin(task, u), Look(task), Recheck(task), CopyFile(task)], copying,
            [SyncCopy(task, true), Commit(task, how), SaveFailed(task, Synced)], exclusive, s');
    assert [Begin(task, u), Look(task), Recheck(task), CopyFile(task)] + [SyncCopy(task, true), Commit(task, how), SaveFailed(task, Synced)]
        == [Begin(task, u), Look(task), Recheck(task), CopyFile(task), SyncCopy(task, true), Commit(task, how), SaveFailed(task, Synced)];
  }

  lemma CopyFailed(s: State, task: nat, u: Upload, exclusive: bool, how: Write) returns (s': State)
    requires Inv(s) && task !in s.tasks && (how.SyncFails? || how.Throws?)
    requires u.device in Live(s.store).devices && OwnReceipt(Live(s.store), u)
    ensures Leads(s.(tasks := s.tasks[task := Copying(u, s.next)], masters := s.masters + {s.next}, next := s.next + 1),
                  [SyncCopy(task, true), Commit(task, how), SaveFailed(task, Synced)], exclusive, s')
    ensures s'.masters == s.masters && s'.tasks == s.tasks && s'.answered == s.answered
    ensures s'.store == Store(Live(s.store).(receipts := Live(s.store).receipts[u.key.recording := Receipt(u, Failed)]), [], {})
  {
    NextIsNew(s);
    hide Inv, Leads, Admit;
    CopyCommitted(s, task, u, exclusive, how);
    var done := Admit(Live(s.store), u, s.next);
    var s2 := s.(store := Written(s.store, done.tables, how), masters := s.masters + {s.next}, kept := s.kept + {s.next}, next := s.next + 1,
                 tasks := s.tasks[task := Failing(u, s.next)]);
    s' := Next(s2, SaveFailed(task, Synced), exclusive);
    OneMore(s.(tasks := s.tasks[task := Copying(u, s.next)], masters := s.masters + {s.next}, next := s.next + 1),
            [SyncCopy(task, true), Commit(task, how)], s2, SaveFailed(task, Synced), exclusive);
    assert Live(s2.store) == Live(s.store);
    assert s.tasks[task := Failing(u, s.next)] - {task} == s.tasks;
    assert s.masters + {s.next} - {s.next} == s.masters;
    assert [SyncCopy(task, true), Commit(task, how)] + [SaveFailed(task, Synced)]
        == [SyncCopy(task, true), Commit(task, how), SaveFailed(task, Synced)];
  }

  const PHONE := Pair(EMPTY, 0)
  const UPLOAD := Upload(0, Key(0, 1, 1))

  function Waiting(tasks: map<nat, Task>, ids: set<Id>, next: nat): State {
    State(Store(PHONE, [], {}), ids, ids, Serving, tasks, next, {}, {})
  }

  lemma PhonePairs()
    ensures Keyed(EMPTY) && Backfill(EMPTY) == EMPTY && KeepsAdmissions(EMPTY, PHONE, 0, 0) && Rewritten(EMPTY, PHONE) == {}
  {
    hide Backfill;
    BackfillIsIdentity(EMPTY, 0);
    hide Settled;
  }

  lemma Launched()
    ensures Leads(INITIAL, [Open, Local(PHONE, 0, Plain), Checkpoint(true)], false, Waiting(map[], {}, 0))
  {
    PhonePairs();
    hide KeepsAdmissions, Backfill;
    var s1 := Next(INITIAL, Open, false);
    var s2 := Next(s1, Local(PHONE, 0, Plain), false);
    var s3 := Next(s2, Checkpoint(true), false);
    assert Live(s2.store) == PHONE;
    assert s3 == Waiting(map[], {}, 0);
    hide Next, Live, Enabled;
    LeadsAlong([INITIAL, s1, s2, s3], [Open, Local(PHONE, 0, Plain), Checkpoint(true)], false);
  }

  /** One admission of the upload as far as its synced copy. */
  lemma CopyReached(tasks: map<nat, Task>, task: nat, ids: set<Id>, next: nat)
    requires task !in tasks
    ensures Leads(Waiting(tasks, ids, next),
              [Begin(task, UPLOAD), Look(task), Recheck(task), CopyFile(task), SyncCopy(task, true)], false,
              Waiting(tasks[task := Copied(UPLOAD, next)], ids + {next}, next + 1))
  {
    var s0 := Waiting(tasks, ids, next);
    var s5 := Waiting(tasks[task := Copied(UPLOAD, next)], ids + {next}, next + 1);
    var (a0, a1, a2, a3, a4) := (Begin(task, UPLOAD), Look(task), Recheck(task), CopyFile(task), SyncCopy(task, true));
    assert Enabled(s0, a0, false);
    var s1 := Next(s0, a0, false);
    assert Enabled(s1, a1, false);
    var s2 := Next(s1, a1, false);
    assert Enabled(s2, a2, false);
    var s3 := Next(s2, a2, false);
    assert Enabled(s3, a3, false);
    var s4 := Next(s3, a3, false);
    assert Enabled(s4, a4, false) && Next(s4, a4, false) == s5;
    hide Next, Enabled;
    LeadsAlong([s0, s1, s2, s3, s4, s5], [a0, a1, a2, a3, a4], false);
  }

  const ADMITTED := Tables({0}, map[1 := Meeting(Queued, {UPLOAD.key})], {1}, map[0 := Receipt(UPLOAD, Complete(1))], map[UPLOAD.key := 1])

  const BOTH_COMMITTED :=
    State(Store(ADMITTED, [], {}), {0, 1}, {0, 1}, Serving, map[0 := Failing(UPLOAD, 0), 1 := Saved(UPLOAD, 1, 1)], 2, {}, {})

  /** The first commit fails to sync, the second is on the disk. */
  lemma BothCommit()
    ensures Leads(Waiting(map[0 := Copied(UPLOAD, 0), 1 := Copied(UPLOAD, 1)], {0, 1}, 2),
              [Commit(0, SyncFails), Commit(1, Synced)], false, BOTH_COMMITTED)
  {
    var s0 := Waiting(map[0 := Copied(UPLOAD, 0), 1 := Copied(UPLOAD, 1)], {0, 1}, 2);
    var s1 := Next(s0, Commit(0, SyncFails), false);
    assert Live(s1.store) == PHONE && s1.tasks == map[0 := Failing(UPLOAD, 0), 1 := Copied(UPLOAD, 1)];
    assert Admit(PHONE, UPLOAD, 1) == Committed(ADMITTED, 1);
    assert Next(s1, Commit(1, Synced), false) == BOTH_COMMITTED;
    LeadsAlong([s0, s1, BOTH_COMMITTED], [Commit(0, SyncFails), Commit(1, Synced)], false);
  }

  /** The second is answered, and the first one's failed receipt goes over its complete one. */
  lemma ReceiptLost() returns (s: State)
    ensures Leads(BOTH_COMMITTED, [Finish(1), SaveFailed(0, Synced)], false, s)
    ensures (UPLOAD, 1) in s.answered && s.rewritten == {} && !ReceiptStands(s.store.synced, UPLOAD, 1)
  {
    var s1 := Next(BOTH_COMMITTED, Finish(1), false);
    s := Next(s1, SaveFailed(0, Synced), false);
    assert s.store.synced.receipts[0] == Receipt(UPLOAD, Failed);
    LeadsAlong([BOTH_COMMITTED, s1, s], [Finish(1), SaveFailed(0, Synced)], false);
  }

  /** Without that guard two admits of one recording can lose its receipt. The meeting, its asset
      and its ledger row stay. */
  lemma TwoAdmitsCanLoseTheReceipt()
    ensures exists actions, s ::
      Leads(INITIAL, actions, false, s) && (UPLOAD, 1) in s.answered && s.rewritten == {} && !ReceiptStands(s.store.synced, UPLOAD, 1)
  {
    hide Leads, Next;
    var one := Waiting(map[0 := Copied(UPLOAD, 0)], {0}, 1);
    var two := Waiting(map[0 := Copied(UPLOAD, 0), 1 := Copied(UPLOAD, 1)], {0, 1}, 2);
    Launched();
    CopyReached(map[], 0, {}, 0);
    CopyReached(map[0 := Copied(UPLOAD, 0)], 1, {0}, 1);
    assert {} + {0} == {0} && {0} + {1} == {0, 1};
    var s := ReceiptLost();
    var launch := [Open, Local(PHONE, 0, Plain), Checkpoint(true)];
    var first := [Begin(0, UPLOAD), Look(0), Recheck(0), CopyFile(0), SyncCopy(0, true)];
    var second := [Begin(1, UPLOAD), Look(1), Recheck(1), CopyFile(1), SyncCopy(1, true)];
    BothCommit();
    var commits := [Commit(0, SyncFails), Commit(1, Synced)];
    LeadsOn(INITIAL, launch, Waiting(map[], {}, 0), first, false, one);
    LeadsOn(INITIAL, launch + first, one, second, false, two);
    LeadsOn(INITIAL, launch + first + second, two, commits, false, BOTH_COMMITTED);
    LeadsOn(INITIAL, launch + first + second + commits, BOTH_COMMITTED, [Finish(1), SaveFailed(0, Synced)], false, s);
  }
}
