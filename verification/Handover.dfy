/** The handover tables and their transactions (`MeetingStore+Handover.swift`, `MeetingStore.swift`). */
module Handover {

  type Id = nat

  /** The bytes of one phone recording: its id, size and SHA-256. */
  datatype Key = Key(recording: Id, byteCount: int, sha256: int)

  /** One phone's upload of one recording. */
  datatype Upload = Upload(device: Id, key: Key)

  datatype ReceiptState = Receiving | Verifying | Complete(meeting: Id) | Failed

  datatype Receipt = Receipt(upload: Upload, state: ReceiptState)

  datatype Stage = Recording | Queued | Processing | Ready | Broken

  /** `admittedFor` says which bytes a phone meeting was admitted for; the tables do not store it. */
  datatype Meeting = Meeting(stage: Stage, admittedFor: set<Key>)

  /** The tables. A receipt is found by its recording id; an asset by its meeting. */
  datatype Tables = Tables(
    devices: set<Id>,
    meetings: map<Id, Meeting>,
    assets: set<Id>,
    receipts: map<Id, Receipt>,
    ledger: map<Key, Id>)

  datatype Refusal = ReceiptOfAnotherUpload | NoSuchDevice | MeetingNotFound | MeetingBusy

  datatype Outcome<+T> = Committed(tables: Tables, value: T) | Refused(why: Refusal)

  const EMPTY := Tables({}, map[], {}, map[], map[])

  /** Whether the stored receipt under the upload's recording id is another upload's. */
  predicate AnotherUploads(t: Tables, u: Upload) {
    u.key.recording in t.receipts && t.receipts[u.key.recording].upload != u
  }

  /** The meeting the ledger holds for these bytes, while the meeting exists. */
  predicate HeldAlready(t: Tables, k: Key) {
    k in t.ledger && t.ledger[k] in t.meetings
  }

  /** `saveDurably(_:meeting:asset:)`: the receipt is completed with the meeting the ledger holds,
      or with the new one, which is then written with its asset and its ledger row. */
  function Admit(t: Tables, u: Upload, meeting: Id): Outcome<Id> {
    if AnotherUploads(t, u) then Refused(ReceiptOfAnotherUpload)
    else if u.device !in t.devices then Refused(NoSuchDevice)
    else if HeldAlready(t, u.key) then
      var earlier := t.ledger[u.key];
      Committed(t.(receipts := t.receipts[u.key.recording := Receipt(u, Complete(earlier))]), earlier)
    else
      var meetings := t.meetings[meeting := Meeting(Queued, {u.key})];
      Committed(
        t.(meetings := meetings, assets := t.assets + {meeting},
           receipts := t.receipts[u.key.recording := Receipt(u, Complete(meeting))],
           ledger := Upsert(t.ledger, u.key, meeting, meetings.Keys)),
        meeting)
  }

  /** A conflicting row moves only when its meeting is gone. */
  function Upsert(ledger: map<Key, Id>, k: Key, meeting: Id, meetings: set<Id>): map<Key, Id> {
    if k in ledger && ledger[k] in meetings then ledger else ledger[k := meeting]
  }

  /** `saveDurably(_:)`, which asks nothing of the receipt it writes over. */
  function SaveReceipt(t: Tables, r: Receipt): Outcome<()> {
    if r.upload.device !in t.devices then Refused(NoSuchDevice)
    else Committed(t.(receipts := t.receipts[r.upload.key.recording := r]), ())
  }

  function Pair(t: Tables, device: Id): Tables {
    t.(devices := t.devices + {device})
  }

  /** Revoking a phone takes its receipts with it. */
  function Revoke(t: Tables, device: Id): Tables {
    t.(devices := t.devices - {device},
       receipts := map r | r in t.receipts && t.receipts[r].upload.device != device :: t.receipts[r])
  }

  function SaveMeeting(t: Tables, meeting: Id, stage: Stage): Tables {
    if meeting in t.meetings then t.(meetings := t.meetings[meeting := t.meetings[meeting].(stage := stage)])
    else t.(meetings := t.meetings[meeting := Meeting(stage, {})])
  }

  function DeleteMeeting(t: Tables, meeting: Id): Outcome<()> {
    if meeting !in t.meetings then Refused(MeetingNotFound)
    else if t.meetings[meeting].stage in {Recording, Processing} then Refused(MeetingBusy)
    else
      Committed(
        t.(meetings := t.meetings - {meeting}, assets := t.assets - {meeting},
           receipts := map r | r in t.receipts && t.receipts[r].state != Complete(meeting) :: t.receipts[r]),
        ())
  }

  /** `backfillAdmissions`: a ledger row for every complete receipt whose meeting exists and whose
      bytes have none. */
  function Backfill(t: Tables): Tables
    requires Keyed(t)
  {
    t.(ledger := t.ledger + MissingRows(t))
  }

  function MissingRows(t: Tables): map<Key, Id>
    requires Keyed(t)
  {
    map r | r in t.receipts && RowMissing(t, t.receipts[r]) :: t.receipts[r].upload.key := t.receipts[r].state.meeting
  }

  predicate RowMissing(t: Tables, r: Receipt) {
    r.state.Complete? && r.state.meeting in t.meetings && r.upload.key !in t.ledger
  }

  /** A receipt sits under its own recording id. */
  ghost predicate Keyed(t: Tables) {
    forall r :: r in t.receipts ==> t.receipts[r].upload.key.recording == r
  }

  /** An existing meeting admitted for some bytes has its asset, and their ledger row points at it. */
  ghost predicate LedgerPointsAtIt(t: Tables) {
    forall m, k :: m in t.meetings && k in t.meetings[m].admittedFor ==> PointsAt(t, m, k)
  }

  ghost predicate PointsAt(t: Tables, m: Id, k: Key)
    requires m in t.meetings
  {
    t.meetings[m].admittedFor == {k} && k in t.ledger && t.ledger[k] == m && m in t.assets
  }

  /** A ledger row whose meeting exists is that meeting's own. */
  ghost predicate LedgerRowsAreOwned(t: Tables) {
    forall k :: k in t.ledger && t.ledger[k] in t.meetings ==> k in t.meetings[t.ledger[k]].admittedFor
  }

  ghost predicate ReceiptsAgreeWithLedger(t: Tables) {
    forall r :: r in t.receipts ==> ReceiptAgrees(t, t.receipts[r])
  }

  /** A complete receipt whose meeting exists agrees with the ledger. */
  ghost predicate ReceiptAgrees(t: Tables, r: Receipt) {
    r.state.Complete? && r.state.meeting in t.meetings ==>
      r.upload.key in t.ledger && t.ledger[r.upload.key] == r.state.meeting
  }

  /** Every meeting id the tables hold has been given out. */
  ghost predicate GivenOut(t: Tables, next: nat) {
    && (forall r :: r in t.receipts && t.receipts[r].state.Complete? ==> t.receipts[r].state.meeting < next)
    && (forall m :: m in t.meetings ==> m < next)
    && (forall k :: k in t.ledger ==> t.ledger[k] < next)
  }

  ghost predicate LedgerHolds(t: Tables, next: nat) {
    && Keyed(t)
    && LedgerPointsAtIt(t)
    && LedgerRowsAreOwned(t)
    && ReceiptsAgreeWithLedger(t)
    && GivenOut(t, next)
  }

  datatype Operation =
    | Admits(upload: Upload)
    | Saves(receipt: Receipt)
    | Pairs(device: Id)
    | Revokes(device: Id)
    | SavesMeeting(meeting: Id, stage: Stage)
    | NewMeeting(stage: Stage)
    | Deletes(meeting: Id)
    | Opens

  /** A receipt saved as complete for bytes announced again names the meeting the ledger holds. */
  ghost predicate AgreesWithLedger(t: Tables, r: Receipt) {
    r.state.Complete? ==> r.upload.key in t.ledger && t.ledger[r.upload.key] == r.state.meeting
  }

  /** Or a meeting that was deleted while the receipt was on its way. */
  ghost predicate AgreedWithLedger(t: Tables, next: nat, r: Receipt) {
    AgreesWithLedger(t, r) || (r.state.meeting !in t.meetings && r.state.meeting < next)
  }

  /** One committed operation; a refused one leaves the tables. A receipt saved outside an
      admission is not complete, or is the answer for bytes the ledger holds, or held. */
  ghost function Operate(t: Tables, next: nat, op: Operation): (Tables, nat)
    requires Keyed(t)
  {
    match op
    case Admits(u) =>
      var done := Admit(t, u, next);
      (if done.Committed? then done.tables else t, next + 1)
    case Saves(r) =>
      var done := SaveReceipt(t, r);
      (if done.Committed? && AgreedWithLedger(t, next, r) then done.tables else t, next)
    case Pairs(d) => (Pair(t, d), next)
    case Revokes(d) => (Revoke(t, d), next)
    case SavesMeeting(m, stage) => (if m in t.meetings then SaveMeeting(t, m, stage) else t, next)
    case NewMeeting(stage) => (SaveMeeting(t, next, stage), next + 1)
    case Deletes(m) =>
      var done := DeleteMeeting(t, m);
      (if done.Committed? then done.tables else t, next)
    case Opens => (Backfill(t), next)
  }

  /** No row of the tables names this meeting. */
  ghost predicate Unused(t: Tables, meeting: Id) {
    && meeting !in t.meetings
    && (forall k :: k in t.ledger ==> t.ledger[k] != meeting)
    && (forall r :: r in t.receipts ==> t.receipts[r].state != Complete(meeting))
  }

  lemma AdmitKeepsLedger(t: Tables, next: nat, u: Upload, meeting: Id)
    requires LedgerHolds(t, next) && Unused(t, meeting) && meeting < next
    ensures var done := Admit(t, u, meeting);
      done.Committed? ==> LedgerHolds(done.tables, next)
  {}

  /** Nothing is missing from the ledger of a store this build alone has written. */
  lemma BackfillIsIdentity(t: Tables, next: nat)
    requires LedgerHolds(t, next)
    ensures Backfill(t) == t
  {
    NothingMissing(t);
    hide MissingRows, LedgerPointsAtIt, LedgerRowsAreOwned, ReceiptsAgreeWithLedger, GivenOut;
    assert t.ledger + map[] == t.ledger;
  }

  lemma NothingMissing(t: Tables)
    requires Keyed(t) && ReceiptsAgreeWithLedger(t)
    ensures MissingRows(t) == map[]
  {
    forall r | r in t.receipts ensures !RowMissing(t, t.receipts[r]) {
      assert ReceiptAgrees(t, t.receipts[r]);
    }
    hide RowMissing, ReceiptsAgreeWithLedger;
    assert MissingRows(t).Keys == {};
  }

  lemma OperateKeepsLedger(t: Tables, next: nat, op: Operation)
    requires LedgerHolds(t, next)
    ensures var (t', next') := Operate(t, next, op); LedgerHolds(t', next') && next' >= next
  {
    match op {
      case Admits(u) => AdmitKeepsLedger(t, next + 1, u, next);
      case Opens => BackfillIsIdentity(t, next);
      case Saves(r) => SaveKeepsLedger(t, next, r);
      case _ => hide Backfill, Admit, SaveReceipt;
    }
  }

  lemma SaveKeepsLedger(t: Tables, next: nat, r: Receipt)
    requires LedgerHolds(t, next)
    ensures SaveReceipt(t, r).Committed? && AgreedWithLedger(t, next, r) ==> LedgerHolds(SaveReceipt(t, r).tables, next)
  {
    hide Backfill, Admit;
  }

  /** The tables after a history of operations on an empty store. */
  ghost function After(ops: seq<Operation>): (r: (Tables, nat))
    ensures LedgerHolds(r.0, r.1)
  {
    if ops == [] then (EMPTY, 0)
    else
      var (t, next) := After(ops[..|ops| - 1]);
      OperateKeepsLedger(t, next, ops[|ops| - 1]);
      Operate(t, next, ops[|ops| - 1])
  }

  ghost predicate OneMeetingForTheBytes(t: Tables) {
    forall m, n, k | m in t.meetings && n in t.meetings ::
      k in t.meetings[m].admittedFor && k in t.meetings[n].admittedFor ==> m == n
  }

  lemma OneMeeting(t: Tables)
    requires LedgerPointsAtIt(t)
    ensures OneMeetingForTheBytes(t)
  {
    forall m, n, k | m in t.meetings && n in t.meetings && k in t.meetings[m].admittedFor && k in t.meetings[n].admittedFor
      ensures m == n
    {
      assert PointsAt(t, m, k) && PointsAt(t, n, k);
    }
  }

  /** Main result, for every history: no two existing meetings were admitted for the same bytes and
      the ledger points at the one there is; a complete receipt whose meeting exists agrees with the
      ledger; opening the store changes nothing. */
  lemma LedgerOverEveryHistory(ops: seq<Operation>)
    ensures OneMeetingForTheBytes(After(ops).0) && LedgerPointsAtIt(After(ops).0)
    ensures ReceiptsAgreeWithLedger(After(ops).0)
    ensures Backfill(After(ops).0) == After(ops).0
  {
    hide LedgerPointsAtIt, LedgerRowsAreOwned, ReceiptsAgreeWithLedger, GivenOut, Backfill, OneMeetingForTheBytes;
    var (t, next) := After(ops);
    BackfillIsIdentity(t, next);
    OneMeeting(t);
  }

  /** The receipt table's foreign key. */
  ghost predicate DevicesKnown(t: Tables) {
    forall r :: r in t.receipts ==> t.receipts[r].upload.device in t.devices
  }

  lemma OperateKeepsDevices(t: Tables, next: nat, op: Operation)
    requires LedgerHolds(t, next) && DevicesKnown(t)
    ensures DevicesKnown(Operate(t, next, op).0)
  {
    match op {
      case Opens => BackfillIsIdentity(t, next);
      case Admits(u) => hide LedgerHolds, Backfill;
      case _ => hide LedgerHolds, Backfill, Admit;
    }
  }

  /** Over every history no receipt is of a phone that is not paired: none is saved for one, and a
      revoke leaves none. */
  lemma {:induction false} ReceiptsHaveDevices(ops: seq<Operation>)
    ensures DevicesKnown(After(ops).0)
  {
    if ops != [] {
      hide LedgerHolds, Operate;
      ReceiptsHaveDevices(ops[..|ops| - 1]);
      var (t, next) := After(ops[..|ops| - 1]);
      OperateKeepsDevices(t, next, ops[|ops| - 1]);
    }
  }

  /** Another upload's receipt is never completed: a receipt that stays under its recording id
      becomes complete only through the admission of the very upload it stands for, or as the
      answer to bytes the ledger holds, or held. */
  lemma OnlyItsOwnUploadCompletesAReceipt(t: Tables, next: nat, op: Operation, r: Id)
    requires LedgerHolds(t, next) && r in t.receipts
    ensures var t' := Operate(t, next, op).0;
      r in t'.receipts && t'.receipts[r].state.Complete? && t'.receipts[r] != t.receipts[r] ==>
        || (op == Admits(t.receipts[r].upload) && t'.receipts[r].upload == t.receipts[r].upload)
        || (op == Saves(t'.receipts[r]) && AgreedWithLedger(t, next, t'.receipts[r]))
  {
    BackfillIsIdentity(t, next);
  }

  /** The same bytes admitted again are the meeting they already are, and a second one is written
      exactly when that meeting is gone. */
  lemma AdmittedAgain(t: Tables, next: nat, u: Upload, meeting: Id)
    requires LedgerHolds(t, next) && meeting >= next
    requires !AnotherUploads(t, u) && u.device in t.devices
    ensures var done := Admit(t, u, meeting);
      && done.Committed?
      && done.value in done.tables.meetings && u.key in done.tables.meetings[done.value].admittedFor
      && (done.value == meeting <==> forall m :: m in t.meetings ==> u.key !in t.meetings[m].admittedFor)
      && (done.value != meeting ==> done.tables.meetings == t.meetings)
  {}

  // What an operation changes, and nothing else.

  /** The same row, or no row, under one key. */
  predicate SameAt<K, V(==)>(a: map<K, V>, b: map<K, V>, k: K) {
    (k in a <==> k in b) && (k in a ==> a[k] == b[k])
  }

  /** A meeting deleted: it, its asset and the receipts complete with it are gone, and no other row has
      changed. */
  ghost predicate OnlyDeleted(t: Tables, t': Tables, meeting: Id) {
    && meeting in t.meetings && meeting !in t'.meetings && meeting !in t'.assets
    && (forall m :: m != meeting ==> SameAt(t.meetings, t'.meetings, m) && (m in t.assets <==> m in t'.assets))
    && (forall r :: if r in t.receipts && t.receipts[r].state == Complete(meeting) then r !in t'.receipts
                    else SameAt(t.receipts, t'.receipts, r))
    && t'.devices == t.devices && t'.ledger == t.ledger
  }

  /** A phone revoked: it and its receipts are gone, and no other row has changed. */
  ghost predicate OnlyRevoked(t: Tables, t': Tables, device: Id) {
    && device !in t'.devices && (forall d :: d != device ==> (d in t.devices <==> d in t'.devices))
    && (forall r :: if r in t.receipts && t.receipts[r].upload.device == device then r !in t'.receipts
                    else SameAt(t.receipts, t'.receipts, r))
    && t'.meetings == t.meetings && t'.assets == t.assets && t'.ledger == t.ledger
  }

  /** An upload admitted as `admitted`: its receipt says so, a new meeting comes queued with its asset
      and ledger row, and no other row has changed. */
  ghost predicate OnlyAdmitted(t: Tables, t': Tables, u: Upload, meeting: Id, admitted: Id) {
    var held := u.key in t.ledger && t.ledger[u.key] in t.meetings;
    && admitted == (if held then t.ledger[u.key] else meeting)
    && u.key.recording in t'.receipts && t'.receipts[u.key.recording] == Receipt(u, Complete(admitted))
    && (forall r :: r != u.key.recording ==> SameAt(t.receipts, t'.receipts, r))
    && t'.devices == t.devices
    && (held ==> t'.meetings == t.meetings && t'.assets == t.assets && t'.ledger == t.ledger)
    && (!held ==>
          && meeting in t'.meetings && t'.meetings[meeting] == Meeting(Queued, {u.key}) && meeting in t'.assets
          && u.key in t'.ledger && t'.ledger[u.key] == meeting
          && (forall m :: m != meeting ==> SameAt(t.meetings, t'.meetings, m) && (m in t.assets <==> m in t'.assets))
          && (forall k :: k != u.key ==> SameAt(t.ledger, t'.ledger, k)))
  }

  /** Over the rows of any older build: every row stays, and one is added exactly for each complete receipt
      whose meeting exists and whose bytes have none. */
  lemma BackfillIsExact(t: Tables, k: Key)
    requires Keyed(t)
    ensures Backfill(t) == t.(ledger := Backfill(t).ledger)
    ensures k in t.ledger ==> SameAt(t.ledger, Backfill(t).ledger, k)
    ensures k !in t.ledger ==>
      if k.recording in t.receipts && t.receipts[k.recording].upload.key == k && t.receipts[k.recording].state.Complete?
         && t.receipts[k.recording].state.meeting in t.meetings
      then k in Backfill(t).ledger && Backfill(t).ledger[k] == t.receipts[k.recording].state.meeting
      else k !in Backfill(t).ledger
  {
    var rows := MissingRows(t);
    if k in rows {
      var r :| r in t.receipts && RowMissing(t, t.receipts[r]) && t.receipts[r].upload.key == k;
    } else if k.recording in t.receipts {
      assert !(RowMissing(t, t.receipts[k.recording]) && t.receipts[k.recording].upload.key == k);
    }
  }

  /** An admission commits exactly where no other upload's receipt is under the id and the phone is
      paired. */
  lemma AdmitIsExact(t: Tables, u: Upload, meeting: Id)
    ensures var done, r := Admit(t, u, meeting), u.key.recording;
      && (done == Refused(ReceiptOfAnotherUpload) <==> r in t.receipts && t.receipts[r].upload != u)
      && (done.Committed? <==> u.device in t.devices && (r in t.receipts ==> t.receipts[r].upload == u))
      && (done.Committed? ==> OnlyAdmitted(t, done.tables, u, meeting, done.value))
  {}

  /** Every operation, row by row: which of them can have changed a row. */
  lemma EachOperationChangesOnly(t: Tables, next: nat, op: Operation)
    requires LedgerHolds(t, next)
    ensures var t' := Operate(t, next, op).0;
      && (forall d :: (d in t.devices <==> d in t'.devices) || op == Pairs(d) || op == Revokes(d))
      && (forall m :: SameAt(t.meetings, t'.meetings, m) || op == Deletes(m) || (op.SavesMeeting? && op.meeting == m)
            || (m == next && (op.Admits? || op.NewMeeting?)))
      && (forall m :: (m in t.assets <==> m in t'.assets) || op == Deletes(m) || (m == next && op.Admits?))
      && (forall r :: SameAt(t.receipts, t'.receipts, r) || (op.Admits? && op.upload.key.recording == r)
            || (op.Saves? && op.receipt.upload.key.recording == r)
            || (r in t.receipts && (op == Revokes(t.receipts[r].upload.device)
                  || (t.receipts[r].state.Complete? && op == Deletes(t.receipts[r].state.meeting)))))
      && (forall k :: SameAt(t.ledger, t'.ledger, k) || (op.Admits? && op.upload.key == k))
  {
    match op {
      case Opens => BackfillIsIdentity(t, next);
      case _ => hide LedgerHolds, Backfill;
    }
  }

  lemma IdleOrBusy(stage: Stage)
    ensures stage in {Queued, Ready, Broken} <==> stage !in {Recording, Processing}
  {
    match stage { case _ => }
  }

  /** And what it comes to: done as it says, or refused with nothing changed. */
  lemma EachOperationDoes(t: Tables, next: nat, op: Operation)
    requires LedgerHolds(t, next)
    ensures var t' := Operate(t, next, op).0;
      match op
      case Admits(u) =>
        if u.device in t.devices && (u.key.recording in t.receipts ==> t.receipts[u.key.recording].upload == u)
        then OnlyAdmitted(t, t', u, next, if u.key in t.ledger && t.ledger[u.key] in t.meetings then t.ledger[u.key] else next)
        else t' == t
      case Saves(r) =>
        if r.upload.device in t.devices && AgreedWithLedger(t, next, r)
        then r.upload.key.recording in t'.receipts && t'.receipts[r.upload.key.recording] == r else t' == t
      case Pairs(d) => d in t'.devices
      case Revokes(d) => OnlyRevoked(t, t', d)
      case SavesMeeting(m, stage) =>
        if m in t.meetings then m in t'.meetings && t'.meetings[m] == Meeting(stage, t.meetings[m].admittedFor) else t' == t
      case NewMeeting(stage) => next in t'.meetings && t'.meetings[next] == Meeting(stage, {})
      case Deletes(m) =>
        if m in t.meetings && t.meetings[m].stage in {Queued, Ready, Broken} then OnlyDeleted(t, t', m) else t' == t
      case Opens => t' == t
  {
    match op {
      case Opens => BackfillIsIdentity(t, next);
      case Admits(u) => AdmitIsExact(t, u, next); hide LedgerHolds, Backfill;
      case Deletes(m) => if m in t.meetings { IdleOrBusy(t.meetings[m].stage); } hide LedgerHolds, Backfill, Admit;
      case _ => hide LedgerHolds, Backfill, Admit;
    }
  }

  /** The rows themselves, written one table after another inside a transaction that rolls back. */
  class Database {
    var devices: set<Id>
    var meetings: map<Id, Meeting>
    var assets: set<Id>
    var receipts: map<Id, Receipt>
    var ledger: map<Key, Id>

    function Rows(): Tables
      reads this
    {
      Tables(devices, meetings, assets, receipts, ledger)
    }

    constructor ()
      ensures Rows() == EMPTY
    {
      devices, meetings, assets, receipts, ledger := {}, map[], {}, map[], map[];
    }

    /** A receipt needs its device's row. */
    method SaveRow(r: Receipt) returns (saved: bool)
      modifies `receipts
      ensures saved <==> r.upload.device in devices
      ensures old(DevicesKnown(Rows())) ==> DevicesKnown(Rows())
      ensures receipts == if saved then old(receipts)[r.upload.key.recording := r] else old(receipts)
    {
      saved := r.upload.device in devices;
      if saved { receipts := receipts[r.upload.key.recording := r]; }
    }

    method SaveAdmission(u: Upload, meeting: Id) returns (done: Outcome<Id>)
      modifies this
      ensures var after := Admit(old(Rows()), u, meeting);
        && (after.Refused? ==> done == after && Rows() == old(Rows()))
        && (after.Committed? ==> done == after && Rows() == after.tables)
      ensures done.Committed? <==>
        u.device in old(devices) && (u.key.recording in old(receipts) ==> old(receipts)[u.key.recording].upload == u)
      ensures if done.Committed? then OnlyAdmitted(old(Rows()), Rows(), u, meeting, done.value) else Rows() == old(Rows())
    {
      hide OnlyAdmitted, DevicesKnown;
      AdmitIsExact(Rows(), u, meeting);
      var before := Rows();
      if u.key.recording in receipts && receipts[u.key.recording].upload != u {
        return Refused(ReceiptOfAnotherUpload);
      }
      if u.key in ledger && ledger[u.key] in meetings {
        var earlier := ledger[u.key];
        var saved := SaveRow(Receipt(u, Complete(earlier)));
        if !saved { return Refused(NoSuchDevice); }
        return Committed(Rows(), earlier);
      }
      meetings := meetings[meeting := Meeting(Queued, {u.key})];
      assets := assets + {meeting};
      var saved := SaveRow(Receipt(u, Complete(meeting)));
      if !saved {
        devices, meetings, assets, receipts, ledger :=
          before.devices, before.meetings, before.assets, before.receipts, before.ledger;
        return Refused(NoSuchDevice);
      }
      if u.key !in ledger || ledger[u.key] !in meetings {
        ledger := ledger[u.key := meeting];
      }
      return Committed(Rows(), meeting);
    }

    method Delete(meeting: Id) returns (done: Outcome<()>)
      modifies this
      ensures var after := DeleteMeeting(old(Rows()), meeting);
        && done == after
        && Rows() == if after.Committed? then after.tables else old(Rows())
      ensures done == Refused(MeetingNotFound) <==> meeting !in old(meetings)
      ensures done.Committed? <==> meeting in old(meetings) && old(meetings)[meeting].stage in {Queued, Ready, Broken}
      ensures if done.Committed? then OnlyDeleted(old(Rows()), Rows(), meeting) else Rows() == old(Rows())
    {
      if meeting !in meetings { return Refused(MeetingNotFound); }
      if meetings[meeting].stage == Recording || meetings[meeting].stage == Processing { return Refused(MeetingBusy); }
      receipts := map r | r in receipts && receipts[r].state != Complete(meeting) :: receipts[r];
      meetings := meetings - {meeting};
      assets := assets - {meeting};
      return Committed(Rows(), ());
    }

    /** The device's row, and by the foreign key its receipts. */
    method DeleteDevice(device: Id)
      modifies `devices, `receipts
      ensures Rows() == Revoke(old(Rows()), device)
      ensures OnlyRevoked(old(Rows()), Rows(), device)
    {
      devices := devices - {device};
      receipts := map r | r in receipts && receipts[r].upload.device != device :: receipts[r];
    }
  }
}
