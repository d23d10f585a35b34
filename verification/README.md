# Steno, verified models

A Dafny model of the parts of Steno that have to be right without anyone looking: the real-time sample path, the
capture session that survives device changes, the admission of phone recordings, the files of a recording, and the
small state machines around people, processing and delivery.

- **Samples.** `RateConverter`, `LaneRing`, `LaneRings`, `ProcessingThread`, `DelayLine`, `Resampler` are the stateful
  forms the code runs (histories, rings, indices, loops over arrays), each proved to be a plain definition over the
  whole signal. A sample is an opaque value with uninterpreted operations, so the equations hold of IEEE floats:
  both sides apply the same operations to the same operands in the same order. `Interpolation` says over real numbers
  what the two filters compute. `LaneRings` also has the producer and
  its consumers as a machine whose steps are the single loads, slot accesses and publishing stores.
- **Capture.** `CaptureSession` is the actor as its turns between suspensions, interleaved with the real-time threads,
  the writer and every public call.
- **Phone recordings.** `Handover` has the tables and transactions; `Admission` runs admits, failed commits, failed
  receipts, crashes, power losses and launches over a store of a synced state, an unsynced tail and commits that may
  or may not be replayed.
- **Files.** `Bytes`, `CAFFile`, `WAVFile`, `RecordingWriter`: bytes written, cut by a crash or a full disk, and read
  back.
- **Small programs.** `EditDistance`, `UnifiedDiff` with their optimality; `People`, `Progress`, `Pipeline`,
  `ManagedBlock`, `DeliveryLedger`, `Obsidian`.
- `Samples`, `Arithmetic`, `Sequences`, `Lines`, `TextOrder`, `Options` hold what several of these share.

`dafny verify dfyconfig.toml` checks the whole project.

Where the code does not do what one might expect of it, the model follows the code and says exactly when:

- Merging two persons leaves one confirmed speaker a person a meeting exactly where no meeting had a speaker of both
  (`People.MergePersonsOneEach`).
- A failed commit followed by its failed receipt replaces an answered receipt exactly when an answer was given for the
  recording meanwhile (`Admission.FailedSaveKeepsReceiptsUnlessAnswered`); the request handler's guard, one `complete`
  per recording at a time, keeps that from happening. Other writes may still change a settled receipt: another phone
  taking the recording over, an answer from the ledger, a revoke.
- When a run expects no time at all, its second progress event is clamped (`Progress.NothingExpectedClampsTheSecond`).
- A crash inside the patch of the master's size loses nothing exactly as long as that size is below 127 * 2^56
  (`CAFFile.CrashWhilePatching`).
- `finish` after a write that the disk cut short leaves bytes behind the data chunk, and the reader walks on into them
  as chunks. The recording reads back exactly when those neither break the walk off, nor replace the format by one
  that decodes otherwise, nor replace the samples (`CAFFile.FinishedOverTornWrite`,
  `CAFFile.FinishedOverLessThanWritten`); cuts of ordinary samples that make it unreadable or empty are given
  (`CAFFile.TornDescHidesTheRecording`, `CAFFile.TornDataHidesTheRecording`). A file that was not finished has no such
  case.
- The newest sample of the decimator's output m is input sample 3m.

## Model

| member | source | states |
|---|---|---|
| RateConverter.ChunkingDoesNotMatter | Sources/StenoAudio/RealTime/RateConverter.swift:93-125 | Two converters given one signal in any two ways of cutting it into calls write the same samples, end to end: the conversion of the whole signal |
| RateConverter.RateConverter.ProcessAll | Sources/StenoAudio/RealTime/RateConverter.swift:93-125 | The outputs of `process` over any calls, end to end, are what those add to the conversion of everything heard |
| Interpolation.ConvertsByInterpolation | Sources/StenoAudio/RealTime/RateConverter.swift:93-125 | Over exact arithmetic, the samples written are one for each output position whose taps the input covers and no other: the sum over 64 input samples around the position of the sub-filter coefficients, interpolated linearly at 128 times the position's fraction |
| Interpolation.EvenRowsAreReadExactly | Sources/StenoAudio/RealTime/RateConverter.swift:104-110 | Coefficients that change evenly from one phase to the next are read exactly at every phase between |
| RateConverter.Polyphase.CountIsExact | Sources/StenoAudio/RealTime/RateConverter.swift:100-118 | An output is produced exactly when the input covers its whole window: the closed form counts neither one more nor one less |
| RateConverter.Polyphase.ConvertedExtends | Sources/StenoAudio/RealTime/RateConverter.swift:93-125 | More input adds outputs and changes none already written |
| RateConverter.Polyphase.WindowIsOutput | Sources/StenoAudio/RealTime/RateConverter.swift:100-113 | The window of the padded signal at position n is output n |
| RateConverter.Polyphase.CallFits | Sources/StenoAudio/RealTime/RateConverter.swift:76-79 | One call writes no more than `maximumOutput` |
| RateConverter.Polyphase.PositionStep | Sources/StenoAudio/RealTime/RateConverter.swift:115-117 | Adding the step to index and remainder moves from the exact position of output n to that of n + 1: the position never drifts |
| RateConverter.RateConverter.constructor | Sources/StenoAudio/RealTime/RateConverter.swift:55-69 | A new converter has heard nothing and holds the leading zeros |
| RateConverter.RateConverter.Reset | Sources/StenoAudio/RealTime/RateConverter.swift:82-87 | Forgets everything heard |
| RateConverter.RateConverter.Process | Sources/StenoAudio/RealTime/RateConverter.swift:93-125 | A call writes exactly what its input adds to the conversion of the whole signal, at the place asked for and nowhere else |
| RateConverter.RateConverter.Convert | Sources/StenoAudio/RealTime/RateConverter.swift:100-118 | The inner loops write every output whose window the history holds and stop at the first that it does not |
| RateConverter.RateConverter.Compact | Sources/StenoAudio/RealTime/RateConverter.swift:119-124 | What the next window starts on is kept at the front of the history; at most 63 samples stay |
| RateConverter.RateConverter.Window | Sources/StenoAudio/RealTime/RateConverter.swift:101-113 | The innermost loop is the blended dot product in its order of summation |
| LaneRing.MaskIsMod | Sources/StenoAudio/RealTime/LaneRingBuffer.swift:16-30 | Masking with the capacity less one is the remainder, so positions map to slots |
| LaneRing.LaneRingBuffer.constructor | Sources/StenoAudio/RealTime/LaneRingBuffer.swift:22-29 | The capacity is the least power of two that is at least 2 and what was asked for |
| LaneRing.LaneRingBuffer.HasRoom | Sources/StenoAudio/RealTime/LaneRingBuffer.swift:52-54 | Room for a count, exactly when it fits beside what is queued |
| LaneRing.LaneRingBuffer.Reserve | Sources/StenoAudio/RealTime/LaneRingBuffer.swift:65-73 | Reserves when the count fits, else counts every sample as dropped |
| LaneRing.LaneRingBuffer.Write | Sources/StenoAudio/RealTime/LaneRingBuffer.swift:80-92 | All of a strided run is queued behind the rest, or none of it and its drops are counted |
| LaneRing.LaneRingBuffer.WriteMixed | Sources/StenoAudio/RealTime/LaneRingBuffer.swift:98-114 | Two channels are queued as their averages, all or none |
| LaneRing.LaneRingBuffer.WriteZeros | Sources/StenoAudio/RealTime/LaneRingBuffer.swift:119-123 | Zeros are queued, all or none |
| LaneRing.LaneRingBuffer.Read | Sources/StenoAudio/RealTime/LaneRingBuffer.swift:128-142 | The oldest samples come out in order, exactly as many as asked for or none, and the rest stays queued |
| LaneRing.LaneRingBuffer.Clear | Sources/StenoAudio/RealTime/LaneRingBuffer.swift:156-161 | Nothing stays queued and the drop count starts over |
| LaneRing.PutExtends | Sources/StenoAudio/RealTime/LaneRingBuffer.swift:83-89 | A store behind a queue that is not full extends it and overwrites none of it |
| LaneRing.QueueTail | Sources/StenoAudio/RealTime/LaneRingBuffer.swift:133-140 | Taking from the front leaves the rest queued in order |
| LaneRings.EveryInterleavingIsSafe | Sources/StenoAudio/RealTime/LaneRings.swift:32-91 | Under every interleaving of loads, slot accesses and publishing stores: what was read is a prefix of what was published, a ring never holds more than its capacity, a block once reserved is refused by no lane, and between blocks every lane has the same blocks and the same drops |
| LaneRings.ABlockThatFitsIsTaken | Sources/StenoAudio/RealTime/LaneRings.swift:45-78 | Under every interleaving a block begun is taken whole behind the others or refused whole, and it is taken if every ring had room for it when it began |
| LaneRings.TheProducerNeverWaits | Sources/StenoAudio/RealTime/LaneRings.swift:45-78 | Each step of the producer brings it nearer to idle, whatever the consumers do |
| LaneRings.AReadOfWhatIsThereGetsIt | Sources/StenoAudio/RealTime/LaneRingBuffer.swift:128-142 | Under every interleaving a read of samples that are there takes exactly those, the next ones published; any other takes as many as asked or none |
| LaneRings.NoUnreadSlotIsOverwritten | Sources/StenoAudio/RealTime/LaneRingBuffer.swift:80-92 | No step stores into a slot that holds an unread sample |
| LaneRings.LanesAgree | Sources/StenoAudio/RealTime/LaneRings.swift:10-14 | Lanes of the same blocks have accepted equally many samples |
| LaneRings.NextHolds | Sources/StenoAudio/RealTime/LaneRings.swift:32-91 | Every step of either thread keeps the rings' invariant |
| LaneRings.PublishStep | Sources/StenoAudio/RealTime/LaneRingBuffer.swift:90 | The release store makes exactly the stored block readable |
| LaneRings.ReaderStep | Sources/StenoAudio/RealTime/LaneRingBuffer.swift:128-142 | A consumer copies what was published next and frees only what it copied |
| LaneRings.CommitStep | Sources/StenoAudio/RealTime/LaneRings.swift:75-77 | A block is finished when every lane has it |
| LaneRings.LaneRings.Reserve | Sources/StenoAudio/RealTime/LaneRings.swift:45-53 | A block is refused on every ring or on none, and no sample moves |
| LaneRings.LaneRings.HasRoom | Sources/StenoAudio/RealTime/LaneRings.swift:32-39 | Room for a block, exactly when every ring has it |
| LaneRings.LaneRings.AvailableToRead | Sources/StenoAudio/RealTime/LaneRings.swift:82-91 | The least any ring holds |
| ProcessingThread.ProcessingThread.FramesAreTheConvertedStream | Sources/StenoAudio/RealTime/ProcessingThread.swift:173-206 | After any drains, a lane's frame k is the k-th 480 samples of the conversion of all it has read; nothing is lost, repeated or reordered, and less than a frame waits |
| ProcessingThread.FramesCutTheSignal | Sources/StenoAudio/RealTime/ProcessingThread.swift:188-197 | Frames that spell a signal with less than one left over are that signal cut into equal frames |
| ProcessingThread.ProcessingThread.DrainConverted | Sources/StenoAudio/RealTime/ProcessingThread.swift:173-206 | The loop, with a producer writing between any two looks at the rings, keeps every lane's history and ends when the shortest ring is empty |
| ProcessingThread.ProcessingThread.DrainOnce | Sources/StenoAudio/RealTime/ProcessingThread.swift:176-204 | One pass reads, converts and frames without loss |
| ProcessingThread.ProcessingThread.ConvertLanes | Sources/StenoAudio/RealTime/ProcessingThread.swift:178-187 | Every lane's converter writes equally many samples, so the one shared count is right for each, and the buffer of a frame and a call's maximum is never passed |
| ProcessingThread.ProcessingThread.CutFrames | Sources/StenoAudio/RealTime/ProcessingThread.swift:188-197 | Every whole frame is handed on in order |
| ProcessingThread.ProcessingThread.Shift | Sources/StenoAudio/RealTime/ProcessingThread.swift:198-204 | What is not framed yet moves to the front unchanged |
| ProcessingThread.ProcessingThread.constructor | Sources/StenoAudio/RealTime/ProcessingThread.swift:275-290 | Buffers are sized for a frame and a call's maximum, one set a lane |
| DelayLine.DelayLine.FarEndIsDelayed | Sources/StenoAudio/RealTime/ProcessingThread.swift:211-218 | The far end is the system lane exactly `delay` samples late, zeros first |
| DelayLine.DelayLine.Process | Sources/StenoAudio/RealTime/ProcessingThread.swift:211-218 | Neither the write nor the read of a frame is ever refused |
| DelayLine.DelayLine.constructor | Sources/StenoAudio/RealTime/ProcessingThread.swift:97-103 | The line is primed with `delay` zeros |
| CaptureSession.RecordingsAreWholeInEveryRun | Sources/StenoAudio/Capture/CaptureSession.swift:429-589 | In every run the frames committed are thread 0's accepted ones, gap 0's silence, thread 1's, and so on, in order; frames handled are committed or counted as refused; the relay has one producer at most; no sidecar is ahead of the master |
| CaptureSession.StopLeavesTheWholeRecording | Sources/StenoAudio/Capture/CaptureSession.swift:328-397 | After a stop in any run, unless a write failed, the master is exactly what the relay took and every sidecar as long |
| CaptureSession.RebuildsInEveryRun | Sources/StenoAudio/Capture/CaptureSession.swift:402-523 | While a rebuild is set one live task of the current generation carries it, and none otherwise; the notices alternate and add up to the recording's count and gap |
| CaptureSession.OneLiveTask | Sources/StenoAudio/Capture/CaptureSession.swift:417-421 | The task of the current rebuild can tell that it is current, and no other can |
| CaptureSession.StaleTasksChangeNothing | Sources/StenoAudio/Capture/CaptureSession.swift:417-421 | A task of an older generation changes nothing but itself |
| CaptureSession.PendingChangeStartsTheNextRebuild | Sources/StenoAudio/Capture/CaptureSession.swift:402-412 | In every run, a change reported while a rebuild is in flight, at whatever stage, is kept as long as that rebuild is, and the turn that resumes it starts the next one; only with the recording is it dropped |
| CaptureSession.ReportedChangeIsRecovered | Sources/StenoAudio/Capture/CaptureSession.swift:402-589 | From every state of a recording whose relay holds a frame, a reported change is recovered from by any of four attempts: the recording goes on with a new thread behind exactly the gap's frames of silence, and is told so |
| CaptureSession.FourFailuresLoseTheDevice | Sources/StenoAudio/Capture/CaptureSession.swift:429-499 | The fourth failed attempt, and none before it, loses the device; the recording is closed |
| CaptureSession.FailedStartCarriesNothing | Sources/StenoAudio/Capture/CaptureSession.swift:268-326 | In every run, from a failed start until one succeeds nothing makes the session carry a recording again, and a stop, a writer's failure or a report changes nothing |
| CaptureSession.HandledAreCommittedOrRefused | Sources/StenoAudio/RealTime/FrameRelay.swift:33-50 | Frames handled are the audio committed and the frames the relay refused |
| CaptureSession.EachEventDoesItsPart | Sources/StenoAudio/RealTime/ProcessingThread.swift:248-262 | In every run a frame a live thread handles goes to the relay behind the rest where there is room and is refused where there is none, and each frame the writer takes goes to the master and every sidecar unless a write failed or fails, up to the file that fails |
| CaptureSession.RefusedOnlyWhenFull | Sources/StenoAudio/RealTime/FrameRelay.swift:33-35 | In every run the count of refused frames grows only by a frame that a live thread handled while the relay was full, events inside a stop or a rebuild included |
| CaptureSession.AStopIsItsEvents | Sources/StenoAudio/Capture/CaptureSession.swift:328-397 | In every run a stop is the thread's last events one by one, then its end, then the writer's turns until the relay is empty; the session is idle or failed with the recording |
| CaptureSession.StartGoesLive | Sources/StenoAudio/Capture/CaptureSession.swift:268-326 | A start while nothing is recorded goes live exactly when writer and backend start, on an empty recording of its own; while something is, it changes nothing |
| CaptureSession.DrainedHolds | Sources/StenoAudio/Writer/WriterThread.swift:63-97 | Draining the relay keeps a recording's invariant, whichever write fails |
| CaptureSession.ThreadStoppedHolds | Sources/StenoAudio/RealTime/ProcessingThread.swift:130-160 | Stopping a thread handles what its rings hold, beside the writer, and leaves it dead |
| CaptureSession.SilenceWrittenHolds | Sources/StenoAudio/Capture/CaptureSession.swift:543-570 | One turn of writing silence, current or stale, keeps the session's invariant |
| CaptureSession.ResumedHolds | Sources/StenoAudio/Capture/CaptureSession.swift:503-523 | A resumption puts one new thread behind the closed gap |
| CaptureSession.RetriedHolds | Sources/StenoAudio/Capture/CaptureSession.swift:480-499 | An attempt after the backoff keeps the session's invariant |
| CaptureSession.NextHolds | Sources/StenoAudio/Capture/CaptureSession.swift:268-609 | Every turn of the actor and every step of the real-time threads keeps the session's invariant |
| Admission.AnsweredIsDurable | Sources/StenoCore/Storage/RecordingIntake.swift:90-214 | In every run of admits, failed commits, crashes, power losses and launches, an id ever answered is, whatever recovery brings back, a meeting of those bytes with its asset, its ledger row and its synced copy |
| Admission.EveryUploadIsAdmitted | Sources/StenoCore/Storage/RecordingIntake.swift:90-214 | From every reachable state that serves, an upload of a paired phone with no receipt of another upload under its id is answered if nothing fails: at once where its receipt is complete with an existing meeting, else after the copy, its sync and the commit; a copy stays exactly where the meeting is new |
| Admission.AnotherUploadIsRefused | Sources/StenoCore/Storage/RecordingIntake.swift:93-107 | With another upload's receipt under the id it is refused and nothing has changed |
| Admission.FailedCommitLeavesNoCopy | Sources/StenoCore/Storage/RecordingIntake.swift:184-196 | A failed commit whose failed receipt is on the disk leaves that receipt and nothing else: no copy, and no meeting that may come back |
| Admission.EveryStoreServes | Sources/StenoHandover/HandoverService.swift:46-52 | Whatever recovery brought back opens, and serves the same tables after its checkpoint |
| Admission.ReplayedMeetingsHaveTheirMaster | Sources/StenoCore/Storage/MeetingStore.swift:94-175 | A phone meeting that recovery may replay, even from a commit that failed, still has its master on disk |
| Admission.AnsweredReceiptStands | Sources/StenoCore/Storage/RecordingIntake.swift:90-214 | In every run with one `complete` per recording at a time, the complete receipt of an answered recording is on disk too, whatever recovery brings back, unless a write other than an admission changed or made a settled receipt of that recording |
| Admission.FailedSaveKeepsReceiptsUnlessAnswered | Sources/StenoCore/Storage/RecordingIntake.swift:184-196 | The failed receipt after a failed commit keeps every answered receipt exactly when no answer was given for that recording |
| Admission.TwoAdmitsCanLoseTheReceipt | Sources/StenoHandover/Routing/RecordingHandler.swift:319-326 | Without the caller's one-at-a-time guard two admits of one recording can replace its complete receipt by a failed one |
| Admission.NextHolds | Sources/StenoCore/Storage/RecordingIntake.swift:90-214 | Every step keeps what recovery may bring back sound |
| Admission.CommitStep | Sources/StenoCore/Storage/MeetingStore+Handover.swift:104-146 | A durable commit of receipt, meeting, asset and ledger row is fit to come back whether or not its sync returned |
| Admission.SyncFailedStep | Sources/StenoCore/Storage/MeetingStore.swift:111-140 | A commit whose sync failed may come back, and its copy is kept |
| Admission.SaveFailedStep | Sources/StenoCore/Storage/RecordingIntake.swift:184-196 | The copy goes only once the failed receipt is on disk |
| Admission.RemovalStep | Sources/StenoCore/Storage/RecordingIntake.swift:179-204 | An admission takes its copy only where no table that may come back names it |
| Admission.RecheckStep | Sources/StenoCore/Storage/RecordingIntake.swift:106-112 | An id read from a complete receipt is durable before it is answered |
| Admission.OpenStep | Sources/StenoHandover/HandoverService.swift:46-52 | Opening a recovered store, its backfill included, keeps what recovery may bring back sound |
| Admission.SyncedStep | Sources/StenoCore/Storage/MeetingStore+Handover.swift:104-146 | A commit whose sync returned is all that may come back, and it is sound |
| Admission.NarrowStep | Sources/StenoCore/Storage/MeetingStore.swift:145-175 | A step that only narrows down what may come back, as the checkpoint does, keeps it sound |
| Admission.OperationsKeepAdmissions | Sources/StenoCore/Storage/MeetingStore+Handover.swift:50-178 | Every transaction of the store but admissions and deletions is a write that admissions survive |
| Handover.LedgerOverEveryHistory | Sources/StenoCore/Storage/MeetingStore+Handover.swift:104-178 | Over every history at most one existing meeting was admitted for given bytes, the ledger row points at it, a complete receipt whose meeting exists agrees, and opening the store changes nothing |
| Handover.OnlyItsOwnUploadCompletesAReceipt | Sources/StenoCore/Storage/MeetingStore+Handover.swift:104-146 | A receipt becomes complete only through the admission of its own upload, or as the answer to bytes the ledger holds |
| Handover.AdmittedAgain | Sources/StenoCore/Storage/MeetingStore+Handover.swift:108-140 | The same bytes admitted again are the meeting they are; a second one is written exactly when that one is gone |
| Handover.BackfillIsIdentity | Sources/StenoCore/Storage/MeetingStore+Handover.swift:165-178 | The backfill finds nothing missing in a store this build alone has written |
| Handover.OperateKeepsLedger | Sources/StenoCore/Storage/MeetingStore+Handover.swift:50-146 | Each operation, meeting deletion and device revocation included, keeps the ledger's invariant |
| Handover.OneMeeting | Sources/StenoCore/Storage/MeetingStore+Handover.swift:104-146 | The ledger's invariant leaves one meeting for given bytes |
| Handover.Database.SaveAdmission | Sources/StenoCore/Storage/MeetingStore+Handover.swift:104-146 | Commits exactly for a paired phone with no receipt of another upload under the id; then the receipt is complete with the meeting the ledger holds, or with the new one, queued with its asset and ledger row, and no other row has changed; else every row is rolled back |
| Handover.ReceiptsHaveDevices | Sources/StenoCore/Storage/MeetingStore+Handover.swift:50-84 | Over every history no receipt is of a phone that is not paired: none is saved for one, and a revoke leaves none |
| Handover.Database.Delete | Sources/StenoCore/Storage/MeetingStore.swift:396-424 | Commits exactly for a meeting that is there and queued, ready or failed; then it, its asset and the receipts complete with it are gone and no other row has changed; refused, nothing has |
| Handover.Database.DeleteDevice | Sources/StenoCore/Storage/MeetingStore+Handover.swift:50-58 | A revoked phone and its receipts are gone, and no other row has changed |
| Handover.EachOperationChangesOnly | Sources/StenoCore/Storage/MeetingStore+Handover.swift:17-178 | Which operation can have changed a row, for every row of every table |
| Handover.EachOperationDoes | Sources/StenoCore/Storage/MeetingStore+Handover.swift:17-178 | Each operation comes to what it says, or is refused, exactly when it must be, with nothing changed |
| Handover.BackfillIsExact | Sources/StenoCore/Storage/MeetingStore+Handover.swift:165-178 | Over any rows the backfill keeps every ledger row and adds one exactly for each complete receipt whose meeting exists and whose bytes have none |
| EditDistance.TableIsTheMinimum | scripts/score_fleurs.py:42-56 | The four numbers are those of one script, no script has fewer errors, and they add up on both sides |
| EditDistance.EditDistance | scripts/score_fleurs.py:42-56 | The rolling rows give the table's last cell |
| EditDistance.NoScriptIsBetter | scripts/score_fleurs.py:42-56 | No script that turns one text into the other has fewer errors than the table |
| EditDistance.ScriptOf | scripts/score_fleurs.py:48-54 | One script has exactly the table's four numbers |
| EditDistance.DropHypothesisWord | scripts/score_fleurs.py:49-50 | Taking the diagonal on a match loses nothing: a script can end one hypothesis word short for one error at most |
| EditDistance.DropReferenceWord | scripts/score_fleurs.py:49-50 | And one reference word short for one error at most |
| EditDistance.LengthsAgree | scripts/score_fleurs.py:42-56 | Reference words less deletions are hypothesis words less insertions |
| UnifiedDiff.WalkIsMinimal | Sources/StenoCore/Testing/Snapshot.swift:58-95 | The diff spells both texts in order, keeps a longest common subsequence of their lines, and no diff of them is shorter |
| UnifiedDiff.Diff | Sources/StenoCore/Testing/Snapshot.swift:58-95 | The loop over the table writes the header and the walk, joined by newlines |
| UnifiedDiff.FillTable | Sources/StenoCore/Testing/Snapshot.swift:62-72 | The table holds the longest common subsequence lengths of every pair of suffixes |
| UnifiedDiff.DiffsKeepNoMore | Sources/StenoCore/Testing/Snapshot.swift:58-95 | Any diff of two texts keeps no more lines than their longest common subsequence |
| UnifiedDiff.WalkSpellsBoth | Sources/StenoCore/Testing/Snapshot.swift:73-93 | The walk's lines spell both texts |
| Lines.JoinSplit | Sources/StenoCore/Testing/Snapshot.swift:59-60 | The lines of a text spell it |
| People.ConfirmKeeps | Sources/StenoCore/Storage/MeetingStore+People.swift:218-259 | A confirmation keeps every stored voice equal to its recomputation, every segment on an existing speaker, the foreign keys and one confirmed speaker a person a meeting |
| People.ConfirmMovesExactly | Sources/StenoCore/Storage/MeetingStore+People.swift:218-275 | The speaker has the person's name, or the person's speaker of the meeting takes it over with its segments, name, clip, voice and confidence; the suggestion is answered, a new person added, and no other speaker, segment, participant or task has changed |
| People.VoiceIsTheMeanOfTheNewest | Sources/StenoCore/Storage/MeetingStore+People.swift:277-302 | A stored voice is the mean of the fifty newest usable speakers confirmed to the person, newest first, all of them where there are no more |
| People.SecondNameTakesTheFirstBack | Sources/StenoCore/Storage/MeetingStore+People.swift:207-259 | Confirming to one person and then to another, neither with a speaker there, gives the first one's voice back exactly |
| People.MergeSpeakersKeeps | Sources/StenoCore/Storage/MeetingStore+People.swift:125-187 | Merging speakers keeps the same |
| People.MergeSpeakersMovesExactly | Sources/StenoCore/Storage/MeetingStore+People.swift:125-187 | Done exactly for two speakers of the meeting: the source is gone, the target has what it adds, the segments that named it name the target, and no other row has changed |
| People.MergedClipIsKeptOrRemoved | Sources/StenoCore/Storage/MeetingStore+People.swift:170-186 | The source's clip goes exactly where the target keeps its own: none is lost and none shared |
| People.MergePersonsKeeps | Sources/StenoCore/Storage/MeetingStore+People.swift:92-117 | Merging persons keeps voices, segments and foreign keys |
| People.MergePersonsMovesExactly | Sources/StenoCore/Storage/MeetingStore+People.swift:92-117 | Done exactly for two persons that exist: every speaker, participant and task that named the removed one names the kept one in the same way, and no other row has changed |
| People.MergePersonsOneEach | Sources/StenoCore/Storage/MeetingStore+People.swift:92-117 | And keeps one confirmed speaker a person a meeting exactly where no meeting had a speaker of both |
| People.MergingTwoWhoMetLeavesTwoSpeakers | Sources/StenoCore/Storage/MeetingStore+People.swift:92-117 | Where one did, the merged person has two in that meeting |
| People.VoiceUsesTheNewest | Sources/StenoCore/Storage/MeetingStore+People.swift:277-302 | A voice uses the newest fifty fitting embeddings, all where there are fewer, and none newer is left out |
| People.RefreshRestores | Sources/StenoCore/Storage/MeetingStore+People.swift:285-302 | Only persons a change touched need refreshing |
| People.MergeRowsLeavesOthers | Sources/StenoCore/Storage/MeetingStore+People.swift:146-187 | A row merge names every person whose samples it changes |
| People.MergeRowsOneEach | Sources/StenoCore/Storage/MeetingStore+People.swift:146-187 | A row merge confirms no second speaker of one person |
| People.PeopleStore.ConfirmSpeaker | Sources/StenoCore/Storage/MeetingStore+People.swift:218-259 | The statement-by-statement transaction is the confirmation on rows, or is rolled back |
| People.PeopleStore.MergeSpeakerRows | Sources/StenoCore/Storage/MeetingStore+People.swift:146-187 | The row merge, field by field: embedding, assignment, clip, confidence, segments |
| People.PeopleStore.Merge | Sources/StenoCore/Storage/MeetingStore+People.swift:125-133 | The row merge and the refreshed voices |
| People.PeopleStore.MergePersonRows | Sources/StenoCore/Storage/MeetingStore+People.swift:92-117 | The three re-pointings, the deletion and the refreshed voice |
| People.PeopleStore.RefreshVoice | Sources/StenoCore/Storage/MeetingStore+People.swift:285-302 | One person's voice from the speakers now confirmed to them; a missing person is ignored |
| People.PeopleStore.DropClipWhenAudioIsGone | Sources/StenoCore/Storage/MeetingStore+People.swift:264-275 | The clip goes only when the audio is gone |
| CAFFile.CutFileReadsWholeFrames | Sources/StenoAudio/Writer/CAFFile.swift:130-189 | Wherever a file was cut, if its size field reaches the end or is open, reading gives exactly the whole frames before the cut, channel by channel |
| CAFFile.CrashWhileRecording | Sources/StenoAudio/Writer/CAFFile.swift:50-58 | A crash after any number of sample bytes leaves the whole frames written |
| CAFFile.CrashWhilePatching | Sources/StenoAudio/Writer/CAFFile.swift:62-71 | A crash after any number of bytes of the size patch loses nothing, exactly as long as the size is below 127 * 2^56; from there on the first byte alone makes a chunk past every Int64 |
| CAFFile.FinishedFileReadsAll | Sources/StenoAudio/Writer/CAFFile.swift:62-71 | A finished file reads back all samples |
| CAFFile.FinishOverCutWrite | Sources/StenoAudio/Writer/CAFFile.swift:50-71 | What the writer leaves of whole frames, a write the disk cuts short and the end: the finished header, the frames, and what of the write reached the disk |
| CAFFile.TornDescHidesTheRecording | Sources/StenoAudio/Writer/CAFFile.swift:141-152 | A write of ordinary samples, cut after the third, can make the whole file unreadable: the three spell a `desc` chunk of size 0 |
| CAFFile.TornDataHidesTheRecording | Sources/StenoAudio/Writer/CAFFile.swift:153-164 | Or, cut after the fourth, make it read back as empty: the four spell an empty data chunk |
| CAFFile.FinishedOverTornWrite | Sources/StenoAudio/Writer/CAFFile.swift:130-189 | A file finished over a torn write reads back as what was written before it exactly when the walk over the torn bytes does not break off, its last `desc` decodes as the written one, and any data chunk in it holds the same frames |
| CAFFile.FinishedOverLessThanWritten | Sources/StenoAudio/Writer/CAFFile.swift:130-189 | Where less was torn than was written, exactly when the torn bytes do not break the walk off, have no data chunk, and end on a format that decodes alike |
| CAFFile.TailLeavesTheWalk | Sources/StenoAudio/Writer/CAFFile.swift:137-165 | The walk ends with the samples it had and a given format exactly when what follows has no data chunk, no short or overflowing chunk, and a last `desc` of that format |
| CAFFile.LaterDataReplacesTheSamples | Sources/StenoAudio/Writer/CAFFile.swift:153-164 | On a walk that does not break off, the samples found so far are replaced exactly when a data chunk is met later, by ones behind them |
| CAFFile.WalkOfWritten | Sources/StenoAudio/Writer/CAFFile.swift:77-96 | The reader finds the written format and samples where the header put them |
| CAFFile.CAFStreamWriter.constructor | Sources/StenoAudio/Writer/CAFFile.swift:38-47 | A new file is the header with an open size |
| CAFFile.CAFStreamWriter.Write | Sources/StenoAudio/Writer/CAFFile.swift:50-58 | Whole frames are appended; a write the disk cuts short leaves a prefix and is not counted; what is written after one stays behind it |
| CAFFile.CAFStreamWriter.Finish | Sources/StenoAudio/Writer/CAFFile.swift:62-71 | Only the size changes |
| CAFFile.ReadFile | Sources/StenoAudio/Writer/CAFFile.swift:130-189 | The chunk loop and the de-interleaving loops, with every error case, give what the recursive definition of reading gives |
| CAFFile.Fill | Sources/StenoAudio/Writer/CAFFile.swift:175-187 | The channel arrays are filled sample by sample from the span |
| WAVFile.ParseGivesTheSamplesBack | Sources/StenoCore/Audio/WAVAudioDecoder.swift:90-136 | As long as its sizes fit 32 bits, a written file parses to its format and its samples' bytes |
| WAVFile.ChunksParse | Sources/StenoCore/Audio/WAVAudioDecoder.swift:90-136 | A file of any chunks, odd ones padded, parses to its last format chunk, extensible ones included, and its last data chunk; without one of the two, or in another format, it is refused |
| WAVFile.SidecarGivesTheSamplesBack | Sources/StenoCore/Audio/WAVAudioDecoder.swift:53-83 | A finished sidecar reads as the samples that were written |
| WAVFile.HeadersAgree | Sources/StenoAudio/Writer/WAVStreamWriter.swift:53-70 | The stream's header is the one-shot header byte for byte |
| WAVFile.OneShot | Sources/StenoCore/Audio/WAVWriter.swift:17-27 | The appending loop writes header and samples in order |
| WAVFile.WAVStreamWriter.constructor | Sources/StenoAudio/Writer/WAVStreamWriter.swift:23-30 | A new file is a header of size 0 |
| WAVFile.WAVStreamWriter.Write | Sources/StenoAudio/Writer/WAVStreamWriter.swift:32-39 | Samples are appended; a write the disk cuts short leaves a prefix and is not counted; what is written after one stays behind it |
| WAVFile.WAVStreamWriter.Finish | Sources/StenoAudio/Writer/WAVStreamWriter.swift:41-48 | A finished stream is the one-shot file byte for byte |
| WAVFile.Parse | Sources/StenoCore/Audio/WAVAudioDecoder.swift:90-136 | The chunk loop, padding and every error case included, gives what the recursive definition gives |
| WAVFile.ReadWave | Sources/StenoCore/Audio/WAVAudioDecoder.swift:53-83 | Reads exactly what parses as 16 kHz mono of 16-bit integers or 32-bit floats, sample by sample |
| Resampler.Resampler48kTo16k.Process | Sources/StenoAudio/Writer/Resampler48kTo16k.swift:38-57 | Frame by frame the outputs are the 192-tap filter of the zero-prefixed whole signal at every third sample, every index in bounds |
| Interpolation.DecimatesByConvolution | Sources/StenoAudio/Writer/Resampler48kTo16k.swift:38-57 | Over exact arithmetic the outputs are the convolution with the 192 coefficients at every third sample, the newest one included |
| Interpolation.DecimatesFrames | Sources/StenoAudio/Writer/Resampler48kTo16k.swift:38-57 | The same of the samples that come out frame by frame |
| Resampler.Resampler48kTo16k.Decimate | Sources/StenoAudio/Writer/Resampler48kTo16k.swift:42-54 | The outputs of one frame |
| Resampler.Resampler48kTo16k.Accumulate | Sources/StenoAudio/Writer/Resampler48kTo16k.swift:45-51 | The tap loop is the sum in its order |
| Resampler.Resampler48kTo16k.Reset | Sources/StenoAudio/Writer/Resampler48kTo16k.swift:60-62 | Forgets the history |
| Resampler.Resampler48kTo16k.constructor | Sources/StenoAudio/Writer/Resampler48kTo16k.swift:21-29 | A history of zeros |
| Resampler.Filter.FilteredExtends | Sources/StenoAudio/Writer/Resampler48kTo16k.swift:38-57 | More input changes no output |
| Resampler.Filter.OutputOfWindow | Sources/StenoAudio/Writer/Resampler48kTo16k.swift:43-51 | An output over the history is the output over the whole signal |
| RecordingWriter.CrashLeavesEveryLane | Sources/StenoAudio/Writer/RecordingWriter.swift:90-121 | Cut anywhere by a crash, the master reads back for every lane exactly the whole frames that reached the disk |
| RecordingWriter.MasterGivesEveryLaneBack | Sources/StenoAudio/Writer/RecordingWriter.swift:133-146 | Finished, it reads back every lane whole |
| RecordingWriter.RecordingWriter.Write | Sources/StenoAudio/Writer/RecordingWriter.swift:90-121 | A frame goes to the master first; whatever failed before, no sidecar counts more than the master; as long as nothing has, whatever fails now leaves each sidecar a prefix of the decimation of what the master has; a frame of the wrong shape or after the end changes nothing, and a whole one the disk has room for is written |
| RecordingWriter.RecordingWriter.WriteSidecars | Sources/StenoAudio/Writer/RecordingWriter.swift:112-117 | Sidecars in lane order until one fails |
| RecordingWriter.RecordingWriter.Finish | Sources/StenoAudio/Writer/RecordingWriter.swift:133-146 | The master is closed first; each sidecar without a failed write is the one-shot file of its samples |
| RecordingWriter.RecordingWriter.constructor | Sources/StenoAudio/Writer/RecordingWriter.swift:63-82 | One master, one sidecar and one decimator a lane, all empty |
| RecordingWriter.Interleave | Sources/StenoAudio/Writer/RecordingWriter.swift:98-108 | The two loops put lane c of frame f at index f * lanes + c |
| RecordingWriter.DeinterleaveGivesLanesBack | Sources/StenoAudio/Writer/RecordingWriter.swift:98-108 | Taking interleaved samples apart gives each lane back |
| Pipeline.OneBodyAMeeting | Sources/StenoCore/Pipeline/ProcessingPipeline.swift:351-363 | Under every interleaving no meeting has two operations in their bodies |
| Pipeline.LearnedAlone | Sources/StenoCore/Pipeline/ProcessingPipeline.swift:409-426 | A learned rate comes from stretches at every instant of which its meeting was the only one in flight, and is their time a unit |
| Pipeline.LearnedExactly | Sources/StenoCore/Pipeline/ProcessingPipeline.swift:409-426 | Under every interleaving a stretch that ends yields a rate exactly when it is the last of a stage that is learned and has work and no stretch of it overlapped another meeting |
| Pipeline.SharedExactly | Sources/StenoCore/Pipeline/ProcessingPipeline.swift:413-420 | A stage is marked shared exactly when another meeting was in flight at some instant of a stretch of it |
| Pipeline.SecondOperationIsRefused | Sources/StenoCore/Pipeline/ProcessingPipeline.swift:354-356 | A second operation on a meeting in flight is refused and changes nothing; on any other meeting it enters |
| Pipeline.SpanStep | Sources/StenoCore/Pipeline/ProcessingPipeline.swift:413-420 | The two counters noted at the start tell at every later instant whether the meeting has been alone since |
| Pipeline.NextHolds | Sources/StenoCore/Pipeline/ProcessingPipeline.swift:351-426 | Every step keeps the pipeline's invariant |
| Progress.TheBarNeverMovesBack | Sources/StenoCore/Pipeline/ProcessingRun.swift:45-61 | Over every run, whatever is re-estimated: 0 <= fraction <= next <= the following fraction <= 1 |
| Progress.ClampKeepsTheShare | Sources/StenoCore/Pipeline/ProcessingRun.swift:50-60 | A clamped event keeps its share of what is left |
| Progress.OnTimeNothingIsClamped | Sources/StenoCore/Pipeline/ProcessingEstimator.swift:263-311 | When every step takes its expected time and any is expected, no event is clamped and each lands exactly where the one before announced it |
| Progress.NothingExpectedClampsTheSecond | Sources/StenoCore/Pipeline/ProcessingEstimator.swift:283-311 | When no time is expected at all, the second event is clamped to the end |
| Progress.HonestOnTime | Sources/StenoCore/Pipeline/ProcessingEstimator.swift:290-311 | On time an event is at its share of the whole |
| Progress.LanesMakeTheStage | Sources/StenoCore/Pipeline/ProcessingEstimator.swift:246-261 | The steps of the lanes make up the stage |
| Progress.Estimator.HonestInRange | Sources/StenoCore/Pipeline/ProcessingEstimator.swift:290-311 | Before the clamp an event is in range and does not announce the past |
| Progress.ProcessingRun.Progress | Sources/StenoCore/Pipeline/ProcessingRun.swift:45-61 | Posts the next event of the run: the honest one unless it falls behind the last announcement, which it then starts from |
| Progress.ProcessingRun.Measure | Sources/StenoCore/Pipeline/ProcessingRun.swift:68-82 | Adds a span to its stage alone; a sample, the stage's seconds a unit, exactly after the last lane of a learned stage with work that was never shared |
| Progress.ProcessingRun.Revise | Sources/StenoCore/Pipeline/ProcessingPipeline.swift:367-369 | Replaces the guessed token count |
| Progress.ProcessingRun.RunRises | Sources/StenoCore/Pipeline/ProcessingRun.swift:45-61 | The events of a run never fall, revised or not |
| ManagedBlock.MergeKeepsTheRest | Sources/StenoAdapters/Obsidian/ManagedBlock.swift:27-45 | A merge keeps every character up to the start marker's end and from the end marker on, and the lines between are the others and the new one, newest first |
| ManagedBlock.MergeIsIdempotent | Sources/StenoAdapters/Obsidian/ManagedBlock.swift:27-45 | Merging a line again changes nothing |
| ManagedBlock.MergesCommute | Sources/StenoAdapters/Obsidian/ManagedBlock.swift:27-45 | Two meetings' merges give the same page in either order |
| ManagedBlock.RemoveKeepsTheRest | Sources/StenoAdapters/Obsidian/ManagedBlock.swift:51-63 | A removal keeps front, back and every other line in order, and leaves no line of the meeting |
| ManagedBlock.RemoveIsIdentity | Sources/StenoAdapters/Obsidian/ManagedBlock.swift:51-63 | It is the identity exactly where the block has no line of the meeting |
| ManagedBlock.RemoveUndoesMerge | Sources/StenoAdapters/Obsidian/ManagedBlock.swift:27-63 | After a merge it leaves the other lines, newest first |
| ManagedBlock.OrderIsUnique | Sources/StenoAdapters/Obsidian/ManagedBlock.swift:67-73 | The order is total, so the lines alone decide how they are sorted |
| ManagedBlock.SortedInOrder | Sources/StenoAdapters/Obsidian/ManagedBlock.swift:67-73 | Sorting orders, newest date first |
| ManagedBlock.SortedNewestFirst | Sources/StenoAdapters/Obsidian/ManagedBlock.swift:67-85 | Read as year, month and day, a dated line comes after no undated one and none of an earlier day; lines of one day, or without any, are in text order |
| ManagedBlock.BeforeTotal | Sources/StenoAdapters/Obsidian/ManagedBlock.swift:68-72 | Of two different lines exactly one comes first |
| ManagedBlock.Page | Sources/StenoAdapters/Obsidian/ManagedBlock.swift:28-44 | A page put together from front, lines and back is read back as those |
| DeliveryLedger.ResolveFolder | Sources/StenoAdapters/Runtime/DeliveryLedger.swift:79-90 | Ends on any finite vault, at the first of the base and the base with a number from 2 on that is absent or holds this meeting |
| DeliveryLedger.DecimalReadsBack | Sources/StenoAdapters/Runtime/DeliveryLedger.swift:86 | The number of a candidate is in decimal, without a leading zero |
| DeliveryLedger.CandidatesDiffer | Sources/StenoAdapters/Runtime/DeliveryLedger.swift:82-89 | No two suffixes name one folder |
| DeliveryLedger.DeliveryLedger.constructor | Sources/StenoAdapters/Runtime/DeliveryLedger.swift:20-27 | The receipt of this root is listed, a receipt of another root is none |
| Obsidian.RecordedOwned | Sources/StenoAdapters/Runtime/DeliveryLedger.swift:41-44 | Recording a file it wrote keeps the ledger at what was listed before and what the delivery opened, as its own |
| DeliveryLedger.DeliveryLedger.ReceiptOf | Sources/StenoAdapters/Runtime/DeliveryLedger.swift:56-62 | A receipt is sorted, lists each path once and nothing but what the ledger holds |
| DeliveryLedger.SortedAscending | Sources/StenoAdapters/Runtime/DeliveryLedger.swift:60 | Files sorted by path ascend strictly |
| DeliveryLedger.ListedSorted | Sources/StenoAdapters/Runtime/DeliveryLedger.swift:25 | Listing a receipt gives the ledger's files back |
| Obsidian.ObsidianFolderDestination.Deliver | Sources/StenoAdapters/Obsidian/ObsidianFolderDestination.swift:73-140 | Whether it succeeds or fails part way, a delivery opens as its own only what it may, keeps every other file and everything outside the block of a page; a delivery without a fault leaves exactly the artifacts, pages, removals and audio, its receipt lists what was listed before and what it opened, and audio asked for is in the vault |
| Obsidian.WhatADeliveryLeaves | Sources/StenoAdapters/Obsidian/ObsidianFolderDestination.swift:73-166 | Path by path, after a delivery without a fault: artifacts and mixdown written where they may be, pages merged or begun, listed pages not rendered without the meeting's line, every other file as it was |
| Obsidian.ObsidianFolderDestination.WriteOwned | Sources/StenoAdapters/Obsidian/ObsidianFolderDestination.swift:88-92 | A file is written as the app's own, or skipped where it is there and the receipt does not own it |
| Obsidian.ObsidianFolderDestination.WriteArtifacts | Sources/StenoAdapters/Obsidian/ObsidianFolderDestination.swift:94-96 | Every artifact is written where it may be, in order |
| Obsidian.ObsidianFolderDestination.WritePages | Sources/StenoAdapters/Obsidian/ObsidianFolderDestination.swift:102-118 | Every page is merged, or begun where there is none; one that is not text ends the delivery unwritten |
| Obsidian.ObsidianFolderDestination.RemoveMeetingLine | Sources/StenoAdapters/Obsidian/ObsidianFolderDestination.swift:150-166 | The listed pages that were not rendered lose the meeting's line, and their paths stay listed |
| Obsidian.ObsidianFolderDestination.DeliverPages | Sources/StenoAdapters/Obsidian/ObsidianFolderDestination.swift:98-122 | The pages, then the removals |
| Obsidian.ObsidianFolderDestination.DeliverAudio | Sources/StenoAdapters/Obsidian/ObsidianFolderDestination.swift:124-137 | The audio copy; without a mixdown, the error exactly where no audio is listed or in the folder |
| Obsidian.MergedPage | Sources/StenoAdapters/Obsidian/ObsidianFolderDestination.swift:105-115 | A merged page keeps what is outside its block |
| Obsidian.CleanedPage | Sources/StenoAdapters/Obsidian/ObsidianFolderDestination.swift:160-163 | So does a page that loses a line |
| Obsidian.History.Deliver | Sources/StenoAdapters/Obsidian/ObsidianFolderDestination.swift:73-140 | In any run, after a first delivery, a file that was there and that the app never wrote is never opened as its own, and no receipt loses a path |

## Left out

- Weak memory: the rings' steps interleave one at a time; acquire and release orderings are not modelled.
- Numbers behind the samples: filter tables, the rounding of floats and to Int16, levels, meters and decibels are abstract or absent.
- The echo canceller and the backends: a backend is a producer with a rate that may fail to start; callbacks of `LaneFrameSink` and its device-change latch are not modelled on their own.
- `ProcessingThread.drain` at the output rate, which frames without converting, and what `processFrame` does to a frame besides the delay line.
- CaptureSession: modelled on values, one turn of the actor at a time, in place of an object with fields; the frames of a gap are any number, so the arithmetic from a duration to frames is not stated, nor `RingDrops.fold`, the levels and the stream's rate conversions.
- Admission: folder syncs succeed and a checkpoint is one step; other processes on the store and later deletion by retention are not modelled.
- SQLite: a commit is on disk, in the tail, or may be replayed; nothing below that.
- `HandoverEngine`, the pipeline's stages and the network.
- Older builds writing during a rollback.
- Handover: a complete receipt saved outside an admission agrees with the ledger or names a meeting that is gone, as the handler's do; another is not modelled.
- Admission.AnsweredReceiptStands: says nothing of a recording whose settled receipt another write changed or made, as when another phone takes it over (`RecordingHandler.swift:97-107`), the ledger answers for it (`:60-66`) or its phone is revoked.
- People.ConfirmKeeps: `owner` is any other speaker of the person in the meeting; which one the query puts first does not matter to what is kept.
- The voice invariant over saving, replacing a transcript and deleting a meeting: those do not refresh voices.
- RecordingWriter.Write: the raw microphone file, a single channel of the same writer, and failures of closing a file.
- A WAV sidecar that was not finished, or was finished over a torn write: its reader takes sample bytes for chunks, and the master is the copy to recover.
- WAVFile.ReadWave: gives the samples as integers or bits; dividing by 32768 is not modelled.
- Progress: durations and rates are reals, so a span that is not finite cannot occur; how a rate is looked up or averaged is not modelled.
- Pipeline: the `running` map, `waitUntilIdle` and operations outside the guard.
- ManagedBlock.MergeKeepsTheRest: texts are sequences of characters; Unicode equivalence, line endings of two characters and spaces other than blank and tab are not modelled, and a start marker without an end marker after it is outside the contract.
- Obsidian: what is rendered, the checks of the vault and the people folder, stale temporary files, and the bytes of JSON are parameters or absent.
- Obsidian.WhatADeliveryLeaves: of a delivery whose artifacts, pages, mixdown and listed pages are different paths; where two are one, `AfterDelivery` has the writes in their order.
- DeliveryLedger: the two spellings of a root are compared by a given function.
- AAC tables, SHA-256, settings, slugs, escaping, the web and command-line sides: easier or foreign.
