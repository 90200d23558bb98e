# Lap timer firmware: protocols, buffers and tools, verified

This project models the parts of the lap-timer firmware where several tasks, several boots or several
passes have to agree, and proves what they promise. Every module follows one source file (or one
protocol spread over two or three of them). Code that updates state is a class or a method with loops,
proved against a specification function; the theorems are then about that function, over every run,
every interleaving or every input.

| file | what it is about |
|---|---|
| `SupPolicy.dfy`, `Ota.dfy` | the OTA pre-check and the receive machine, one call at a time |
| `OtaPush.dfy` | what each call takes to go through, and a whole push that does everything right |
| `OtaRace.dfy`, `OtaRuns.dfy` | the same calls as small atomic steps, console task against supervisor poll, all runs |
| `OtaCrash.dfy` | flag, boot slot, and the bytes and states of both slots across power cuts and reboots |
| `OtaCommit.dfy` | the machine's steps tied to the flash: every interleaved boot, cut at any step, is a history of `OtaCrash` |
| `SessionPolicy.dfy`, `SessionMirror.dfy` | the session decisions and the pipeline's mirror of the logger |
| `SessionRun.dfy`, `SessionSafety.dfy` | pipeline, logger and other tasks over the bounded request queue, all runs |
| `LogRequest.dfy` | request/reply with 8-bit generation tags over overwritable notification slots |
| `PutBarrier.dfy` | the shared assembly buffer and the barrier in front of it, on top of `LogRequest` |
| `LapBoard.dfy` | the lap ring behind a sequence lock |
| `RtcSnapshot.dfy` | the reset-proof snapshot behind a sequence lock |
| `ErrorRing.dfy` | the error ring, its walks and its flash copy |
| `SessionTable.dfy` | the streaming table of the newest 48 sessions |
| `ChunkWriter.dfy`, `RawStream.dfy` | chunks, checksum, resume, and the measuring and printing passes |
| `BootGate.dfy` | the crash-loop gate over runs of boots |
| `SessionIds.dfy`, `LoggerFiles.dfy` | session ids, the session files, eviction and the incremental count |
| `CStripper.dfy`, `CFunctions.dfy` | the lint tool's C scanner and brace matcher |

How the concurrent models are built: a state, one move per atomic action or call, `Enabled` for when a
move may happen, `Next` for what it does, and `Run`/`After` over sequences of moves. Theorems quantify
over all runs from boot. Things outside a file's control (whether a waiting send gets in before its time is up, a flash write
succeeds, a task is preempted, a file is listed in some order) are parameters of the moves, so they may
go either way every time.

Results that say the code does less than it might seem to, each with its exact condition:

- A rotation's CLOSE can be lost at the logger's drain bound (`components/app/logger/logger.c:1124`). An
  OPEN queued behind it with no other CLOSE between can then only wait or be ignored under the session
  that should have ended, wrongly exactly if it names another venue (`DroppedCloseSwallows`;
  `TheDrainBoundCanSwallowARotation` is a run). Without such a loss no run ignores an OPEN wrongly.
- The 8-bit tag: a call is safe from every old reply, however the run goes on, if and only if at its draw
  no request of its task still with the logger carries the tag drawn (`CallIsSafeIff`); so it is below 256
  generations, and at exactly 256 it can be fooled (`TheTagIsFooledAt256`).
- After the first supervisor tick the persisted OTA flag stands for a running image on trial, except
  exactly between a confirmation and its clear, from the persisting of a new push's flag on, and after a
  clear that did not reach flash (`FlagMeansTrialIff`; `FlagWithoutTrial` is a run into the second).
- The lap board shows fewer laps than it holds for a while after its 32-bit total wraps
  (`ShowsTheNewestUnlessWrapped` says exactly when).
- A session's size in the listing is its size rounded up to kilobytes exactly up to 65535 of them (`KbMeans`).
- An error ring with a hole behind its head drops an entry early (`BoundedListIff`); no ring built from an
  empty one has holes (`RingIsABoundedList`), only one found in flash could.
- A crash within the loop window is missed exactly if that boot died before its first supervisor tick,
  RTC memory survived, and the latest tick of the boots before it was past the window
  (`CrashIsMissedIff`); any number of those in a row leaves the device in normal mode
  (`EarlyDeathsAreNoStreak`, `ThreeQuickCrashesUnseen`).
- The third boot of a crash streak comes up in safe mode (level 1) and never, from erased flash, in
  recovery; clearing the gate during the streak starts it over (`LevelIsExpected`, `StreakEscalates`).

## Model

| member | source | states |
|---|---|---|
| SupPolicy.FlagAloneNeverRefuses | components/app/sys/sup_policy.c:75-91 | Pushes that differ only in the persisted flag are both refused, for the same reason, or both let through; the refusals are exactly in-flight, size, stillness, battery and slot on trial |
| SupPolicy.CloseIsAskedForLast | components/app/sys/sup_policy.c:65-91 | The rider's session is closed only for a push nothing else would refuse |
| SupPolicy.StaleMeansOld | components/app/sys/sup_policy.c:98-103 | With stamps modulo 2^32, stale is the true age modulo 2^32 at or past the limit, so young data is never stale |
| Ota.Receiver.Begin | components/app/ota/ota.c:297-322 | The call does to the statics and the hardware exactly what BeginF says, in every error branch |
| Ota.BeginMeans | components/app/ota/ota.c:297-322 | A begin is accepted exactly under the listed conditions, and then expects of an empty slot the size in the header's first four bytes (lowest first) and the hash in the next 32 |
| Ota.Receiver.Data | components/app/ota/ota.c:353-360 | Refused outside Recv; otherwise DataF, with the state handed back to Recv unless the write failed |
| Ota.Receiver.End | components/app/ota/ota.c:428-438 | Refused outside Recv; otherwise check and commit, ending in Idle or Reboot as EndF says |
| Ota.Receiver.Abort | components/app/ota/ota.c:440-450 | Only an open transfer is given up, and then completely |
| Ota.FailClears | components/app/ota/ota.c:156-197 | A transfer given up leaves no handle, target, counter, hash context, deadline or busy flag, and gives only the handle back |
| Ota.TargetMatchesIff | components/app/ota/ota.c:199-225 | What the target check asks of the first 4096 bytes, offset by offset |
| Ota.Receiver.Poll | components/app/ota/ota.c:485-495 | Only a stale open transfer is given up |
| Ota.Receiver.IsRebootDue | components/app/ota/ota.c:452-456 | Due exactly in Reboot with an armed deadline that has passed |
| Ota.DataKeepsQuiet | components/app/ota/ota.c:326-360 | An accepted block extends the slot by exactly its bytes; any other leaves the machine alone or gives the transfer up with its handle released |
| Ota.EndKeepsQuiet | components/app/ota/ota.c:364-438 | From an open transfer the end call reaches Idle or Reboot, and Reboot only with the slot's own bytes certified |
| Ota.EndWritesFlagBeforeBoot | components/app/ota/ota.c:377-419 | The persistent writes of a commit, in order: the flag before the boot switch, and a clear behind a failed switch |
| OtaPush.DataMeans | components/app/ota/ota.c:326-360 | A block goes through exactly if it declares the bytes received so far, brings some and not too many, is written, and does not complete the first 4096 of an image for another unit |
| OtaPush.EndMeans | components/app/ota/ota.c:364-438 | The update is applied exactly if the slot has the announced size and hash, at least 4096 bytes, battery, signature and both writes; what each other answer means |
| OtaPush.RebootFallsDue | components/app/ota/ota.c:415-456 | The reboot falls due two seconds after an end that applied the update, not before, and after no other |
| OtaPush.GoodPushIsApplied | components/app/ota/ota.c:297-438 | A push that does everything right ends in Reboot with exactly its image in the slot, however the image is cut into blocks |
| Ota.BeginIgnoresTheFlag | components/app/ota/ota.c:260-322 | The persisted flag changes neither whether a push is accepted nor the code returned |
| OtaRace.BeginAlone | components/app/ota/ota.c:297-322 | The small steps of a begin, run with nobody else acting, are the whole call |
| OtaRace.EndAlone | components/app/ota/ota.c:364-438 | The small steps of an end, run with nobody else acting, are the whole call |
| OtaRace.PollAlone | components/app/ota/ota.c:485-495 | The small steps of a poll, run with nobody else acting, are the whole call |
| OtaRuns.OnlyTheWinnerTouches | components/app/ota/ota.c:156-186 | In every interleaving never two tasks are inside, and a task that has not won the compare-exchange changes nothing but, by winning, the state word |
| OtaRuns.WonCallsAreAtomic | components/app/ota/ota.c:297-448 | In every interleaving a console call that won leaves the machine exactly as that call alone would have |
| OtaRuns.HandlesReleasedExactlyOnce | components/app/ota/ota.c:156-186 | Whenever no call is inside, every handle ever opened has been released exactly once, but for the one an open transfer holds |
| OtaRuns.RebootIsCertified | components/app/ota/ota.c:297-419 | Reboot is reached only with as many bytes as that transfer's begin header declares, written in order from 0, with the hash in its bytes 4 to 36, matching hardware id and project, a good signature, and the flag persisted right before the boot switch |
| OtaRuns.TimeoutOnlyWhenOld | components/app/ota/ota.c:458-495 | A poll commits to aborting only when the data of the transfer it then holds is older than the limit, even if one transfer ended and another began since its first check |
| OtaRuns.PollReapsStale | components/app/ota/ota.c:485-495 | Over any stretch of a run in which a poll starts on an open transfer nobody is inside and ends, the clock moving as it likes: stale at the start it is given up with its handle released, young at the end it is untouched, and there is no third outcome |
| OtaCrash.NeverBootsUnverified | components/app/ota/ota.c:377-419 | Wherever power is cut, neither the slot that boots next nor the running one, nor the one the bootloader then starts, holds bytes other than a signed image for this unit's hardware and project |
| OtaCrash.FirstTickSettlesTheFlag | components/app/supervisor/sup.c:198-222 | Whether or not its clear reaches flash: after the first tick the flag is set exactly if it was and the image is on trial or the clear failed |
| OtaCrash.FlagMeansTrialIff | components/app/supervisor/sup.c:198-256 | Later in a boot a set flag means an image on trial if and only if no confirmation or commit is in progress and no clear failed |
| OtaCrash.FlagWithoutTrial | components/app/ota/ota.c:395-412 | From any factory state and for any image that passes, the run into the commit window: flag set, nothing on trial |
| OtaCrash.OneTrialThenRollback | components/app/supervisor/sup.c:198-256 | An applied image boots once on trial; a second reset without confirmation brings the old, settled image back |
| OtaCrash.ConfirmedImageStays | components/app/supervisor/sup.c:243-256 | A confirmed image boots again after every further reset, whether or not its flag could be cleared |
| OtaCommit.SwitchesOnlyACheckedSlot | components/app/ota/ota.c:297-419 | In every run, when the boot slot is about to be switched the target holds what the begin header announces in size and hash, with matching hardware and project, signed, and the flag is persisted |
| OtaCommit.StepIsAPath | components/app/ota/ota.c:297-495 | Every step of console or poll, whatever the hardware answers, is a possible sequence of flash events of the crash model, so its checks are passed only on bytes that pass, and leaves machine and disk in step |
| OtaCommit.PowerCutAnywhere | components/app/ota/ota.c:297-495 | Power cut at any step of any interleaved boot, on any history before it: only genuine images are or become bootable, and the reset continues the history |
| OtaCrash.Supervisor.BootDecide | components/app/supervisor/sup.c:198-222 | The first tick's decision between awaiting validation, a rollback report and clearing a stale flag |
| OtaCrash.Supervisor.TryValidate | components/app/supervisor/sup.c:243-256 | A healthy image on trial is confirmed first and its flag cleared after |
| SessionPolicy.PendingReplaysTheAction | components/app/pipeline/session_policy.c:36-50 | A close that could not be sent is remembered as the very action to repeat, and its OPEN never runs ahead |
| SessionMirror.Pipeline.SessionOpen | components/app/pipeline/pipeline.c:553-567 | Labels, count, flags and stamp of an OPEN, counted only if it was enqueued |
| SessionMirror.Pipeline.CloseAct | components/app/pipeline/pipeline.c:637-661 | The one close path: what is sent, what is remembered, and what the mirror then says |
| SessionMirror.Pipeline.OnVenue | components/app/pipeline/pipeline.c:667-677 | A venue found opens a session, rotates to it from another venue's by CLOSE then OPEN, or calls off a pending record; what is enqueued and what the mirror then says, for each outcome of the sends |
| SessionMirror.Pipeline.Rotate | components/app/pipeline/pipeline.c:682-690 | A mode change closes and reopens the pending target or the current venue, unless a close is pending |
| SessionMirror.Pipeline.VenueLostEvent | components/app/pipeline/pipeline.c:731-735 | A lost venue enqueues exactly one CLOSE and closes the mirror, or without room leaves it open with the close pending; nothing if none is open |
| SessionMirror.Pipeline.ResumeOpen | components/app/pipeline/pipeline.c:778-788 | A resume acts as a venue found and relabels unless a rotation is pending |
| SessionMirror.Pipeline.Periodic | components/app/pipeline/pipeline.c:600-627 | The periodic check: pending branch, drop, retry, confirm, from its two loads |
| SessionMirror.EventsDo | components/app/pipeline/pipeline.c:637-735 | What each lifecycle event enqueues and leaves in the mirror, written out without the policy |
| SessionMirror.PeriodicDoesIt | components/app/pipeline/pipeline.c:584-633 | The same for the periodic check |
| SessionMirror.CarryKeepsOrder | components/app/pipeline/pipeline.c:637-690 | However its sends go, a call keeps the venue of a session it could not close and never posts a rotation's OPEN without its CLOSE before it |
| SessionRun.EventAlone | components/app/pipeline/pipeline.c:553-690 | The interleaved model's steps, run undisturbed, are the routines above |
| SessionRun.PeriodicAlone | components/app/pipeline/pipeline.c:600-627 | So are the steps of a periodic check |
| SessionRun.FitsSnoc | components/app/pipeline/pipeline.c:553-690 | Appending a request keeps "working the queue off ends closed or with the mirror's venue and ignores no OPEN for another venue" |
| SessionSafety.SwallowedOpensNameTheOpenSession | components/app/logger/logger.c:358-361 | In every run in which no CLOSE of the pipeline's was dropped at the drain bound with something behind it that does not fit the open session, every OPEN the logger ignored named the venue then open |
| SessionSafety.DroppedCloseSwallows | components/app/logger/logger.c:1112-1135 | After such a drop, however everyone goes on, an OPEN for w behind the CLOSE with no CLOSE between only waits, or is ignored under the session of v |
| SessionSafety.QuietLoggerMatchesTheMirror | components/app/pipeline/pipeline.c:553-690 | With the queue worked off, the logger is closed or holds the mirror's venue, and sent equals seen |
| SessionSafety.ConfirmedMeansTheLatestOpen | components/app/pipeline/session_policy.c:22-34 | A confirmed mirror means the logger's latest completed open was the latest OPEN enqueued, with none queued behind it |
| SessionSafety.DropsOnlyAfterAForeignClose | components/app/pipeline/pipeline.c:600-633 | The mirror is dropped only after another task's CLOSE ended the confirmed session |
| SessionSafety.FoundVenueIsOpenedAndConfirmed | components/app/pipeline/pipeline.c:553-677 | The run in which a venue found is opened by the logger and confirmed |
| SessionSafety.LostVenueClosesTheLogger | components/app/pipeline/pipeline.c:731-735 | Once a lost venue's CLOSE got in, in every run in which it is not dropped at the bound and no later OPEN gets in, it is still queued or the logger is closed |
| SessionSafety.TheDrainBoundCanSwallowARotation | components/app/logger/logger.c:1112-1135 | A run in which the bound costs a rotation its CLOSE and its OPEN is swallowed |
| LogRequest.PackedCodeSurvives | components/app/sys/lt_ipc.c:95-102 | The tag survives packing always, the code exactly when it fits in 24 signed bits |
| LogRequest.AwaitReply | components/app/sys/lt_ipc.c:94-107 | The wait loop returns the code of the first word that is not stale, -2 on a timeout or after four stale words |
| LogRequest.TakenCodesBelongToTheRequest | components/app/sys/lt_ipc.c:84-107 | In every interleaving a taken code was produced for that very request unless at least 256 generations were drawn in between, and it is the logger's code |
| LogRequest.OwnReplyMeansNothingOutstanding | components/app/logger/logger.c:1099-1135 | Taking the reply to its latest request, a task has nothing left with the logger |
| LogRequest.CallGetsItsReply | components/app/sys/lt_ipc.c:84-107 | A call nobody comes between takes just its own answer, whatever old reply its slot holds |
| LogRequest.CallIsSafeIff | components/app/sys/lt_ipc.c:84-107 | At any reachable draw: however the run goes on the call takes no reply but its own, if and only if no request of its task still with the logger carries the tag drawn |
| LogRequest.YoungIsFree | components/app/sys/lt_ipc.c:60-65 | That holds while everything the caller has with the logger is younger than 256 generations |
| LogRequest.TheTagIsFooledAt256 | components/app/sys/lt_ipc.c:60-65 | A run in which a call's late reply, behind a full queue, is taken 256 generations later |
| PutBarrier.NoWriteUnderAnUpload | components/app/cmd/cmd.c:814-881 | In every interleaving in which the console never draws a tag that one of its own requests still with the logger carries, no command stores into the assembly buffer while the logger has an upload to read or is reading one |
| PutBarrier.TakenReplyClears | components/app/cmd/cmd.c:825-833 | The barrier's answer proves the upload finished or dropped |
| PutBarrier.TimedOutPutHoldsBack | components/app/cmd/cmd.c:825-881 | A timed-out upload is still with the logger and holds the next writing command at the barrier |
| PutBarrier.AnsweredBarrierLetsThrough | components/app/cmd/cmd.c:825-833 | Once the logger has answered the barrier the command goes on, with no upload left |
| PutBarrier.FooledOnlyARoundLater | components/app/sys/lt_ipc.c:60-65 | The console mistakes a reply for another request's exactly when it comes 256 or more generations late |
| LapBoard.AcceptedCopiesAreNotMixed | components/app/pipeline/pipeline.c:1666-1690 | In every interleaving all words of an accepted copy come from one published board, unless the writer ran 2^31 sections during the attempt |
| LapBoard.LapAtIsTheLap | components/app/pipeline/pipeline.c:1700-1728 | An accepted lap_at(i) is lap total - n + i of all laps completed when the read began, for any number of laps |
| LapBoard.SnapshotIsTheNewest | components/app/pipeline/pipeline.c:1666-1690 | An accepted snapshot is the newest laps, oldest first, as many as shown or asked for |
| LapBoard.SectionKeepsRing | components/app/pipeline/pipeline.c:337-346 | A write section's stores turn the board of a lap list into the board of the list with the new lap |
| LapBoard.SectionCompletes | components/app/pipeline/pipeline.c:322-346 | A section carried through publishes the board of the laps with the new one, and leaves the number two higher |
| LapBoard.QuietReadIsAccepted | components/app/pipeline/pipeline.c:1666-1728 | A read between two sections is accepted and copies the board |
| LapBoard.SnapshotIsRead | components/app/pipeline/pipeline.c:1666-1690 | On the board of any laps the snapshot's loads bring the newest of them |
| LapBoard.OneLapIsRead | components/app/pipeline/pipeline.c:1700-1728 | And those of lap_at bring, for every index shown, its lap |
| LapBoard.ShowsTheNewestUnlessWrapped | components/app/pipeline/pipeline.c:1692-1698 | The board shows the newest 24 laps, or all there are, exactly until the 32-bit total wraps and again from 24 laps after it |
| LapBoard.ReadLapAt | components/app/pipeline/pipeline.c:1700-1728 | The bounded retry loop answers from the first stable attempt, with words and answer as LapAtIsTheLap asks of an accepted copy, and gives nothing without one |
| LapBoard.Board.OnLapComplete | components/app/pipeline/pipeline.c:322-346 | The ring in place after one more lap |
| LapBoard.Board.Snapshot | components/app/pipeline/pipeline.c:1666-1690 | The copy loop fills the caller's array with the newest laps in order |
| RtcSnapshot.GuardedReadIsOneRecord | components/app/sys/lt_rtc.c:63-81 | A guarded validate that believes its pass gives the verdict on one record and copies exactly that one; Invalid is only ever said of what an earlier boot left |
| RtcSnapshot.Validate | components/app/sys/lt_rtc.c:63-81 | The bounded retry loop judges the first attempt whose generation was even and stayed, and falls back only when there is none |
| RtcSnapshot.SealedIsValid | components/app/sys/lt_rtc.c:83-134 | What a save publishes checks out, what a clear publishes reads as absent |
| RtcSnapshot.JudgeMeans | components/app/sys/lt_rtc.c:54-61 | Valid exactly if magic, version and checksum are right, Absent exactly if the magic is not |
| RtcSnapshot.WriteCompletes | components/app/sys/lt_rtc.c:83-134 | A save or clear carried through leaves the record it stands for and the generation two higher |
| RtcSnapshot.QuietReadIsBelieved | components/app/sys/lt_rtc.c:63-81 | A pass between two writes is believed and reads the record |
| RtcSnapshot.RecordValidates | components/app/sys/lt_rtc.c:54-61 | The words read one by one from a record validate as just the verdict on it |
| ErrorRing.AppendMeans | components/app/sys/lt_nvs.c:404-408 | For any ring and head, recording a new code appends it and drops the oldest exactly when the head slot is in use |
| ErrorRing.RefreshMeans | components/app/sys/lt_nvs.c:400-403 | A repeat changes the newest entry's argument and time only |
| ErrorRing.PackedRingIsABoundedList | components/app/sys/lt_nvs.c:376-416 | On a ring without holes recording is appending to a list that keeps its newest 32 |
| ErrorRing.RecordingKeepsPacked | components/app/sys/lt_nvs.c:376-416 | Recording, repeat or not, keeps a ring without holes so |
| ErrorRing.BoundedListIff | components/app/sys/lt_nvs.c:376-416 | In general that holds if and only if the head slot is in use exactly when all are |
| ErrorRing.AddMeans | components/app/sys/lt_nvs.c:376-416 | What a report does to the list of entries, repeat or not |
| ErrorRing.LoadedIff | components/app/sys/lt_nvs.c:256-313 | A boot takes a blob exactly if its size, its checksum over what it holds and its version are right; anything else reads as the empty ring, with the reason |
| ErrorRing.SaveThenLoad | components/app/sys/lt_nvs.c:247-291 | A saved ring reads back as it was; a blob that does not check out reads back empty |
| ErrorRing.AddKeepsLogOk | components/app/sys/lt_nvs.c:366-416 | After every report flash equals RAM but for the newest entry's argument and time, unless the flash write failed, and the dedup state names the newest entry |
| ErrorRing.PowerCutLosesAtMostTheNewestDetail | components/app/sys/lt_nvs.c:366-416 | A boot from flash now would list the same entries but for the newest one's argument and time |
| ErrorRing.RingIsABoundedList | components/app/sys/lt_nvs.c:266-499 | Through any run of reports, clears and boots over a flash copy without holes, whatever writes fail, the ring has no holes and lists exactly what a list keeping its newest 32 would; so does the ring a boot would find |
| ErrorRing.EmptyFlashStartsEmpty | components/app/sys/lt_nvs.c:270-291 | A device with no blob in flash, or one of the wrong size, checksum or version, runs as that list from empty |
| ErrorRing.ErrorLog.Add | components/app/sys/lt_nvs.c:376-416 | The call in place is AddedLog and keeps the log valid |
| ErrorRing.ErrorLog.Clear | components/app/sys/lt_nvs.c:491-499 | The log emptied in RAM and flash, dedup forgotten |
| ErrorRing.ErrorLog.Count | components/app/sys/lt_nvs.c:461-469 | The number of entries recorded |
| ErrorRing.ErrorLog.At | components/app/sys/lt_nvs.c:471-489 | Entry number i, or -1 past the end |
| ErrorRing.ErrorLog.Snapshot | components/app/sys/lt_nvs.c:433-455 | The oldest entries, as many as fit, in order |
| SessionTable.ParseIsExact | components/app/cmd/cmd.c:594-600 | Only <id>.log and <id>.sum with an id of 1 to 10 characters count, whatever the id |
| SessionTable.MergedMeans | components/app/cmd/cmd.c:613-614 | With no file listed twice, the merged facts are those of the id's own two files, and nothing for one that is not there |
| SessionTable.KbMeans | components/app/cmd/cmd.c:613-614 | A size is rounded up to whole kilobytes exactly if that fits in 16 bits |
| SessionTable.NewestIsUnique | components/app/cmd/cmd.c:563-571 | There is one set of the 48 newest ids |
| SessionTable.OldIdStaysOut | components/app/cmd/cmd.c:572-586 | An id at or below the least tracked one, evicted or never in, leaves the newest 48 as they are |
| SessionTable.NewerIdReplaces | components/app/cmd/cmd.c:572-586 | An id above the least tracked one is new to the listing and replaces exactly that one |
| SessionTable.OrderIsIrrelevant | components/app/cmd/cmd.c:637-651 | Two listings of the same directory leave the same ids |
| SessionTable.Table.MakeRoom | components/app/cmd/cmd.c:572-586 | Room is made exactly by dropping the row of least id, if the incoming id is above it |
| SessionTable.Table.ScanOne | components/app/cmd/cmd.c:590-615 | The table of a listing becomes the table of the listing with one file more |
| SessionTable.Table.Scan | components/app/cmd/cmd.c:643-651 | After any listing: exactly the 48 largest distinct ids, each with all its facts merged |
| ChunkWriter.WholeMeans | components/app/cmd/cmd.c:373-428 | What the receiver sees: chunks within 496 bytes, numbered from 0 (modulo 2^16), only the last flagged, carrying the payload and then the unsplit trailer |
| ChunkWriter.Writer.Write | components/app/cmd/cmd.c:385-413 | However a payload is split into writes, what was sent is the beginning of the chunks of the whole payload, and a failed transport got a prefix |
| ChunkWriter.Writer.Finish | components/app/cmd/cmd.c:415-428 | Success means exactly the payload's chunks from the offset, carrying it and the checksum of the whole payload behind it, lowest byte first |
| ChunkWriter.SumChains | components/app/cmd/cmd.c:390 | The checksum taken piece by piece is that of the whole |
| ChunkWriter.SumTakesEveryByte | components/app/cmd/cmd.c:390 | It takes every byte, in order, from the front |
| ChunkWriter.Le32Means | components/app/cmd/cmd.c:103-108 | The trailer's four bytes are the checksum's base-256 digits, lowest first |
| RawStream.StreamRaw | components/app/cmd/cmd.c:710-738 | A pass sends exactly the bytes its reads brought, up to its limit or the end of the file |
| RawStream.Exporter.Stream | components/app/cmd/cmd.c:1043-1080 | Which pass is the printing one, where it stops, and what memo a pass leaves |
| RawStream.MeasureAndPrint | components/app/cmd/cmd.c:1043-1080 | Over a file that only grows the printing pass repeats the measuring pass chunk for chunk |
| RawStream.ReadResumes | components/app/cmd/cmd.c:1101-1113 | READ at an offset sends the rest of what OPEN sends with the same checksum; past the end the checksum alone |
| BootGate.LevelIsExpected | main/app_main.c:124-149 | Over any run of boots from erased flash each boot comes up at exactly the level the crash streaks call for |
| BootGate.StreakEscalates | main/app_main.c:124-149 | The third bad boot in a row is at level 1, each later one at level 2 or, exactly if the gate was cleared just before, at 1; that was an operator or RTC memory was lost |
| BootGate.BackToNormal | main/app_main.c:124-149 | A boot that is neither in a streak nor right after one is at level 0 |
| BootGate.AnyCellsGate | main/app_main.c:124-149 | Whatever the cells hold, when the level is 0, 1 or 2 and what is left in the cells |
| BootGate.StreakIsThreeBad | components/app/sys/lt_nvs.c:501-534 | The shifted log finds a loop exactly when this boot and the two before it were bad |
| BootGate.BadIff | main/app_main.c:107-116 | A boot counts as bad exactly if the life before it ended abnormally and the latest tick remembered, of whichever life, was below the window |
| BootGate.CrashIsMissedIff | components/app/sys/lt_rtc.c:136-145 | A crash within the window is missed exactly if it came before the first tick, RTC memory survived and the latest earlier tick was past the window |
| BootGate.EarlyDeathsAreNoStreak | components/app/sys/lt_nvs.c:527-534 | Any number of such crashes in a row is no streak and leaves the device at level 0 |
| BootGate.ThreeQuickCrashesUnseen | components/app/sys/lt_nvs.c:527-534 | A run of three crashes in their first second after a long life, every boot at level 0 |
| BootGate.Gate.ResetRecord | main/app_main.c:107-116 | A stall marker overrides the hardware's reason and is consumed |
| BootGate.Gate.CrashLoop | components/app/sys/lt_nvs.c:527-534 | The loop test on the three newest entries |
| BootGate.Gate.SafeMode | main/app_main.c:124-149 | The level decision and the cells it leaves |
| BootGate.Gate.Tick | components/app/supervisor/sup.c:275-287 | A tick stores the uptime and clears the gate only in safe mode past the limit |
| SessionIds.IdOrder | components/app/logger/logger.c:336-338 | Printed ids are distinct and string order is (boot modulo 65536, number) order |
| LoggerFiles.OlderIsEarlier | components/app/logger/logger.c:1005-1026 | The order eviction compares .log names by is the order of the sessions |
| LoggerFiles.EvictionTakesTheOldest | components/app/logger/logger.c:1005-1094 | Evicting k removes exactly the k oldest logs, never the open session's and never a summary |
| LoggerFiles.ScanOldest | components/app/logger/logger.c:1005-1026 | Over a listing in any order the scan finds the oldest candidate, or that there is none |
| LoggerFiles.Storage.EvictionCheck | components/app/logger/logger.c:1051-1094 | A pass makes at most 8 tries, none unless space is short, stops sooner only at the target, with nothing left or on an unknown reading, and what is gone is the k oldest logs |
| LoggerFiles.SessionCount | components/app/logger/logger.c:178-193 | A recount is the number of .sum files, capped at 65535 |
| LoggerFiles.CountIsARecount | components/app/logger/logger.c:430-545 | Through any run of requests the kept count is a recount less the open session's own when storage succeeds, and never more than that whatever fails |
| LoggerFiles.NextKeeps | components/app/logger/logger.c:430-545 | The same for one request |
| LoggerFiles.SessionLogger.NextSessionId | components/app/logger/logger.c:323-341 | A new number and its id, refused at the 256th open of a boot |
| LoggerFiles.SessionLogger.Open | components/app/logger/logger.c:358-440 | Opening in place, in every refusal and failure branch |
| LoggerFiles.SessionLogger.Close | components/app/logger/logger.c:450-481 | Closing in place; a summary that did not land is not counted |
| LoggerFiles.OpenResult | components/app/logger/logger.c:358-440 | When an open opens a session, under which id and with which files there; what a refusal and a failed creation leave; and that only logs go |
| LoggerFiles.CloseResult | components/app/logger/logger.c:450-481 | A close ends the session, keeps its files, and counts it exactly if its summary landed |
| LoggerFiles.DeleteResult | components/app/logger/logger.c:504-545 | What each result of a delete means for the files, with storage's own codes passed on and when they can be taken for a refusal, and that nothing else changes |
| LoggerFiles.SessionLogger.Delete | components/app/logger/logger.c:511-545 | Deleting in place with its result code; the open session is refused |
| CStripper.PositionsSurvive | tools/lint/power_of_10.py:152-207 | On every text each character stays or becomes a blank and every newline stays where it is |
| CStripper.StrippedIsClean | tools/lint/power_of_10.py:152-207 | No quote and no comment opener is left |
| CStripper.StrippingIsIdempotent | tools/lint/power_of_10.py:152-207 | Stripping twice is stripping once |
| CStripper.PieceIsShown | tools/lint/power_of_10.py:152-207 | Whatever follows, a stretch of code is kept as it is, and a comment or literal is blanked to its own end and no further |
| CStripper.CodeSurvives | tools/lint/power_of_10.py:152-207 | A text strips to its code with its comments and literals blanked in place |
| CStripper.EveryTextHasPieces | tools/lint/power_of_10.py:152-207 | Every text is made of such pieces |
| CStripper.StripCommentsAndLiterals | tools/lint/power_of_10.py:152-207 | The index loops give, for every text, its code with its comments and literals blanked in place |
| CFunctions.HeaderIsExact | tools/lint/power_of_10.py:271-338 | What the look-back finds before a brace is exactly the header there: a whole identifier, neither keyword nor attribute, a balanced parameter list, then only space and attribute lists |
| CFunctions.NameBeforeParen | tools/lint/power_of_10.py:271-297 | The walk back over parameter list, space and name |
| CFunctions.HeaderBefore | tools/lint/power_of_10.py:312-338 | The look-back with its attribute loop, which ends on every text |
| CFunctions.TopSpansAreDisjoint | tools/lint/power_of_10.py:300-352 | Spans opened at depth 0, and so functions, never overlap, however unbalanced the text |
| CFunctions.SpansAreBalanced | tools/lint/power_of_10.py:300-352 | Within a span every closing brace closes one opened inside, and every brace opened inside is closed inside |
| CFunctions.FindTopLevelFunctions | tools/lint/power_of_10.py:300-352 | The list is exactly the text's functions: every brace at depth 0 with a header (attribute lists or not) and a match, no other, in order |

## Left out

- Weak memory: all interleavings are of sequentially consistent steps; the logger's two stores at open are one step, the pipeline's two loads are two.
- FreeRTOS, flash, SHA-256, signatures and the checksums are abstract: parameters that may succeed or fail, or functions with no further facts.
- Liveness: nothing is said about a send, a reply or a retry eventually succeeding.
- SessionSafety.SwallowedOpensNameTheOpenSession: holds only of runs in which no CLOSE of the pipeline's was dropped at the drain bound with something behind it that does not fit the open session; DroppedCloseSwallows says what becomes of the others.
- PutBarrier.NoWriteUnderAnUpload: says nothing of runs in which the console drew a tag one of its outstanding requests carries.
- LapBoard.AcceptedCopiesAreNotMixed: assumes fewer than 2^31 write sections during one attempt.
- LapBoard.Board.Snapshot: one undisturbed attempt; the interleaved attempts are the run model's.
- RtcSnapshot.GuardedReadIsOneRecord: the unguarded read after the last retry is not claimed, and the order of the stores inside a section is free.
- Session counters of the session protocol are unbounded numbers; the source's are 32 bits wide and compared for equality only.
- Ota.Receiver.Begin: user-interface posts and error-log entries are not modelled, and NVS commit results are as the source treats them.
- OtaCrash: user-interface reports of a rollback and their retry are not modelled.
- OtaCommit: a flash write that fails leaves the modelled bytes as they were, and the supervisor's own flag writes are steps of their own beside the machine's.
- logger_set_venue and the session labels inside the log files are not modelled; a layout change only moves the mirror's own label.
- The reply wait's discard bound may give up on a reply that would still come; nothing is claimed about that.
- RawStream: a file that cannot be opened, and the ERROR chunks, are not modelled.
- JSON, VBO and NMEA exports, raw .sum passes and the coredump stream: their second pass may differ or they add only easy cases.
- The JSON text of LIST and the summary scan behind it are not modelled; the table is.
- BootGate.LevelIsExpected: NVS writes succeed, no OTA push intervenes, and fewer than 2^32 - 2 boots.
- LoggerFiles.CountIsARecount: while the directory holds fewer than 65535 summaries and none bears an id of this boot at the start.
- LoggerFiles: record batches, the log's contents and the summary's contents are not modelled, only which files exist.
- CFunctions.FindTopLevelFunctions: word characters are ASCII ones; the list is proved to be in order already, so the final sort is not modelled.
- `#if 0` blanking, the rule checks and the rest of the lint tool.
- Lap, drag, fusion, GPS, user interface, power, configuration and link code.
