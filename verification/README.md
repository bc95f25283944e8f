# Walleye in Dafny

A model of the parts of Walleye that keep data safe while several processes act at once, with the
properties they are built to keep. Each protocol is a step function over the state its processes
share, folded over an arbitrary sequence of actions; an action that cannot be taken changes nothing,
so a lemma about a fold speaks about every interleaving. Where the source updates fields or loops,
a class or a method does the same and is proved equal to that step function.

| component | files |
|---|---|
| Control head: one object changed by compare-and-swap | ControlTypes, ControlHead, ControlProtocol, ControlInvariant, ControlTheorems, ControlRebase, ControlRace, ControlAnswers, ControlOk, ControlAlone |
| Bitr write-ahead log backend | WalSpec, WalTheorems, WalDecode, WalReturns, WalExact, WalBackend |
| Opaque archive of a stream | Archive, ArchiveTheorems, ArchiveRange, ArchiveWhole, ArchiveVerify, ArchiveProtocol, ArchivePublisher, ArchiveAlone |
| Retirement receipts | Retirement |
| Placement fences and leases | Placement, PlacementTheorems, PlacementRuns, PlacementAnswers, PlacementStore |
| Calendar and cron | Calendar, Cron, CronTheorems, CronNames, CronWeekday, CronField |
| Alarms | Alarms, AlarmRuns, AlarmFailures, AlarmRepeats, AlarmOnce |
| Metadata authority migration | Authority, AuthoritySource, AuthorityFreeze, AuthorityMembers, AuthorityHead |
| Versioned block cache | BlockCache |
| Binary record codec | Codec, Utf8 |
| Query and cache memory budget | MemoryGovernor |

## What is taken as given

- The conditional put is atomic and its version changes with every write. SHA-256 digests are
  function values (`Env`, `Config`). No lemma takes them for injective: where two values must not be
  mistaken for each other, it says so of those values (`ControlRebase.Apart`, `ControlOk.NoClash` and
  `KeyTells`, `AuthorityFreeze.Apart`, `ArchivePublisher.Unmistakable`), and where a digest must be 64 hexadecimal characters, of the digests
  in play. `ControlRace.SampleLoserCommits` and `ArchivePublisher.DigestsCanMeet` give environments that
  meet these conditions.
- AEAD encryption adds exactly 16 bytes. JSON and Arrow encodings are injective and are not modelled.
- A synced directory keeps its renames. An unsynced rename is what every process reads until a power
  loss, which keeps any prefix of the unsynced renames (`Placement.Surviving`).
- An origin never reuses an entity tag for other bytes, nor a version id for another object
  (`BlockCache.ValidatorsHold`). Where a read trusts an immutable file name, nothing is ever written
  twice under such a name (`BlockCache.WrittenOnce`).
- Whether a request's own preconditions hold of an object is a parameter of the read.
- Callers of `publish_pending_handoff` leave the other streams' claims as they loaded them
  (`ControlProtocol.Callable`): the source passes their metadata on as it is.
- Where a receipt is taken as the witness of a write, callers of `create` and `update` bring no receipts
  of other operations (`ControlOk.OwnReceiptsOnly`): the source merges whatever receipts they bring.
- Callers of `archive_committed` submit no record on the last 64-bit LSN (`ArchiveProtocol.Callable`).

## Where the code does not do what one would expect

Each of these is kept as the code has it, with the exact condition under which it happens.

- A cached commit can sit at the write-ahead log's cursor, not behind it, when a certified recovery
  contradicts a write whose answer was lost (`WalTheorems.CacheStaysBehind`, `ContradictedRun`).
- With the watermark on the last 64-bit LSN, the archive publishes its last record again
  (`ArchiveProtocol.RepublishesOnlyAtTheEnd`, `LastLsnRepublished`); and `archived_tail` then names
  another LSN than the last record (`ArchiveTheorems.TailIsLastRecord`).
- A rebased advance also needs room in the authority epoch: the saturating comparison of the
  transition check refuses it at the last epoch (`ControlRebase.Room`, `RebasedFollows`).
- Operation ids and stream names may hold a NUL, and then the phases of two streams can share the
  text under their receipt key; a losing advance whose key the winner has taken is refused instead of rebased
  (`ControlRebase.StageKeysShared`, `PhaseTextsCollide`, `LoserStillCommits`).
- A claim can succeed with a snapshot that no longer carries it: when the same claim was committed and
  completed by another coordinator in between, its receipt answers the retry (`ControlOk.ClaimSucceeded`).
- An admission waiting at its gate is granted although the store has since failed closed
  (`PlacementRuns.WaitingAdmissionIgnoresClosure`).
- A process that starts over an unsynced rename answers fences and admits leases at a placement a
  later power loss can take back: the fence is lost, the epoch falls, and one epoch is admitted under
  two digests (`PlacementRuns.OpenedRenameTakenBack`). Placements fall exactly then
  (`PlacementRuns.EpochsFallIff`).
- The comment on `next_after` says four years cover every schedule; schedules that only match a
  29 February are the exception (`CronTheorems.WindowCoversAllButLeapDays`).
- `next_after` skips one minute for a negative input off the minute (`CronTheorems.FoundIsLeast`).
- The cron documentation has Sunday as both 0 and 7; the code replaces every digit 7 of the weekday
  field by 0. So `0-7` is read as Sunday only, `1-7` to `6-7` and `*/7` are refused, and `70` is
  accepted (`CronWeekday.WholeWeekToSeven`, `RangeToSevenRefused`, `StepSevenRefused`,
  `SeventyAccepted`); `CronField.PieceReadIff` and `FieldReadIff` say by the numbers exactly which
  pieces and which whole fields are read as documented.
- An alarm whose walk over missed occurrences ran out of steps fires the same occurrence and attempt
  again after a give-up, and the report of the first is then taken for the second's
  (`AlarmRepeats.TruncatedFiringRepeats`, `FiringsIncreaseIff`, `LateReportsIff`).
- An infallible `grow` leaves the cache over the budget when the cache backend refuses to shrink, and
  two reservations racing between check and count do so on the next return of memory
  (`MemoryGovernor.CapacityWithinBudgetIff`, `GrowNeedsResize`, `RacingLeasesOvershoot`).

## Model

| member | source | states |
|---|---|---|
| ControlHead.CarryForward | crates/walleye-bitr-server/src/control_head.rs:594-616 | carrying published entries into a candidate succeeds exactly when every shared key agrees, and then the result is their union |
| ControlInvariant.UpdateDecision | crates/walleye-bitr-server/src/control_head.rs:859-932 | what `update_inner` decides to put is a storable successor of the head it loaded with all receipts carried over |
| ControlInvariant.ClaimDecision | crates/walleye-bitr-server/src/control_head.rs:938-984 | a claim is only submitted on a stream that has none; what its answers mean is in `ControlOk` and `ControlAlone` |
| ControlInvariant.AdvanceDecision | crates/walleye-bitr-server/src/control_head.rs:989-1094 | an advance only moves its own stream's claim, forward, keeping what the claim fixed |
| ControlInvariant.RebaseDecision | crates/walleye-bitr-server/src/control_head.rs:1099-1146 | the one rebase after a lost put moves the same claim on top of the newer head |
| ControlInvariant.PublishDecision | crates/walleye-bitr-server/src/control_head.rs:1153-1207 | a publication moves one claim to the route-published stage |
| ControlInvariant.CompleteDecision | crates/walleye-bitr-server/src/control_head.rs:1213-1246 | a completion removes one route-published claim and nothing else |
| ControlInvariant.StepKeeps | crates/walleye-bitr-server/src/control_head.rs:805-1285 | every step of every coordinator, lost answers included, keeps the history of heads and every coordinator's knowledge of it consistent |
| ControlInvariant.ExecKeeps | crates/walleye-bitr-server/src/control_head.rs:805-1285 | so does every interleaving of any number of coordinators |
| ControlInvariant.HeadsGrow | crates/walleye-bitr-server/src/control_head.rs:859-932 | the heads published by a prefix of a run are a prefix of those published by the run |
| ControlTheorems.ClaimsPersist | crates/walleye-bitr-server/src/control_head.rs:859-1285 | a claim once published is in every later head, same operation, source and target, stage never going back, until a completion at route-published with exactly its route in the manifest |
| ControlTheorems.BoundaryFixed | crates/walleye-bitr-server/src/control_head.rs:263-338 | from archive-verified on, successor route and placement never change, and the archived LSN is the same or stays below the source's start, unless the successor starts on the last 64-bit LSN |
| ControlTheorems.WatermarkMovesIff | crates/walleye-bitr-server/src/control_head.rs:263-338 | the archived LSN of a verified claim may change exactly where the successor's start does not depend on it |
| ControlTheorems.RoutesPartition | crates/walleye-bitr-server/src/control_head.rs:1387-1430 | in every published head, each LSN up to the last range's end lies in exactly one range of its stream |
| ControlTheorems.ReceiptsAppendOnly | crates/walleye-bitr-server/src/control_head.rs:594-616 | receipts only accumulate and one operation id is behind at most one head |
| ControlTheorems.RevisionRises | crates/walleye-bitr-server/src/control_head.rs:1458-1493 | every write raises the revision by exactly one, unless it is already the last 64-bit value |
| ControlTheorems.GenerationsChain | crates/walleye-bitr-server/src/control_head.rs:1458-1487 | the epoch rises by at most one per write, and each later generation's marker names the last head of the one before |
| ControlRebase.StageKeysShared | crates/walleye-bitr-server/src/control_head.rs:384-405 | two phases share a receipt key exactly when stage and digest are the same, which is, unless their digests collide, when their hashed texts are |
| ControlRebase.PhaseKeysDistinct | crates/walleye-bitr-server/src/control_head.rs:384-405 | texts are the same exactly when the stages and the NUL-joined names are, and where the operation ids or the streams hold no NUL, exactly for the same stage of the same stream and operation |
| ControlRebase.PhaseTextsCollide | crates/walleye-bitr-server/src/control_head.rs:384-405 | two different streams and operations with one text |
| ControlRebase.RebasedStorable | crates/walleye-bitr-server/src/control_head.rs:1099-1146 | a rebased head with a usable key and digest is storable exactly when receipts and size allow one more |
| ControlRebase.RebasedFollows | crates/walleye-bitr-server/src/control_head.rs:1458-1487 | the rebased head passes the transition check exactly when the epoch is not saturated or the marker already names the head |
| ControlRebase.LoserStillCommits | crates/walleye-bitr-server/src/control_head.rs:989-1146 | an advance that loses to one advance of another stream, before its first load, before its update load or before its put, commits on top of it or fails only for want of room, exactly when the two phases' receipt keys differ; otherwise nothing is written and, unless the two heads' digests collide, it is refused |
| ControlRace.RaceReached | crates/walleye-bitr-server/src/control_head.rs:989-1146 | from any head that would take either of two advances, runs bring the one into each of those three windows behind the other |
| ControlRace.SampleLoserCommits | crates/walleye-bitr-server/src/control_head.rs:989-1146 | on a head and digests written out, the loser commits in each of the three windows |
| ControlRebase.AdvanceChangesOneClaim | crates/walleye-bitr-server/src/control_head.rs:989-1146 | every committed advance, direct or rebased, changes exactly one claim of the head it replaced |
| ControlAnswers.ExecServes | crates/walleye-bitr-server/src/control_head.rs:805-1285 | in every run, every coordinator stands at a point of its own call, and a success is a snapshot of the history with the call's own receipt or one that shows what it asks for |
| ControlOk.ReceiptsEarned | crates/walleye-bitr-server/src/control_head.rs:594-616 | in every run whose callers bring no foreign receipts, every receipt of every head is of a write at or before it |
| ControlOk.SuccessShows | crates/walleye-bitr-server/src/control_head.rs:805-1285 | what a successful call's snapshot shows, for every call |
| ControlOk.ClaimSucceeded | crates/walleye-bitr-server/src/control_head.rs:938-984 | in every run, a claim that succeeded was committed: the stream carries a claim of the same operation, source and target at or before the snapshot, and in it unless completed since |
| ControlOk.AdvanceSucceeded | crates/walleye-bitr-server/src/control_head.rs:989-1146 | an advance that succeeded left its receipt, and where its snapshot carries a claim, the claim had reached the stage |
| ControlOk.StageHappened | crates/walleye-bitr-server/src/control_head.rs:989-1207 | an advance or publication that succeeded did happen: some head at or before the snapshot moved this operation's claim of this stream to this stage |
| ControlOk.PublishSucceeded | crates/walleye-bitr-server/src/control_head.rs:1153-1207 | a publication that succeeded left its receipt, and its snapshot carries exactly the claim, or an earlier head exactly the metadata published |
| ControlOk.CompletionHappened | crates/walleye-bitr-server/src/control_head.rs:1213-1246 | a completion that succeeded did happen: some head at or before the snapshot removed this operation's claim of this stream |
| ControlOk.WriteSucceeded | crates/walleye-bitr-server/src/control_head.rs:805-932 | a creation or update that succeeded left a receipt with its epoch and revision, a creation also with its digest |
| ControlAlone.ClaimOnClaimed | crates/walleye-bitr-server/src/control_head.rs:938-984 | alone on a claimed stream, the same claim is confirmed and any other is a conflict; nothing is written |
| ControlAlone.ClaimCommits | crates/walleye-bitr-server/src/control_head.rs:938-984 | alone on a free stream, a claim the head can take commits and writes exactly the one claim |
| ControlAlone.ClaimRefused | crates/walleye-bitr-server/src/control_head.rs:938-984 | why any other claim is refused, first reason first |
| ControlAlone.AdvanceCommits | crates/walleye-bitr-server/src/control_head.rs:989-1094 | alone, an advance the head can take commits and changes exactly the one claim |
| ControlAlone.AdvanceAnswered | crates/walleye-bitr-server/src/control_head.rs:989-1094 | how an advance is answered when the claim is gone, another's, or already as far |
| ControlAlone.PublishCommits | crates/walleye-bitr-server/src/control_head.rs:1153-1207 | alone, a publication the head can take commits and writes exactly its metadata |
| ControlAlone.PublishAnswered | crates/walleye-bitr-server/src/control_head.rs:1153-1207 | how a publication is answered otherwise, first reason first |
| ControlAlone.CompleteCommits | crates/walleye-bitr-server/src/control_head.rs:1213-1246 | alone, a completion of a published claim commits and removes exactly that claim |
| ControlAlone.CompleteAnswered | crates/walleye-bitr-server/src/control_head.rs:1213-1246 | how a completion is answered otherwise, first reason first |
| ControlAlone.CreateAnswered | crates/walleye-bitr-server/src/control_head.rs:805-835 | creating writes where there is no head; otherwise it succeeds exactly when the head carries the receipt of this very write |
| ControlAlone.UpdateCommits | crates/walleye-bitr-server/src/control_head.rs:859-932 | an update on the current head that contradicts none of its claims and receipts and follows it commits, with all of them |
| ControlAlone.UpdateAnswered | crates/walleye-bitr-server/src/control_head.rs:859-932 | how an update is answered otherwise, first reason first |
| ControlAlone.LostPutAnswered | crates/walleye-bitr-server/src/control_head.rs:908-928 | a put that lost still succeeds exactly when the head it finds carries its receipt |
| WalTheorems.DecodedFrom | crates/walleye-lance/src/backend.rs:764-819 | accepted recoveries are gapless runs right after the caller's watermark |
| WalTheorems.FreshCursor | crates/walleye-lance/src/backend.rs:595-619 | on a fresh backend applying a recovery already places the cursor where `ensure_position` puts it |
| WalDecode.DecodeIff | crates/walleye-lance/src/backend.rs:764-819 | a recovered tail is accepted exactly when every record fits its place: stream, LSN, link, epoch bound, readable payload of that epoch, fence or own; then all of it is returned |
| WalDecode.FirstFault | crates/walleye-lance/src/backend.rs:764-819 | and otherwise it is refused for the first record that does not, by its fault |
| WalTheorems.StepKeeps | crates/walleye-lance/src/backend.rs:231-1020 | every call keeps sends, pending write, cache and cursor consistent |
| WalTheorems.ExecKeeps | crates/walleye-lance/src/backend.rs:231-1020 | so does every sequence of calls with any replies |
| WalTheorems.NoConflictingSends | crates/walleye-lance/src/backend.rs:431-592 | one backend never sends two different records at one LSN |
| WalTheorems.CursorOnlyAdvances | crates/walleye-lance/src/backend.rs:821-929 | the cursor never moves back and nothing is sent after poisoning |
| WalTheorems.CacheBehindCursor | crates/walleye-lance/src/backend.rs:821-886 | cached commits lie at or below the cursor, at it only against a contradicted pending write |
| WalTheorems.CacheStaysBehind | crates/walleye-lance/src/backend.rs:821-886 | a call leaves the cache strictly behind the cursor exactly when it neither contradicts the pending write nor acknowledges the last LSN |
| WalTheorems.ContradictedRun | crates/walleye-lance/src/backend.rs:821-886 | a concrete run that ends with an entry cached at the cursor |
| WalReturns.PoisonedRefuses | crates/walleye-lance/src/backend.rs:905-929 | a poisoned backend answers every call but a checkpoint with an error and changes nothing |
| WalReturns.PoisoningFails | crates/walleye-lance/src/backend.rs:905-929 | a call that poisons the backend returns an error |
| WalReturns.AppendMeans | crates/walleye-lance/src/backend.rs:416-592 | a successful append is for its own position, cached there behind the cursor, and sent by this call unless cached before; an occupied slot is reported to a fence only |
| WalReturns.RecoverMeans | crates/walleye-lance/src/backend.rs:252-315 | returned entries run on from the watermark without a gap up to the persisted one, are fences or this owner's and of no newer writer, and the backend holds them behind its cursor |
| WalReturns.StrictFault | crates/walleye-lance/src/backend.rs:764-819 | a strict recovery is refused for its first bad record and changes nothing but that a structural fault poisons |
| WalReturns.NewerWriterFences | crates/walleye-lance/src/backend.rs:793-795 | where that record is by a newer writer, the call is refused as fenced and the backend is poisoned |
| WalExact.RecoversIff | crates/walleye-lance/src/backend.rs:821-886 | a strict recovery of fitting records is refused exactly for want of a certificate, short of the persisted watermark or against the pending write; otherwise all is taken, field by field |
| WalExact.ReadsForLanceIff | crates/walleye-lance/src/backend.rs:634-669 | a read for Lance is refused exactly when its tail disputes the cache; otherwise all is taken, and what is known committed only moves on |
| WalExact.ProbeFindsNothing | crates/walleye-lance/src/backend.rs:701-726 | a probe that finds nothing places the cursor right after its hint |
| WalExact.WritableIff | crates/walleye-lance/src/backend.rs:392-413 | a payload may be written exactly when it is readable, of the writer's epoch, a fence where asked for and only there, or the owner's; and the error otherwise |
| WalExact.AppendAtCursor | crates/walleye-lance/src/backend.rs:500-592 | a write at the cursor is committed exactly by the acknowledgement of its own stream, epoch and LSN; any other poisons; a refusal leaves it pending and poisons exactly when fenced |
| WalExact.AppendElsewhere | crates/walleye-lance/src/backend.rs:507-533 | anywhere else nothing is sent: cached bytes are confirmed, anything else is a conflict that poisons |
| WalExact.FenceLooks | crates/walleye-lance/src/backend.rs:461-498 | a refused fence counts its slot as occupied exactly when the records there are all of older writers and agree with the cache; a newer writer fences it |
| WalReturns.PositionMeans | crates/walleye-lance/src/backend.rs:326-331 | a returned position is where the cursor stands |
| WalReturns.ReadMeans | crates/walleye-lance/src/backend.rs:333-361 | a returned entry is the one at that position and held there; none means the gateway returned no records from it on |
| WalReturns.ReadCallMeans | crates/walleye-lance/src/backend.rs:671-699 | whatever others call while a Lance read has dropped the lock, it keeps what every call keeps, and its entry is held when it returns |
| WalReturns.NextCallMeans | crates/walleye-lance/src/backend.rs:701-726 | likewise a position probe, which returns where the cursor then stands |
| WalBackend.HighestKey | crates/walleye-lance/src/backend.rs:888-903 | the greatest cached position |
| WalBackend.DecodeRecoveryRecords | crates/walleye-lance/src/backend.rs:764-819 | the checking loop equals the decoder, which `WalDecode.DecodeIff` and `FirstFault` characterize |
| WalBackend.BitrWalBackend.PoisonIfStructural | crates/walleye-lance/src/backend.rs:913-929 | exactly the structural errors poison |
| WalBackend.BitrWalBackend.AdvanceNextPosition | crates/walleye-lance/src/backend.rs:888-903 | the cursor becomes the maximum of itself, the recovered tail and the cache, plus one |
| WalBackend.BitrWalBackend.ApplyRecovery | crates/walleye-lance/src/backend.rs:821-886 | the strict loop equals its specification, including where it stops |
| WalBackend.BitrWalBackend.ApplyRecoveryForLance | crates/walleye-lance/src/backend.rs:634-669 | the lenient loop equals its specification |
| WalBackend.BitrWalBackend.EnsurePosition | crates/walleye-lance/src/backend.rs:595-619 | places the cursor once, from the recovered tail |
| WalBackend.BitrWalBackend.AppendLocked | crates/walleye-lance/src/backend.rs:500-592 | whole new state of one append under the lock |
| WalBackend.BitrWalBackend.RecoverFencePosition | crates/walleye-lance/src/backend.rs:461-498 | whole new state of a fence that recovers its slot |
| WalBackend.BitrWalBackend.AppendPayload | crates/walleye-lance/src/backend.rs:416-429 | equals the append step at the cursor, in state and outcome |
| WalBackend.BitrWalBackend.AppendAtPosition | crates/walleye-lance/src/backend.rs:431-459 | equals the positioned append step, in state and outcome, refusing other shards |
| WalBackend.BitrWalBackend.Recover | crates/walleye-lance/src/backend.rs:252-271 | equals the recovery step, in state and returned entries or error |
| WalBackend.BitrWalBackend.RecoverWithWatermark | crates/walleye-lance/src/backend.rs:273-315 | equals the certified recovery step, in state and returned entries or error |
| WalBackend.BitrWalBackend.NextPosition | crates/walleye-lance/src/backend.rs:326-331 | equals the position step, in state and returned position or error |
| WalBackend.BitrWalBackend.ReadEntry | crates/walleye-lance/src/backend.rs:333-361 | equals the read step, in state and returned entry or error |
| WalBackend.BitrWalBackend.ReadAfterLoad | crates/walleye-lance/src/backend.rs:693-698 | equals the lenient read step, in state and returned entry or error |
| WalBackend.BitrWalBackend.ReadEntryForLance | crates/walleye-lance/src/backend.rs:671-699 | the whole call: the look into the cache, others' calls, and the step after the load |
| WalBackend.BitrWalBackend.Read | crates/walleye-lance/src/backend.rs:975-986 | the payload of that call, for this shard only |
| WalBackend.BitrWalBackend.NextAfterLoad | crates/walleye-lance/src/backend.rs:710-725 | equals the lenient position step, in state and returned position or error |
| WalBackend.BitrWalBackend.NextPositionForLance | crates/walleye-lance/src/backend.rs:701-726 | the whole call: the look at the cursor, others' calls, and the step after the load |
| WalBackend.BitrWalBackend.NextPositionFrom | crates/walleye-lance/src/backend.rs:989-1002 | that call from a hint, for this shard only |
| WalBackend.BitrWalBackend.PerformAll | crates/walleye-lance/src/backend.rs:231-1020 | any calls one after another are the steps one after another |
| WalBackend.BitrWalBackend.Checkpointed | crates/walleye-lance/src/backend.rs:955-966 | for this shard, covered commits leave the cache and the checkpoint never falls; another shard's changes nothing |
| Archive.VerifySegment | crates/walleye-bitr-server/src/archive.rs:553-587 | accepts exactly the segments that match their reference and run on LSN by LSN with epochs that never fall |
| Archive.FetchSegment | crates/walleye-bitr-server/src/archive.rs:407-414 | read, digest and verification, in that order |
| Archive.RecordsAbove | crates/walleye-bitr-server/src/archive.rs:428-433 | keeps the records past the watermark |
| Archive.RecoverRecords | crates/walleye-bitr-server/src/archive.rs:382-452 | the recovery loop equals its specification, errors included |
| Archive.ArchivedTailOf | crates/walleye-bitr-server/src/archive.rs:324-379 | the tail loop equals its specification, errors included |
| Archive.ValidateHeadChain | crates/walleye-bitr-server/src/archive.rs:593-634 | the reference loop equals its specification, errors included |
| Archive.ScanSegment | crates/walleye-bitr-server/src/archive.rs:279-302 | the record loop of range verification with its three ways out |
| Archive.VerifyArchivedRange | crates/walleye-bitr-server/src/archive.rs:243-321 | range verification equals its specification, errors included |
| ArchiveTheorems.SegmentOkIff | crates/walleye-bitr-server/src/archive.rs:553-587 | a segment is accepted exactly when its bounds are the reference's and it holds every LSN of them once, linked, under epochs that never fall |
| ArchiveWhole.RecoverIffWhole | crates/walleye-bitr-server/src/archive.rs:382-452 | a full recovery below the last LSN succeeds exactly when every referenced object is there, is the one published, holds its range and follows on, up to the head's watermark and epoch; then all is returned |
| ArchiveWhole.RecoverNamesFault | crates/walleye-bitr-server/src/archive.rs:382-452 | a recovery stops at the first reference that does not follow on, or that it needs and cannot take, and says which fault |
| ArchiveWhole.RecoverNamesWatermark | crates/walleye-bitr-server/src/archive.rs:435-450 | with every segment in order, only a wrong watermark or epoch of the head is refused |
| ArchiveWhole.TailOfWhole | crates/walleye-bitr-server/src/archive.rs:324-379 | the tail of a whole archive: none at its watermark, watermark and epoch below it, a refusal past it |
| ArchiveWhole.HeadChecksIff | crates/walleye-bitr-server/src/archive.rs:593-634 | the chain check passes exactly for the stream's own references, under hexadecimal digests, covering every LSN from 1 to the watermark |
| ArchiveVerify.VerifyRangeIff | crates/walleye-bitr-server/src/archive.rs:243-321 | a range verifies exactly when the head checks, every overlapping segment is intact, epochs never fall between them, and at the watermark the last epoch is the head's |
| ArchiveTheorems.RecoverIffSound | crates/walleye-bitr-server/src/archive.rs:382-452 | the whole chain is good exactly when a full recovery succeeds and no segment ends on the last 64-bit LSN; then all of it is returned |
| ArchiveTheorems.RecoverFromWatermark | crates/walleye-bitr-server/src/archive.rs:382-452 | for any stored head and watermark, recovery returns exactly the fully recovered records above it |
| ArchiveTheorems.WatermarkCountsIff | crates/walleye-bitr-server/src/archive.rs:382-452 | dropping as many records as the watermark says gives the same at every watermark, exactly when there are no more records than LSNs |
| ArchiveTheorems.TailIsLastRecord | crates/walleye-bitr-server/src/archive.rs:324-379 | `archived_tail` names the last recovered record from every watermark, exactly when that record is below the last 64-bit LSN |
| ArchiveRange.VerifiedRangeIsHeld | crates/walleye-bitr-server/src/archive.rs:243-321 | a verified range lies below the watermark and every LSN of it in a digest-checked segment, for any stored head |
| ArchiveRange.GoodHeadChecks | crates/walleye-bitr-server/src/archive.rs:593-634 | a good head passes the chain check |
| ArchiveRange.GoodHeadVerifies | crates/walleye-bitr-server/src/archive.rs:243-321 | on a good head exactly the non-empty ranges from LSN 1 to the watermark verify |
| ArchiveProtocol.DecideMeans | crates/walleye-bitr-server/src/archive.rs:154-176 | what a publisher decides after a load, in terms of the records it was given |
| ArchiveProtocol.ExtendKeeps | crates/walleye-bitr-server/src/archive.rs:177-183 | publishing a fitting batch keeps the head good and appends exactly the batch |
| ArchiveProtocol.StepKeeps | crates/walleye-bitr-server/src/archive.rs:124-204 | every request of every publisher, lost or false answers included, keeps all heads good |
| ArchiveProtocol.ExecKeeps | crates/walleye-bitr-server/src/archive.rs:124-204 | so does every interleaving of any number of publishers |
| ArchiveProtocol.PublishedHistoryComplete | crates/walleye-bitr-server/src/archive.rs:124-204 | every head ever published holds one record per LSN from 1 to its watermark, epochs never falling and ending on its own, in segments that match its digests |
| ArchiveProtocol.ArchivedRecordsNeverChange | crates/walleye-bitr-server/src/archive.rs:455-501 | what an earlier head archived is a prefix of what every later head archives |
| ArchiveProtocol.RunsGrow | crates/walleye-bitr-server/src/archive.rs:455-551 | segments and heads outlive everything later |
| ArchiveProtocol.RecoverExact | crates/walleye-bitr-server/src/archive.rs:382-452 | in every run, recovery of any loaded head at any later time succeeds with exactly the records above the watermark |
| ArchiveProtocol.RangesVerify | crates/walleye-bitr-server/src/archive.rs:232-321 | in every run, the watermark can be read and exactly the ranges up to it verify |
| ArchiveProtocol.SuccessMeansArchived | crates/walleye-bitr-server/src/archive.rs:184-191 | a publisher's success covers its last record and the archive has reached it |
| ArchiveProtocol.RepublishesOnlyAtTheEnd | crates/walleye-bitr-server/src/archive.rs:156-176 | a decision to publish repeats an archived LSN exactly when the watermark is the last 64-bit LSN |
| ArchiveProtocol.LastLsnRepublished | crates/walleye-bitr-server/src/archive.rs:156-176 | and there it does |
| ArchivePublisher.PublishKeeps | crates/walleye-bitr-server/src/archive.rs:176-191 | one complete publication moves the store on and appends exactly its batch |
| ArchivePublisher.NoCollision | crates/walleye-bitr-server/src/archive.rs:455-501 | no segment put is refused when nothing else has the digest of a stretch of the submission |
| ArchivePublisher.DigestsCanMeet | crates/walleye-bitr-server/src/archive.rs:593-634 | that condition and the hexadecimal digests range verification asks for hold together of some digests |
| ArchivePublisher.RestRemains | crates/walleye-bitr-server/src/archive.rs:156-176 | after a batch the rest of the submission is what remains, and it is not refused |
| ArchivePublisher.OpaqueArchive.CheckSubmission | crates/walleye-bitr-server/src/archive.rs:131-148 | accepts exactly one non-empty stream of consecutive linked records |
| ArchivePublisher.OpaqueArchive.PutSegmentObject | crates/walleye-bitr-server/src/archive.rs:455-501 | creates the object or accepts the same bytes |
| ArchivePublisher.OpaqueArchive.PutHead | crates/walleye-bitr-server/src/archive.rs:533-550 | writes exactly on the version it was computed from |
| ArchivePublisher.OpaqueArchive.Round | crates/walleye-bitr-server/src/archive.rs:155-203 | one turn of the loop amid rivals: covered, refused, or one measure down |
| ArchivePublisher.OpaqueArchive.ArchiveCommitted | crates/walleye-bitr-server/src/archive.rs:124-204 | always returns, on the lexicographic measure of unarchived records and attempts left, with rivals publishing before every load and before every head write; success covers the last record; undisturbed it appends exactly what was missing |
| ArchiveAlone.CallAlone | crates/walleye-bitr-server/src/archive.rs:124-204 | in every run, a new call left alone finishes, refused or with exactly its missing records appended |
| ArchiveAlone.RefuseIff | crates/walleye-bitr-server/src/archive.rs:157-174 | it is refused exactly when the record right after the watermark is missing, does not link, or is under an older epoch |
| ArchiveAlone.ContendedIff | crates/walleye-bitr-server/src/archive.rs:184-202 | in every run, a publisher reports contention exactly when it has lost eight head writes in a row |
| ArchiveAlone.SegmentsBounded | crates/walleye-bitr-server/src/archive.rs:176-177 | in every run, no stored segment holds more records than one publication may |
| Retirement.RunsEvolve | crates/walleye-bitr-server/src/archive.rs:124-204 | whatever publishers do, the archive a receipt reads only moves on |
| Retirement.RequiredPrefix | crates/walleye-bitr-server/src/online_retirement.rs:78-96 | the highest end of any range routed to the cohort, and it is one of them |
| Retirement.PrefixOf | crates/walleye-bitr-server/src/online_retirement.rs:80-95 | refuses exactly an open range or one off the cohort's members |
| Retirement.RequiredArchivePrefixes | crates/walleye-bitr-server/src/online_retirement.rs:34-98 | succeeds exactly when the head retires the cohort with a complete successor and all its ranges sealed, and names each stream's highest end |
| Retirement.RangeVerifiesIff | crates/walleye-bitr-server/src/archive.rs:243-321 | a range verifies exactly when it is archived |
| Retirement.VerifySourceArchiveRanges | crates/walleye-bitr-server/src/online_retirement.rs:102-122 | success means every range of the cohort is archived at the end, and is certain when all were at the start |
| Retirement.ArchivedLsn | crates/walleye-bitr-server/src/archive.rs:232-236 | the checked watermark |
| Retirement.ProveWatermarks | crates/walleye-bitr-server/src/online_retirement.rs:202-216 | one proof per required stream, at or above its requirement |
| Retirement.VerifiedRetirementReceipt | crates/walleye-bitr-server/src/online_retirement.rs:183-240 | a receipt only for a retirable head with every range archived, and always when that held from the start; it binds that head and those watermarks |
| Retirement.RetiredRecordsStayRecoverable | crates/walleye-bitr-server/src/online_retirement.rs:183-240 | at every later time each LSN ever routed to the cohort is recovered as the same record from a digest-checked segment |
| Retirement.HistoryKept | crates/walleye-bitr-server/src/archive.rs:382-452 | a stream's history only grows and recovery returns all of it |
| PlacementTheorems.EnterKeeps | crates/walleye-bitr-server/src/placement.rs:307-329 | an admission is granted only at the gate's own placement, and counts stay exact |
| PlacementTheorems.ClaimKeeps | crates/walleye-bitr-server/src/placement.rs:345-382 | a fence owns its stream alone, or returns success only for the placement already there |
| PlacementTheorems.PublishKeeps | crates/walleye-bitr-server/src/placement.rs:383-447 | a fence raises its gate and the durable routes together, once no lease is left |
| PlacementTheorems.StepKeeps | crates/walleye-bitr-server/src/placement.rs:211-447 | every step, process exits and power losses included, keeps leases, gates, sidecar and unsynced renames in agreement |
| PlacementTheorems.ExecKeeps | crates/walleye-bitr-server/src/placement.rs:211-447 | so does every interleaving |
| PlacementRuns.LiveLeasesAreCurrent | crates/walleye-bitr-server/src/placement.rs:307-329 | every live lease carries its stream's current placement, the one its process relies on, and is counted |
| PlacementRuns.OneDigestPerEpoch | crates/walleye-bitr-server/src/placement.rs:559-578 | while no power loss takes back a rename opened over, admissions of a stream never fall in epoch and no epoch is admitted under two digests |
| PlacementRuns.InstalledFenceSurvives | crates/walleye-bitr-server/src/placement.rs:336-447 | in the same runs, a fence that returned success bounds the sidecar and every live lease from below for ever |
| PlacementRuns.SettledNeverFalls | crates/walleye-bitr-server/src/placement.rs:626-665 | what is durable of a stream only rises, whatever power losses take |
| PlacementRuns.KeptIffSettled | crates/walleye-bitr-server/src/placement.rs:626-665 | a placement outlives every continuation exactly when it is already durable |
| PlacementRuns.SyncedFenceKept | crates/walleye-bitr-server/src/placement.rs:383-447 | a fence whose own directory sync succeeded is kept in every run from there |
| PlacementRuns.FollowedIffSettled | crates/walleye-bitr-server/src/placement.rs:307-329 | no later admission falls behind or contradicts an admitted placement, in any continuation, exactly when that placement is durable |
| PlacementRuns.FallsIffTakenBack | crates/walleye-bitr-server/src/placement.rs:211-236 | one step lowers a placement processes rely on exactly when it is a power loss that takes back an opened one |
| PlacementRuns.EpochsFallIff | crates/walleye-bitr-server/src/placement.rs:211-236 | placements never fall along a run exactly when no power loss takes back a placement some process opened with |
| PlacementRuns.OpenedRenameTakenBack | crates/walleye-bitr-server/src/placement.rs:626-665 | a concrete run that loses an answered fence and admits one epoch under two digests |
| PlacementRuns.FailClosedRefuses | crates/walleye-bitr-server/src/placement.rs:509-516 | after failing closed a process never writes the sidecar again and grants only calls that had already passed the health check |
| PlacementRuns.WaitingAdmissionIgnoresClosure | crates/walleye-bitr-server/src/placement.rs:312-322 | such a waiting call is granted exactly when its gate is free and matches |
| PlacementAnswers.TransitionIff | crates/walleye-bitr-server/src/placement.rs:345-447 | in every run, a stream is in transition exactly while some fence has claimed it |
| PlacementAnswers.AdmissionAnswered | crates/walleye-bitr-server/src/placement.rs:307-329 | in every run, an admission at its gate waits exactly while a fence of its own stream writes; otherwise it is refused while one drains, and else granted exactly at the current placement, an older, newer or other one told apart |
| PlacementAnswers.FenceAnswered | crates/walleye-bitr-server/src/placement.rs:336-382 | in every run, a fence at its gate waits exactly while another of its stream is under way, unless woken after a failure; otherwise it claims the transition exactly when it raises the epoch |
| PlacementAnswers.OpensIff | crates/walleye-bitr-server/src/placement.rs:222-300 | in every run without a process, exactly when each way of opening starts one, and on which routes |
| PlacementStore.PublishStepsRun | crates/walleye-bitr-server/src/placement.rs:383-447 | the steps of one publication, run one after another, leave the system as one undisturbed publication does |
| PlacementStore.Store.GateOf | crates/walleye-bitr-server/src/placement.rs:484-507 | finds the gate or creates it from the persisted route |
| PlacementStore.Store.AdmitBegin | crates/walleye-bitr-server/src/placement.rs:307-315 | is the admission's first step of the whole system |
| PlacementStore.Store.AdmitEnd | crates/walleye-bitr-server/src/placement.rs:315-329 | is the admission's gate step of the whole system |
| PlacementStore.Store.Release | crates/walleye-bitr-server/src/placement.rs:538-550 | is the release step of the whole system |
| PlacementStore.Store.FenceBegin | crates/walleye-bitr-server/src/placement.rs:336-347 | is the fence's first step of the whole system |
| PlacementStore.Store.FenceEnter | crates/walleye-bitr-server/src/placement.rs:345-382 | is the step that claims the transition, or the return when the placement is already there |
| PlacementStore.Store.FenceFail | crates/walleye-bitr-server/src/placement.rs:393-412 | equals the early exits of a publication |
| PlacementStore.Store.FencePublish | crates/walleye-bitr-server/src/placement.rs:383-447 | is the run of the system's publication steps, for each way the sidecar write can end |
| Calendar.YearOfEraExact | crates/walleye-node/src/cron.rs:167-173 | the closed-form year of the era contains the day |
| Calendar.NextIsOneDayOn | crates/walleye-node/src/cron.rs:166-177 | the Gregorian successor has the next day number |
| Calendar.CivilIsExact | crates/walleye-node/src/cron.rs:166-177 | every day number gives a real date whose day number it is |
| Calendar.DayNumbersDiffer | crates/walleye-node/src/cron.rs:166-177 | different dates have different day numbers |
| Calendar.CivilSteps | crates/walleye-node/src/cron.rs:166-177 | day zero is 1 January 1970 and every next day number is the Gregorian successor |
| Calendar.CivilIsCounting | crates/walleye-node/src/cron.rs:166-177 | the closed form equals counting days forward from any day |
| Cron.MarkPiece | crates/walleye-node/src/cron.rs:60-64 | marks exactly the values the piece selects and no other |
| Cron.ParseField | crates/walleye-node/src/cron.rs:31-71 | accepts exactly when every piece is readable, and then allows exactly the values some piece selects |
| Cron.ParseValidField | crates/walleye-node/src/cron.rs:31-71 | a parsed field allows something, and everything when it is a lone star |
| Cron.ParseSchedule | crates/walleye-node/src/cron.rs:87-102 | accepts exactly five readable fields, each read as its own text |
| Cron.NextAfter | crates/walleye-node/src/cron.rs:126-136 | the first named minute of the window, and nothing exactly when the window names none |
| CronNames.NamesIff | crates/walleye-node/src/cron.rs:105-118 | a schedule names a second of a real date exactly when minute, hour and month are allowed and the day rule takes it: either day field when both are restricted, else both; the weekday counted from Thursday 1 January 1970 |
| CronNames.EverySecond | crates/walleye-node/src/cron.rs:149-163 | every second is one of the calendar |
| CronNames.WeekdayCounts | crates/walleye-node/src/cron.rs:149-163 | the weekday of the code is the one counted day by day |
| CronNames.ThirteenthComesFirst | crates/walleye-node/src/cron.rs:105-136 | `0 0 13 * 5` after 9 January 1970 next fires on Tuesday the 13th |
| CronTheorems.ReachesProgression | crates/walleye-node/src/cron.rs:60-64 | a step selects exactly the arithmetic progression from its start |
| CronTheorems.StartIsNextMinute | crates/walleye-node/src/cron.rs:127-127 | the search starts at the next minute, unless the input is negative and off the minute |
| CronTheorems.FoundIsLeast | crates/walleye-node/src/cron.rs:126-136 | the result is the least named minute strictly after the input, exactly unless truncation skipped a named minute |
| CronTheorems.NamesWholeMinutes | crates/walleye-node/src/cron.rs:149-163 | a schedule names whole minutes |
| CronTheorems.EmptyWindowMeansNever | crates/walleye-node/src/cron.rs:122-136 | for every other schedule, an empty window means no minute is ever named |
| CronTheorems.LeapDayMissed | crates/walleye-node/src/cron.rs:126-136 | a leap-day schedule finds nothing after 1 March 2096 |
| CronTheorems.LeapDayNamed | crates/walleye-node/src/cron.rs:105-118 | although it names a minute of 29 February 2104 |
| CronTheorems.WindowCoversAllButLeapDays | crates/walleye-node/src/cron.rs:122-136 | finding nothing means never, exactly for the schedules that do not only match a 29 February |
| CronWeekday.SundayNumber | crates/walleye-node/src/cron.rs:100-100 | replacing sevens leaves a numeral's value or lowers it by at least seven; 7 becomes 0 and smaller values stay |
| CronWeekday.ReadsReplacedText | crates/walleye-node/src/cron.rs:87-102 | the code reads a weekday piece as the documentation would read it with its sevens replaced |
| CronWeekday.RefusedIff | crates/walleye-node/src/cron.rs:100-100 | a documented piece is refused exactly when it runs from another day than Sunday to 7 or its step reads as zero |
| CronWeekday.SameDaysIff | crates/walleye-node/src/cron.rs:100-100 | by the numbers, the two readings name the same days exactly when nothing changed or both name one day |
| CronWeekday.ReadAsDocumentedIff | crates/walleye-node/src/cron.rs:1-6 | for every text, exactly when the code names the days the documentation does and refuses what it refuses |
| CronField.DocumentedByNumbers | crates/walleye-node/src/cron.rs:31-71 | the documented reading of a piece, in the numbers written |
| CronField.CodeByNumbers | crates/walleye-node/src/cron.rs:100-100 | the code's reading, in the same numbers with their sevens replaced |
| CronField.PieceReadIff | crates/walleye-node/src/cron.rs:1-6 | by the numbers, exactly when a piece is read as documented |
| CronField.AcceptedAnywayIff | crates/walleye-node/src/cron.rs:100-100 | exactly which pieces are accepted although a value is above 7, a span descends or the step is too large |
| CronField.FieldReadIff | crates/walleye-node/src/cron.rs:87-102 | for every weekday field, exactly when the whole of it is read as documented: both take it, and the progressions of its pieces reach the same days before and after folding |
| CronField.PiecesMakeField | crates/walleye-node/src/cron.rs:87-102 | a field whose pieces are all read as documented is |
| CronField.MixedFieldAgrees | crates/walleye-node/src/cron.rs:100-100 | `0-7,1-6` is, although `0-7` is not |
| CronField.ParsedFieldByNumbers | crates/walleye-node/src/cron.rs:72-77 | a day matches the parsed field exactly when some piece's folded progression reaches it |
| CronWeekday.SevenFreeAgrees | crates/walleye-node/src/cron.rs:100-100 | a text without a seven is read as documented |
| CronWeekday.LoneSevenAgrees | crates/walleye-node/src/cron.rs:100-100 | so is a lone 7 |
| CronWeekday.WholeWeekToSeven | crates/walleye-node/src/cron.rs:100-100 | `0-7` is read as Sunday only |
| CronWeekday.RangeToSevenRefused | crates/walleye-node/src/cron.rs:100-100 | `1-7` to `6-7` are refused |
| CronWeekday.StepSevenRefused | crates/walleye-node/src/cron.rs:100-100 | `*/7` is refused for a zero step |
| CronWeekday.SeventyAccepted | crates/walleye-node/src/cron.rs:100-100 | `70` is accepted as Sunday |
| Alarms.CatchUpTo | crates/walleye-node/src/alarms.rs:62-82 | the walking loop equals its specification |
| Alarms.Record.BeginAt | crates/walleye-node/src/alarms.rs:157-184 | equals the begin step |
| Alarms.Record.CompleteWith | crates/walleye-node/src/alarms.rs:195-239 | equals the completion step |
| AlarmFailures.BeginsWhenDue | crates/walleye-node/src/alarms.rs:157-184 | in every run, a begin fires exactly when due, as the next attempt at the same occurrences or a first one, and sets the retry by the backoff |
| AlarmFailures.BackoffTable | crates/walleye-node/src/alarms.rs:138-140 | the backoff: two seconds, doubling, 128 from the seventh attempt on |
| AlarmFailures.FailureKeepsIff | crates/walleye-node/src/alarms.rs:209-239 | in every run, a failure of the last firing changes nothing, retry included, exactly when fewer than the most attempts were made and the next occurrence is later than the retry |
| AlarmFailures.FailureHandsOver | crates/walleye-node/src/alarms.rs:209-239 | otherwise the alarm is due at the next occurrence, not before, and then tries afresh from the same occurrence |
| AlarmFailures.SuccessMovesOn | crates/walleye-node/src/alarms.rs:195-239 | a success is taken with what it covered, and the alarm moves to the next occurrence or is gone |
| AlarmRuns.NextIsLater | crates/walleye-node/src/alarms.rs:45-56 | the next occurrence is strictly later |
| AlarmRuns.CatchUpLands | crates/walleye-node/src/alarms.rs:62-82 | catching up lands on the occurrence it counted to, the last at or before now unless out of steps |
| AlarmRuns.CatchUpReaches | crates/walleye-node/src/alarms.rs:62-82 | and passes every occurrence at or before now it has steps for |
| AlarmRuns.JumpIsWalk | crates/walleye-node/src/alarms.rs:67-71 | the division for a fixed period equals the walk |
| AlarmRuns.ExecKeeps | crates/walleye-node/src/alarms.rs:157-239 | every run of begins and reports, late or missing, keeps the alarm on the interval it owes |
| AlarmRuns.SuccessesPartitionOccurrences | crates/walleye-node/src/alarms.rs:157-239 | successes cut the occurrences into consecutive intervals from the first, and `missed` counts each exactly |
| AlarmRepeats.FiringsIncreaseIff | crates/walleye-node/src/alarms.rs:157-184 | over every run, firings strictly increase in occurrence and attempt exactly when no begin starts over on a truncated occurrence that was given up |
| AlarmRepeats.LateReportsIff | crates/walleye-node/src/alarms.rs:195-202 | over every run, reports of all firings but the last change nothing at every point, exactly under the same condition |
| AlarmRepeats.PeriodsNeverRepeat | crates/walleye-node/src/alarms.rs:62-71 | which every run of a fixed period meets |
| AlarmRepeats.TruncatedFiringRepeats | crates/walleye-node/src/alarms.rs:157-239 | a concrete run of an every-minute schedule with two equal firings, the first one's late success settling the second |
| AlarmRuns.HandedOverFiringMovesOn | crates/walleye-node/src/alarms.rs:221-239 | after a give-up the next firing is later exactly when the walk had steps left |
| AlarmOnce.OnceRuns | crates/walleye-node/src/alarms.rs:157-239 | over every run a one-shot alarm fires for its one occurrence, attempts counted one by one, and succeeds at most once, which ends it |
| AlarmOnce.OnceSettlesIff | crates/walleye-node/src/alarms.rs:195-239 | a report ends it exactly when it is the last firing's and tells of success or the last attempt; others change nothing |
| Authority.GroupResponses | crates/walleye-bitr-server/src/authority.rs:385-403 | the grouping loop: every source with exactly its supporters, refused exactly on a bad or repeated response |
| Authority.CountWinners | crates/walleye-bitr-server/src/authority.rs:405-420 | whether none, one or several groups reach the quorum |
| Authority.CertifySourceQuorum | crates/walleye-bitr-server/src/authority.rs:372-425 | certifies exactly when one source alone wins a quorum and its certificate is valid |
| AuthoritySource.CandidateIff | crates/walleye-bitr-server/src/authority.rs:481-601 | a response certifies a source exactly when its registers tell of it, entry by entry, and it is a valid head |
| AuthoritySource.CertificateIff | crates/walleye-bitr-server/src/authority.rs:77-147 | a certificate is valid exactly when so many of the three members of an active or draining control cohort agree on a valid source |
| AuthoritySource.CertifiableIff | crates/walleye-bitr-server/src/authority.rs:372-425 | a source is certified exactly when every response tells of some source, no member twice of one, this source alone is told by a quorum, and its control cohort is in service |
| AuthoritySource.CertifiedMeans | crates/walleye-bitr-server/src/authority.rs:372-425 | what is certified was told, in full, by exactly its supporters, a quorum of the three control members |
| AuthoritySource.UnanimousCertifies | crates/walleye-bitr-server/src/authority.rs:372-425 | members that all tell of one source certify it, if they are a quorum |
| AuthorityFreeze.CollectAcks | crates/walleye-bitr-server/src/authority.rs:446-462 | accepts exactly acknowledgements that all count, one per member |
| AuthorityFreeze.CertifyFrozenSource | crates/walleye-bitr-server/src/authority.rs:429-479 | certifies exactly a quorum of counting acknowledgements of this freeze |
| AuthorityFreeze.ChooseFreeze | crates/walleye-bitr-server/src/metadata_authority.rs:315-361 | resumes the one durable freeze of the source, refuses two, requests one otherwise |
| AuthorityFreeze.FreezesStay | crates/walleye-bitr-server/src/metadata_authority.rs:134-174 | a durable freeze is never cleared or replaced |
| AuthorityMembers.FrozenIff | crates/walleye-bitr-server/src/authority.rs:429-479 | a freeze is certified exactly when it is of a validly certified source and at least a quorum of different listed members, and nobody else, acknowledge exactly it |
| AuthorityMembers.FreezeAnsweredIff | crates/walleye-bitr-server/src/metadata_authority.rs:63-174 | a member acknowledges a freeze exactly when it names the member's own state, one generation on, and the member holds no other; it then holds it for good |
| AuthorityMembers.AdoptsIff | crates/walleye-bitr-server/src/metadata_authority.rs:179-187 | a member takes a head exactly when it is not behind its own and, when frozen, at or past the target and from the frozen source |
| AuthorityMembers.FrozenMetadataKept | crates/walleye-bitr-server/src/metadata_authority.rs:127-187 | in every run, a member that froze or has a head keeps its metadata until it adopts a head |
| AuthorityMembers.HeadsNeverFall | crates/walleye-bitr-server/src/metadata_authority.rs:179-187 | in every run, no member's epoch and revision go back |
| AuthorityMembers.NextHeadRefused | crates/walleye-bitr-server/src/authority.rs:205-242 | the next head is refused when the certified source is not the current head, or at the last epoch or revision |
| AuthorityFreeze.StepKeeps | crates/walleye-bitr-server/src/metadata_authority.rs:85-191 | every acknowledgement and every certificate stays backed by the freezes members hold |
| AuthorityFreeze.ExecKeeps | crates/walleye-bitr-server/src/metadata_authority.rs:85-191 | over every run |
| AuthorityFreeze.CertifiedFreezesAgree | crates/walleye-bitr-server/src/authority.rs:178-198 | with a majority quorum, two certified freezes of one cohort are the same and, unless the digests of their metadata collide, build the identical first head |
| AuthorityFreeze.FirstHeadIsEveryones | crates/walleye-bitr-server/src/metadata_authority.rs:387-409 | the head that won is the one every certified migration would have published |
| AuthorityHead.FirstHeadIs | crates/walleye-bitr-server/src/authority.rs:178-198 | in every run, the first head is at the target epoch, one past the source's, with the source's revision and metadata, its marker, and no receipt but its own |
| AuthorityHead.PublishBuildsIff | crates/walleye-bitr-server/src/authority.rs:178-198 | in every run, a certified migration publishes while there is no head exactly when its operation id fits |
| AuthorityHead.BuiltIff | crates/walleye-bitr-server/src/authority.rs:190-196 | a valid frozen source gives a valid head exactly when the operation id is usable |
| AuthorityHead.FrozenMemberAdopts | crates/walleye-bitr-server/src/metadata_authority.rs:179-187 | a member that froze for it and is still at the source's epoch adopts that head |
| AuthorityHead.FrozenMemberRefuses | crates/walleye-bitr-server/src/metadata_authority.rs:179-187 | a member that froze for a later generation or another source refuses it |
| AuthorityFreeze.SmallQuorumSplits | crates/walleye-bitr-server/src/authority.rs:429-479 | with any smaller quorum there is a run from fresh members in which two different freezes of one source both certify |
| AuthorityFreeze.NextHeadNamesCurrent | crates/walleye-bitr-server/src/authority.rs:205-242 | the next generation's head follows the current one by one and names it |
| BlockCache.BlockIsSlice | crates/walleye-cache/src/lance_object_store.rs:88-103 | a cached block equals that slice of any object its key identifies |
| BlockCache.FillIsGood | crates/walleye-cache/src/lance_object_store.rs:229-262 | a response that passes every check is the version's bytes |
| BlockCache.BlockBounds | crates/walleye-cache/src/lance_object_store.rs:325-327 | the block numbers cover the range from its first byte to its last |
| BlockCache.CoveredGrows | crates/walleye-cache/src/lance_object_store.rs:340-354 | what is cut from a block is its share of the request, and it extends what has been read |
| BlockCache.RememberedIsCurrent | crates/walleye-cache/src/lance_object_store.rs:146-154 | while immutable names are written once, a remembered version is what the origin would answer |
| BlockCache.CachedObjectStore.Version | crates/walleye-cache/src/lance_object_store.rs:165-219 | the version a read is bound to: the remembered one, else the origin's, which is then remembered; refused exactly when it fails the preconditions; a query never loses one |
| BlockCache.CachedObjectStore.Block | crates/walleye-cache/src/lance_object_store.rs:223-269 | a returned block is good, and one is returned whenever the origin still serves the version whole |
| BlockCache.CachedObjectStore.ReadBlocks | crates/walleye-cache/src/lance_object_store.rs:322-356 | with up to four blocks on their way and coming in any order, the parts delivered are the requested bytes, for any geometry and any interference before each block |
| BlockCache.CachedObjectStore.GetOpts | crates/walleye-cache/src/lance_object_store.rs:301-364 | a successful read is exactly the requested bytes of one version that meets the preconditions; within a query a path keeps its version; where nothing remembered can be stale it is the origin's, and undisturbed it fails only on a missing object, failed preconditions or a bad range; without a validator nothing is cached |
| Codec.EncodeBinary | crates/walleye-bitr/src/lib.rs:161-208 | the pushed bytes are the layout, refused exactly on out-of-bound lengths |
| Codec.DecodeBinary | crates/walleye-bitr/src/lib.rs:211-265 | the cursor reading equals the decoder |
| Codec.DecodeUndoesEncode | crates/walleye-bitr/src/lib.rs:161-265 | decoding undoes encoding |
| Codec.EncodeUndoesDecode | crates/walleye-bitr/src/lib.rs:161-265 | accepted bytes are exactly what their record encodes to |
| Utf8.ValidUtf8Iff | crates/walleye-bitr/src/lib.rs:225-231 | the stream names accepted are exactly the UTF-8 forms, per section 3 of RFC 3629, of sequences of Unicode scalar values |
| Codec.EncodeBinaryBatch | crates/walleye-bitr/src/lib.rs:270-314 | the two loops equal the batch encoding |
| Codec.DecodeBinaryBatch | crates/walleye-bitr/src/lib.rs:317-351 | the frame loop equals the batch decoder |
| Codec.DecodeBatchUndoesEncode | crates/walleye-bitr/src/lib.rs:270-351 | decoding a batch undoes encoding it |
| Codec.EncodeBatchUndoesDecode | crates/walleye-bitr/src/lib.rs:270-351 | accepted batch bytes are exactly what their records encode to |
| Codec.PredictLength | crates/walleye-bitr/src/lib.rs:737-754 | the length loop of the client |
| Codec.PredictionIsExact | crates/walleye-bitr/src/lib.rs:737-759 | the client's size checks pass exactly when the codec encodes, and its predicted length is the encoded length |
| MemoryGovernor.TrimFits | crates/walleye-cache/src/query_resources.rs:251-273 | trimming fits the cache into what is available, exactly unless the backend refuses a needed resize |
| MemoryGovernor.TrimOutcome | crates/walleye-cache/src/query_resources.rs:251-273 | what making memory available leaves, in every case: the most whole quanta that fit, or nothing where values held by readers exceed what is available, and exactly when it fails |
| MemoryGovernor.CounterExact | crates/walleye-cache/src/query_resources.rs:133-170 | over every run the counter is exactly the leases between count and drop, and with none half way all that is reserved is it and the queries |
| MemoryGovernor.ReturnIff | crates/walleye-cache/src/query_resources.rs:278-296 | from within the budget, returning memory leaves it exactly when it resizes while the working floor does not fit |
| MemoryGovernor.ReturnFitsIff | crates/walleye-cache/src/query_resources.rs:278-296 | a return that resizes ends within the budget exactly when the working floor fits |
| MemoryGovernor.StepKeepsIff | crates/walleye-cache/src/query_resources.rs:133-354 | every step of queries, reservations and drops keeps the counter exact, and the cache within the budget exactly when it is not one of two overshooting steps |
| MemoryGovernor.CapacityWithinBudgetIff | crates/walleye-cache/src/query_resources.rs:133-354 | over every run, with check, count and growth of a lease as separate steps, the cache is always within the budget exactly when no step overshoots |
| MemoryGovernor.OrderlyRunsKeepBudget | crates/walleye-cache/src/query_resources.rs:133-152 | when the check still holds at every count and infallible grows can trim, leases never reach into the working floor and the budget is kept |
| MemoryGovernor.GrowNeedsResize | crates/walleye-cache/src/query_resources.rs:321-332 | an infallible grow keeps within the budget exactly when the backend resizes or need not |
| MemoryGovernor.RacingLeasesOvershoot | crates/walleye-cache/src/query_resources.rs:133-152 | a concrete run: two leases check before either counts, and a returning query takes the cache over the budget |
| MemoryGovernor.QueryResources.MakeMemoryAvailable | crates/walleye-cache/src/query_resources.rs:251-273 | equals the trimming step |
| MemoryGovernor.QueryResources.Return | crates/walleye-cache/src/query_resources.rs:278-296 | equals the returning step |
| MemoryGovernor.QueryResources.Grow | crates/walleye-cache/src/query_resources.rs:321-332 | equals the grow step |
| MemoryGovernor.QueryResources.TryGrow | crates/walleye-cache/src/query_resources.rs:343-354 | equals the try-grow step; success is within the budget, failure charges nothing |
| MemoryGovernor.QueryResources.Shrink | crates/walleye-cache/src/query_resources.rs:334-341 | equals the shrink step |
| MemoryGovernor.QueryResources.Admit | crates/walleye-cache/src/query_resources.rs:137-148 | equals the check step |
| MemoryGovernor.QueryResources.Count | crates/walleye-cache/src/query_resources.rs:151-152 | equals the count step |
| MemoryGovernor.QueryResources.GrowCounted | crates/walleye-cache/src/query_resources.rs:153-153 | equals the growth step: granted, or refused and still counted |
| MemoryGovernor.QueryResources.Uncount | crates/walleye-cache/src/query_resources.rs:153-155 | equals taking the count back |
| MemoryGovernor.QueryResources.ReserveMemory | crates/walleye-cache/src/query_resources.rs:133-170 | undisturbed, grants and counts the lease within the budget, or leaves nothing but a smaller cache |
| MemoryGovernor.QueryResources.LeaveCounter | crates/walleye-cache/src/query_resources.rs:63-71 | equals the first half of dropping a lease |
| MemoryGovernor.QueryResources.LeavePool | crates/walleye-cache/src/query_resources.rs:334-341 | equals the second half of dropping a lease |

## Left out

- AuthorityFreeze.CertifiedFreezesAgree: speaks of certificates of one control cohort; it does not show that two migrations could not certify different cohorts.
- AuthorityFreeze.StepKeeps: leaves a frozen member's metadata free, because the exact-repair path of the node may still rewrite it.
- Retirement.VerifiedRetirementReceipt: keeps the watermarks of the proof instead of their SHA-256, and leaves out the flags that are always true.
- PlacementRuns.OneDigestPerEpoch: holds while no power loss takes back a rename a process opened over; `PlacementRuns.FollowedIffSettled` and `EpochsFallIff` give the exact conditions and `OpenedRenameTakenBack` the run outside them.
- PlacementRuns.InstalledFenceSurvives: the same; `PlacementRuns.KeptIffSettled` is the exact form.
- Cron.ParseField: arithmetic overflow of a step is an error, as in a build with overflow checks; a release build would wrap around.
- Alarms.CatchUpTo: milliseconds are unbounded, so the multiplications by 1000 never overflow.
- Archive.FetchSegment: every stored object decodes; the JSON errors of malformed objects are not modelled.
- Archive.RecoverRecords: takes one load of the head and the objects as they are, which is enough because objects never change.
- ControlHead.CarryForward: maps are iterated in no particular order, so only whether an entry conflicts is modelled, not which is reported first.
- Poisoned mutexes and panics, in every component.
- Object-store, HTTP, filesystem and process plumbing beyond the assumptions above.
- `archive_source_finite_ranges` and recovery of the hot tail from members.
- The member-side validation of adopted heads, the gateway and the disk log.
- `MemoryReplica`, `decrypt_recovery` and encryption itself.
- Disk budget and spill files of the query resources.
- Liveness under contention and wall-clock timing.
- Lance, DataFusion and Foyer internals; routing rings, access control and identity.
