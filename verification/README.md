# aplexer, verified

A Dafny model of the parts of aplexer whose promises are hardest to settle by
testing, with proofs of those promises. Check it with
`dafny verify dfyconfig.toml`.

| files | part of aplexer |
|---|---|
| `HistoryDisk`, `HistoryAnchor`, `HistoryStages`, `HistoryTrace`, `HistoryV2`, `HistoryRaw`, `HistoryStore`, `HistoryTheorems` | the durable history store: ring, two banks, two commit slots, marker, raw view, recovery |
| `Fence` | a starting worker against `forget_session`, over a lock file inside the directory being deleted |
| `DeliveryTarget`, `Delivery` | acknowledged delivery against a target that may show anything |
| `RolloutDisk`, `Rollout`, `RolloutRun` | the rollout transaction: journal, hard links, renames, rollback |
| `Assembler`, `LineCut`, `Reader`, `Transcript`, `Paging` | the transcript reader: reassembly of JSON records, incremental reading, pages, live tail |
| `Pids`, `Ownership`, `Usage`, `ProcessGraph`, `ProcessTree`, `Detect` | walks over process tables that may hold cycles |
| `Calendar`, `Decimal`, `Timestamp` | Gregorian day numbers and RFC 3339 timestamps |
| `TokenRules` | the command-token scanner and the regex it stands for |
| `RcLines`, `PromptBlock` | the managed block of a shell rc file |
| `Basics`, `Text`, `Traces` | options, results, sequence and string helpers; runs as sequences of single steps |

How the models are set up:

- The history store is a class whose methods change its fields. The disk underneath is a
  value: each file has a current version and the older versions a crash may bring back, and
  each bank also says how much of it is synced. Every file operation may fail, unless the
  machine is said to be steady. A ghost `trail` is the run so far: it begins at the empty
  store, and each state follows from the one before by one disk operation, by growth of the
  stream, by an acknowledgement that never goes back, by the start of an attempt or by taking
  a store id, so that nothing inside an operation can be missing from it and nothing that was
  acknowledged can be taken back. The machine may stop at any of these states. Recovery is modelled
  twice, as a specification (`Recover`) and as the source's chunked reading loop
  (`RecoverV2`). The checksum is injective: a digest determines the bytes it was taken of.
- The fence is a transition system; a run is any sequence of steps of any of the processes,
  crashes included.
- The delivery target answers every capture arbitrarily and may take any time for it. Its
  log records captures and keystrokes; the guarantees are statements about that log. The
  time bound holds for targets that answer instantly and sleep as long as asked.
- In the rollout outsiders may change any file between any two operations, also between the
  last check of a target and the rename over it. What they do is given with the world, as a
  script of any disks, so that nothing the run does itself can pass for theirs; every
  operation may fail, within a budget of failures that is given too, and the process may stop
  anywhere. A run is again a sequence of single steps: an interference, a journal write, a new
  file under a backup's or stage's name, a look at a target, a rename over a target that was
  looked at, the decision to give up. Names that outsiders touched are accounted for, and
  promises about a target hold while its own names are untouched.
- Decoding bytes, parsing JSON and translating records to events are parameters of the
  reader, as are classification in detection and the text of the managed block.
- Bytes are written as the characters they stand for.

## What turned out not to hold

Each of these is kept as the source has it, shown by a concrete case, and delimited.

- A first commit that fails is retried under a new store id. From then on the store is
  recoverable after the bank is rewritten exactly when no earlier attempt left a commit or a
  marker (`FirstRewriteRecoverable`). Whatever was observed, a first publication that failed
  at its marker is readable, and its retry makes it unreadable (`RetriedFirstCommitCanBeLost`).
  With a marker left over every later flush fails (`HistoryStore.History.Flush`) and, once a
  commit disagrees with it, readers fail too (`WedgedIsUnreadable`). Crash safety therefore
  excludes that retry, and only that: without one it holds at every point of a run
  (`PromisedUnlessRetried`), and during every flush that finds an acknowledged commit or an
  untouched store.
- The fence protects a record with one worker, and only then (`SafeExactlyWithOneWorker`).
  With two workers on one record a forgetter that reads a dead pid takes no fence
  (`SecondWorkerDefeatsFence`, `TwoWorkersDefeatTheFence`). The failure does not last: the
  control loop of a serving worker looks for its record (`src/worker/control_socket.rs:228`)
  and stops without it (`ForgottenWorkerStops`).
- The rollout checks a target's identity and renames over it in two calls, when it installs and
  when it rolls back. Over every run, a target's name changes its meaning only by outsiders or by
  a rename that follows a look which saw the original, or this run's own install, with only
  outsiders in between; it replaces another file only if one of them put it there after the look
  (`ForeignReplacedOnlyInWindow`). The file is destroyed if and only if it has no other name
  (`RestoreInWindow`), and an outsider can lose one that way from every state in which the check
  passes (`OpenWindowLosesForeignFile`).
- On a target that answers instantly and stays silent, the working phase of `deliver` ends at
  some poll if and only if `poll_ms` is at least 1, or its three seconds of grace were over
  before it began, it may send again, and some poll shows the pre-send screen
  (`WorkingPhaseEnds`). On a clock that runs by itself the phase ends at its deadline also
  with `poll_ms` 0. `Deliver` requires `poll_ms` to be at least 1.
- `owner_of` names an owner if and only if the walk meets a root or a remembered owner within 64
  links and before a remembered absence (`OwnerOf`). From an empty memo that is the nearest root
  within 64 links; but a walk that is cut off remembers an absence for everything it passed, so a
  deep process can hide one that is 7 links from its root (`DeepProcessHidesNearOne`). Every
  visiting order counts every owned process if and only if none is deeper than 64 links
  (`EveryOrderCountsAllIffShallow`).
- The comment at `src/agent_kind/rules.rs:46` says that no string matches two rules.
  `claude codex` does (`TwoAgentsInOneText`). Two rules never share a word
  (`RulesShareNoWord`), so text without delimiters names one agent (`OneWordOneAgent`), and a
  text is named by two rules if and only if it has separate words of both (`TwoRulesExactly`).
- `remove_block` collapses blank lines everywhere, not only where the block was, and drops the
  carriage returns of CR LF endings: it keeps the bytes outside the markers, up to a final
  newline, if and only if there is no block, or the lines outside it are neat and none of them
  ends in CR LF (`RemoveKeepsBytesExactly`, `RemoveCollapsesUserBlanks`). Lines are neat when no
  blank one comes first, last or after another, and the last has no trailing whitespace.
- `install_block` keeps the bytes outside the markers, up to a final newline, if and only if the
  block was current already or no line outside it ends in CR LF (`InstallKeepsBytesExactly`,
  `CrLfIsLost`).
- Timestamps accept days 29 to 31 in every month. The date that was written is the one its day
  number names if and only if it is valid; otherwise that is a day of the next month
  (`ParsedDateIsNamed`): 31 February 2025 is read as 3 March (`OverlongFebruary`).

## Model

| member | source | states |
|---|---|---|
| `HistoryDisk.RecoverCandidate` | src/history/recovery.rs:69-144 | reading a bank in chunks of any size succeeds exactly when length, header and checksum of the committed prefix validate, and returns exactly its last bytes within the limit |
| `HistoryDisk.RecoverV2` | src/history/recovery.rs:146-206 | the search over both slots equals the specification: the usable commit of the highest generation, and the same errors |
| `HistoryTheorems.RecoverTakesNewest` | src/history/recovery.rs:146-206 | whenever recovery succeeds no usable commit has a higher generation than the answer, whose tail is that commit's |
| `HistoryTheorems.RecoveredIsSound` | src/history/recovery.rs:69-206 | whatever the image, a recovered commit is one of its two, within all its bounds, of the marked store, its bank was written for it and begins with exactly its bytes, and the tail is the last of them |
| `HistoryTheorems.CorruptionFailsClosed` | src/history/recovery.rs:247-253 | once a marker or commit file exists, in any state, what is read never depends on the raw file, and a read succeeds if and only if some commit is sound, no bank is beyond the hard cap, and two sound commits are of one store |
| `HistoryTheorems.FlushedTailIsRead` | src/history/recovery.rs:247-253 | after a successful flush, from every crash image, the post-mortem read returns exactly the last bytes of everything ever appended, within the requested size, the frame limit and the capacity |
| `HistoryTheorems.EveryCrashReads` | src/history/recovery.rs:247-253 | at every promised state of every run the post-mortem read succeeds with the last bytes of the stream up to a position at or past everything acknowledged by then; only when nothing was acknowledged may it come from the raw file |
| `HistoryTheorems.LegacyIsRead` | src/history/recovery.rs:222-253 | without marker and commits the last bytes of the raw file are read, none without one, unless a bank is oversized |
| `HistoryTheorems.EveryCrashRecovers` | src/history.rs:156-476 | at every state of every run, those inside an operation included, with unsynced data lost or garbled, recovery yields a commit at or past everything acknowledged at that state or at any earlier one, and exactly the last bytes of the stream observed by then |
| `HistoryTheorems.PromisedUnlessRetried` | src/history.rs:408-476 | a state of a run without that promise has no acknowledged commit and comes after an attempt at a first commit that began on a store an earlier attempt had touched |
| `HistoryTrace.AcknowledgedGrows` | src/history.rs:307-476 | along every run what was acknowledged and what was observed only grows |
| `HistoryTrace.TraceOn` | src/history.rs:307-476 | a run grows by one disk operation, by growth of the stream, by acknowledging a commit at or past the last one, by the start of an attempt or by taking a store id, and by nothing else |
| `HistoryTrace.TracedIsHeld` | src/history.rs:307-476 | every state of a run keeps what was acknowledged by then, which is never less than before |
| `HistoryTheorems.FlushedStreamSurvives` | src/history.rs:189-215 | after a successful flush every crash image recovers to the last bytes of the whole stream |
| `HistoryTheorems.HeldRecovers` | src/history.rs:156-476 | the same for any single state that keeps the store's invariant, before and after the first commit |
| `HistoryTheorems.WritesAreAmortised` | src/history.rs:189-215 | bytes written to banks are at most twice the durable bytes, a commit never exceeds twice the capacity, and consecutive compactions lie more than the capacity apart |
| `HistoryTheorems.WedgedIsUnreadable` | src/history/recovery.rs:146-206 | a commit that a left-over marker disowns makes recovery fail |
| `HistoryAnchor.AnchoredRecovers` | src/history/recovery.rs:146-206 | while an acknowledged commit's slot, bank prefix and marker are durable, every crash image recovers to it or to a newer faithful commit |
| `HistoryAnchor.NewestMeets` | src/history/recovery.rs:146-206 | the commit that wins by generation meets the promise even while the other slot is being replaced |
| `HistoryAnchor.FirstHeldRecovers` | src/history.rs:408-476 | a crash during the first publication recovers to nothing or to the whole first commit |
| `HistoryAnchor.FirstRewriteRecoverable` | src/history.rs:408-476 | after a retried first commit rewrote bank 0, recovery succeeds if and only if no commit and no marker were left |
| `HistoryTheorems.RetriedFirstCommitCanBeLost` | src/history.rs:408-476 | for every capacity and stream, a first publication that failed at its marker is readable, and unreadable once its retry has rewritten the bank |
| `HistoryStages.NewBankKeepsAnchor` | src/history.rs:408-476 | a compaction into the other bank keeps the acknowledged commit recoverable in every version |
| `HistoryStages.OpenBankKeepsAnchor` | src/history.rs:341-406 | appending past the committed prefix of the open bank keeps the acknowledged commit recoverable |
| `HistoryStages.NewCommitKeepsAnchor` | src/history.rs:327-339 | replacing the older commit slot keeps the acknowledged commit recoverable whichever version survives |
| `HistoryStages.AnchorMoves` | src/history.rs:327-339 | once the new slot and its bank are durable, the new commit is the anchor |
| `HistoryStages.AppendedFaithful` | src/history.rs:341-406 | the commit of an append describes exactly a tail of the stream, at least the capacity or all of it |
| `HistoryStages.CompactedFaithful` | src/history.rs:408-476 | so does the commit of a compaction |
| `HistoryV2.WriteAtomically` | src/persist.rs:260-297 | a file is replaced whole or not at all, in two recorded steps, rename and directory sync; failures are counted, and a steady machine has none |
| `HistoryDisk.UnsyncedRenameMayBeLost` | src/persist.rs:260-297 | until the directory is synced a rename may be lost, and after that it may not |
| `HistoryV2.PublishMarker` | src/history/recovery.rs:45-67 | the marker is written once for its store; one of another store is refused and left alone |
| `HistoryV2.Seal` | src/history.rs:307-339 | commit, then marker: on success the next commit is anchored, on failure the old knowledge still holds |
| `HistoryV2.AppendAndSeal` | src/history.rs:341-406 | truncate, write, sync, commit: the run grows by these single steps, every disk on the way keeps what is acknowledged, which does not change meanwhile, and the outcome is an anchored commit or an excused failure |
| `HistoryV2.CompactAndSeal` | src/history.rs:408-476 | write the other bank, commit it: the same, and a wedged store stays wedged |
| `HistoryRaw.Repair` | src/history.rs:225-256 | the raw file is rewritten as exactly the ring, or removed when history is disabled; on a failure, which a steady machine does not have, it is marked unknown or stays as it was |
| `HistoryRaw.Flush` | src/history.rs:258-305 | while known, the raw file stays a contiguous piece of the stream that ends at its recorded end and is at most twice the capacity; success brings it up to date: nothing is done when it is already, exactly what is missing is appended when the file allows that, and otherwise it is rewritten as the ring |
| `HistoryRaw.UpToDateEndsWithRing` | src/history.rs:258-305 | an up-to-date raw view ends with exactly the ring |
| `HistoryStore.PopToCapacity` | src/history.rs:156-188 | dropping from the front leaves exactly the last bytes |
| `HistoryStore.CompactionBound` | src/history.rs:189-215 | a compaction is chosen only after more than the capacity was observed, and keeps the write bound |
| `HistoryStore.History.Append` | src/history.rs:156-188 | the stream grows by the data or, on position overflow, not at all; ring and queue stay its last bytes |
| `HistoryStore.History.PublishAppend` | src/history.rs:341-406 | success makes everything observed durable, failure loses nothing acknowledged and has a reason |
| `HistoryStore.History.PublishCompaction` | src/history.rs:408-476 | the same for a compaction, which a wedged store always refuses |
| `HistoryStore.History.Flush` | src/history.rs:189-215 | success: everything observed is durable and the raw view ends with the ring; failure: retained, to be retried, and only for a fault of a machine that is not steady, a foreign marker or an exhausted counter, so the two size errors never come up; recovery stays promised throughout unless a failed first commit is retried |
| `HistoryStore.History.FlushFinal` | src/history.rs:220-223 | on success the raw file is exactly the ring, or gone when history is disabled; failures have the same reasons |
| `HistoryStore.History.Snapshot` | src/history.rs:478-485 | the last bytes of the stream within the requested size and the capacity |
| `HistoryStore.Run` | src/history.rs:156-223 | for every sequence of operations on a fresh store, any of them failing: the stream is what the accepted appends gave, the run is a chain of single steps from the empty store to the current one, and it passes through the state after every prefix; on a machine where nothing fails recovery is promised at all of its states |
| `Fence.DoInv` | src/api.rs:587-716 | every step of the worker or of a forgetter keeps the invariant: while the record exists all contenders share one lock inode |
| `Fence.RunInv` | src/api.rs:587-716 | so does every interleaving from a fresh record |
| `Fence.ReturningLockIsAnother` | src/api.rs:587-716 | in every run the lock file lies in the directory, and one that is created anew is none that anybody has open or locked |
| `Fence.NoForgottenSessionIsServed` | src/api.rs:645-716 | in every interleaving of one worker and any number of forgetters, no worker serves a session whose record was forgotten |
| `Fence.ForgottenStaysForgotten` | src/worker/startup.rs:222-253 | in every run, with any number of workers, a forgotten record stays away unless a worker was already about to write its failure when it was deleted |
| `Fence.ForgottenForGood` | src/worker/startup.rs:222-253 | with one worker there is no such exception: what was forgotten at some point of a run is gone at every later one |
| `Fence.OneWorkerCanServe` | src/worker.rs:202-223 | seven undisturbed steps bring a worker of a fresh record up, serving under the lock it holds |
| `Fence.WorkerStepInv` | src/worker.rs:202-223 | the worker's own order of steps (directory, lock, record, serve) keeps the invariant |
| `Fence.WorkerCleans` | src/worker/startup.rs:150-270 | a failed bring-up that rewrites the record and removes the directory keeps it too |
| `Fence.RefusedWorkerCleansUp` | src/worker/startup.rs:222-270 | a worker that refuses, or whose bring-up failed, leaves neither lock file nor directory and holds no lock |
| `Fence.FailedBringUpIsRecorded` | src/worker/startup.rs:150-270 | a failed bring-up leaves an inactive record with the pid known by then, before anything is removed |
| `Fence.UnrecordedWorkerRefuses` | src/worker/startup.rs:222-253 | a worker whose record vanished before it registered refuses and writes none |
| `Fence.LockedOutWorkerLeaves` | src/worker.rs:210-213 | a worker that finds the lock held, or its file gone, leaves without touching anything |
| `Fence.ExitIsRecorded` | src/worker/lifecycle.rs:393-438 | a normal exit leaves an inactive record with the pid of the worker |
| `Fence.ForgetLocks` | src/api.rs:606-635 | opening and trying the fence lock without blocking keeps it |
| `Fence.ForgetDeletes` | src/api.rs:645-716 | deleting the record, under the fence or past a dead pid, keeps it |
| `Fence.ForgetRemoves` | src/api.rs:645-716 | unlinking the lock file and removing the directory afterwards keeps it |
| `Fence.ForgetsExactly` | src/api.rs:587-716 | from every state in which its turn has come, eight undisturbed steps finish a forgetter; record, lock file and directory are gone if and only if the recorded worker is dead, or the record is inactive without a pid, or has none and nobody holds the lock; otherwise the record stays; workers and held locks are as before |
| `Fence.StoppedForgetterReleases` | src/api.rs:606-635 | a forgetter that gives up, wherever it stands, holds neither the registry nor a lock and has changed nothing else |
| `Fence.SecondWorkerDefeatsFence` | src/api.rs:606-618 | from any state with a dead recorded worker, a second one starting and a free lock, one given continuation serves a forgotten session |
| `Fence.TwoWorkersDefeatTheFence` | src/api.rs:606-618 | such a state is reached from every fresh record with two workers |
| `Fence.SafeExactlyWithOneWorker` | src/api.rs:587-716 | a fresh record that can be forgotten is safe in every run if and only if it has at most one worker |
| `Fence.ForgottenWorkerStops` | src/worker/control_socket.rs:225-235 | a serving worker stops at its own next step if and only if its record is gone |
| `DeliveryTarget.WaitUntil` | src/delivery_ack.rs:1013-1031 | captures and sleeps only: returns a screen that satisfies the condition, or shows that every successful capture of the whole window failed it, within the window plus one poll |
| `Delivery.Land` | src/delivery_ack.rs:801-853 | a paste counts as landed only with the shown text, as dropped exactly when the last look shows an empty box, which for a box that could be read comes after the whole landing window; one that could not is looked at once |
| `Delivery.PressWhilePending` | src/delivery_ack.rs:872-897 | every further Enter follows a full window of the identical pending text, up to the limit, at one window each; it ends with that text seen to leave the box, or with all its Enters used, or with a failed write |
| `Delivery.Submit` | src/delivery_ack.rs:855-897 | the submission phase: at least one Enter, each justified, within the time of its windows and the late look; it counts as submitted only when a capture after the last Enter no longer shows the pending text |
| `Delivery.Untouched` | src/delivery_ack.rs:993-1009 | says yes exactly of an empty or ghostly box over the pre-send transcript |
| `Delivery.AwaitWork` | src/delivery_ack.rs:899-987 | the watch begins with the first request for a report since the last write; what it says of echo, evidence and movement is what the log shows since then; a report outranks a busy line and that outranks movement; it sleeps only before its deadline and never after it has seen work, nor after the echo when that is enough; a quiet verdict covers all of it; on an instant target the phase stops at the first poll at which it is over, within its window |
| `Delivery.EvidenceIsWork` | src/delivery_ack.rs:909-930 | evidence is held if and only if the log shows work: a report of it, a busy line that was not there before, or a transcript that moved after the echo; and it is evidence that the log shows |
| `Delivery.TellsScreen` | src/delivery_ack.rs:913-930 | one more screen keeps that agreement of echo, evidence and echo screen with the log |
| `Delivery.Send` | src/delivery_ack.rs:801-987 | one send: one paste, bounded Enters, a resend only after a dropped paste and a box that is ready again, or a watch that was calm from its first request on; failure only when nothing is left to try: no resend allowed, or the text stuck after all its Enters; a verdict the log bears out, within the cost of a round |
| `Delivery.SendAll` | src/delivery_ack.rs:801-987 | at most 1 + max_resends pastes and max(1, max_enters) + max_resends Enters, all justified; failure only after all 1 + max_resends pastes, or with the text stuck after at least max_enters Enters; and the same truth of the verdict |
| `Delivery.SendKnown` | src/delivery_ack.rs:772-988 | the report on the sends: keystroke counts, elapsed time and readiness as they are in the log, and the verdict with its reasons; an error if and only if a write failed, after which nothing is done |
| `Delivery.ReadBaseline` | src/delivery_ack.rs:772-800 | refuses exactly when the last capture holds foreign text that is not a ghost, captures nothing after it, starts the grace period then, and says whether the screen was ready |
| `Delivery.Deliver` | src/delivery_ack.rs:726-988 | for any screen behaviour, also with a recognised screen: every keystroke justified (an Enter only over a paste that the last look did not show as dropped), both limits, nothing written when the last look before the first write is foreign, at least one paste otherwise, and the grace period starts between the two; working is reported if and only if the log shows work since the last write, with the strongest evidence it shows; failure if and only if the log shows a stuck window, a dropped paste or a vanished payload, and only when every resend or every Enter was used up; submission without work only after the whole watch or an echo, and never with the text still in the box; an error if and only if a write failed, as the last thing done; unverified if and only if the box could not be read; the counts, the readiness and the time of the report are those of the log; and the closed time bound |
| `Delivery.UnreadIsNoFailure` | src/delivery_ack.rs:855-870 | no log shows both a box that could not be read and a failure |
| `Delivery.WatchTellsFailure` | src/delivery_ack.rs:932-961 | while a watch is on the log shows a failure only if the watch saw no echo, no work and the pre-send screen |
| `Delivery.SendUnverified` | src/delivery_ack.rs:726-771 | without a screen model: one paste, one Enter, no look and no claim; an error if and only if one of the two failed |
| `Delivery.WithinTimeBound` | src/delivery_ack.rs:608-650 | the costs of the sends and windows add up to the closed formula in the policy |
| `Delivery.WorkingPhaseEnds` | src/delivery_ack.rs:899-987 | for every stream of silent replies, the working loop ends at some poll if and only if the poll interval is positive, or the grace was over before, a resend is allowed and some poll shows the pre-send screen |
| `Rollout.WriteJournal` | docs/rollout-53f535a2/apply_rollout.py:165-198 | the durable journal is the old one or the new one, never a mixture |
| `Rollout.CheckedRename` | docs/rollout-53f535a2/apply_rollout.py:120-134 | only over a target that was looked at and was as expected: a missing source fails, every crash point stays safe, and the disk changed exactly if what was replaced is recorded; other failures use up the budget |
| `Rollout.CreateVerified` | docs/rollout-53f535a2/apply_rollout.py:346-391 | backup and stage are new files with exactly the wanted bytes, mode and owner, copied from a source that has them |
| `Rollout.Install` | docs/rollout-53f535a2/apply_rollout.py:436-458 | intent before rename, outcome after, outsiders anywhere in between: the run grows by single safe steps, a success means that the target was seen with its links and names the journalled install; undisturbed it succeeds if and only if it is ready |
| `Rollout.CheckAndRename` | docs/rollout-53f535a2/apply_rollout.py:447-452 | stage and backup are checked, then the target is looked at and must be the original with exactly the expected number of links, then comes the rename, with outsiders in between: a success has both looks on the trail and an untouched target names this run's install; undisturbed it succeeds if and only if all of that holds |
| `RolloutRun.RenameIsFair` | docs/rollout-53f535a2/apply_rollout.py:447-452 | a rename over a target that was looked at replaces what the look saw if and only if nobody changed the target since, and what they changed is accounted for |
| `Rollout.CheckAndRestore` | docs/rollout-53f535a2/apply_rollout.py:552-555 | the same for a restore: an untouched target is restored, and one that fails its check stays as it was |
| `Rollout.RollbackEntry` | docs/rollout-53f535a2/apply_rollout.py:541-566 | an untouched entry is back at its original bytes; without a failure one whose install and backup are in place is rolled back; its state says so, or how far it came; other entries and names stay as they are |
| `Rollout.Rollback` | docs/rollout-53f535a2/apply_rollout.py:541-566 | rolling back newest first: the untouched targets left unreverted are at most as many as the operations that failed meanwhile; every path reported as rolled back is marked so and did name its backup, and without a failure every untouched one that could be restored is reported |
| `Rollout.InterferenceKeepsSafe` | docs/rollout-53f535a2/apply_rollout.py:401-493 | whatever outsiders do, a target whose own names they left alone stays safe |
| `RolloutRun.Apply` | docs/rollout-53f535a2/apply_rollout.py:401-493 | the run is a chain of single safe steps from the given world; every change of a target is an outsider's or a recorded, fair rename; success means that every target is journalled as installed, was seen as the original with the links that preflight found less those this run had removed, was then seen to name its install and still does if untouched, and that no operation failed; after a failure the untouched targets that are not back at their original bytes are at most as many as the operations that failed since, none when the budget was used up, what is reported as rolled back was, and the journal says so unless its write failed; undisturbed it succeeds if and only if every target is as preflight saw it, installs every target and changes no other name |
| `RolloutRun.PostVerify` | docs/rollout-53f535a2/apply_rollout.py:496-525 | passes only after every entry's target was seen to name its install, and the untouched ones still do |
| `RolloutRun.RunIsHonest` | docs/rollout-53f535a2/apply_rollout.py:401-566 | over every run, each recorded rename was checked against the original or this run's install and replaced that if and only if it was left in place |
| `RolloutRun.RemediedFully` | docs/rollout-53f535a2/apply_rollout.py:474-493 | when nothing fails after the run gave up, every untouched target has its original bytes |
| `RolloutRun.RunIsOnRecord` | docs/rollout-53f535a2/apply_rollout.py:401-566 | over any run, every change of a target's name is an outsider's or a rename on record, and no record is dropped |
| `RolloutRun.StagedIsReady` | docs/rollout-53f535a2/apply_rollout.py:394-452 | a staged target passes the last check if and only if its links are those preflight saw less the ones this run removed, also when targets share an inode, and renaming the stage completes it |
| `RolloutRun.AllPassedIsOnTrack` | docs/rollout-53f535a2/apply_rollout.py:420-458 | if every target passed when its turn came, all of them were as preflight saw them at the start |
| `RolloutRun.RemovalsAgree` | docs/rollout-53f535a2/apply_rollout.py:394-398 | the links counted from the manifest are the links this run removed |
| `RolloutRun.CrashLeavesWholeTargets` | docs/rollout-53f535a2/apply_rollout.py:420-458 | at every crash point an untouched target names the complete original or the complete candidate, and in the second case its journal entry and verified backup are durable |
| `RolloutRun.RecoverCrashed` | docs/rollout-53f535a2/apply_rollout.py:569-585 | rolling back a crashed run's own journal restores every untouched target when nothing fails meanwhile, reports exactly what it rolled back and journals it, with fair renames |
| `RolloutRun.ForeignReplacedOnlyInWindow` | docs/rollout-53f535a2/apply_rollout.py:401-566 | at every step of every run: if a target's name changes its meaning, outsiders did it, or a rename that follows a look at the target on the trail, which saw the original while installing or this run's install while rolling back, with only outsiders' steps in between; if it replaced another file, one of those steps put it there |
| `RolloutRun.RestoreInWindow` | docs/rollout-53f535a2/apply_rollout.py:552-555 | what a restore replaces is foreign if and only if the target changed after the check, and is destroyed if and only if it has no other name |
| `RolloutRun.OpenWindowLosesForeignFile` | docs/rollout-53f535a2/apply_rollout.py:552-555 | from every world on which the check passes, an outsider's move makes the rename destroy any given file |
| `Assembler.JsonAssembler.UpdateBalance` | src/agent_events/assembler.rs:91-112 | the character loop computes the scan of the text |
| `Assembler.JsonAssembler.FeedLine` | src/agent_events/assembler.rs:46-68 | the object does what the function `Feed` says |
| `Assembler.ReassemblyUndoesSplitting` | src/agent_events/assembler.rs:46-112 | for every object or array text of at most 32 MiB cut at newlines outside strings: nothing comes out before the last piece and the whole text at it, if and only if no continuation is itself a whole record |
| `Assembler.WholeRecordGetsThrough` | src/agent_events/assembler.rs:46-85 | after any lines, a line that is a whole record is parsed as its own record, and what was buffered is discarded |
| `Assembler.Accumulates` | src/agent_events/assembler.rs:46-68 | after some pieces the buffer is their join, the balance is its scan and nothing has come out |
| `Assembler.NothingLostSilently` | src/agent_events/assembler.rs:46-85 | whatever is buffered when a line comes is continued by it, or comes out with it, or is reported as discarded with its size, the last exactly when it exceeds 32 MiB or the line is a whole record |
| `Assembler.BufferIsBounded` | src/agent_events/assembler.rs:46-68 | for every sequence of lines the buffer holds at most 32 MiB and one line |
| `Assembler.NodeTame` | src/agent_events/assembler.rs:91-112 | every JSON value returns the balance to where it was and never falls below it |
| `LineCut.CutGrown` | src/agent_events/reader.rs:79-117 | a log that grew has its old lines, then those of its old tail and what came |
| `Reader.NativeLogReader.ReadInto` | src/agent_events/reader.rs:79-117 | the read loop emits exactly the events of the lines after its offset, numbered on, and the tail only when asked to |
| `Reader.NativeLogReader.ReadTerminated` | src/agent_events/reader.rs:79-117 | every terminated line is processed once, in order; the offset stops before an unterminated one |
| `Reader.PollCatchesUp` | src/agent_events/reader.rs:58-163 | a poll of a longer log emits exactly the events the shorter one lacked |
| `Reader.IncrementalEqualsBatch` | src/agent_events/reader.rs:58-163 | for every growth of a log and every schedule of polls, the events equal those of one read of the terminated prefix, numbered 0, 1, 2, ... |
| `Reader.OneShotReadsAll` | src/agent_events/reader.rs:79-117 | a one-shot read by a reader that has read any prefix emits exactly the events the whole file holds beyond it, an unterminated last line read as if it were terminated, and ends at the end of the file |
| `Transcript.ReadingFeeds` | src/agent_events/reader.rs:119-153 | reading lines that are neither empty nor too long is feeding their decoded texts and translating what comes out |
| `Transcript.RecordReads` | src/agent_events/reader.rs:119-153 | one record over any number of lines gives exactly its events and leaves the assembler empty |
| `Transcript.WholeRecordReads` | src/agent_events/reader.rs:119-153 | a whole record on one line is read in any state; what was buffered is reported first, as an error of its size |
| `Transcript.EveryRecordOnce` | src/agent_events/reader.rs:58-163 | for a log of objects and arrays cut outside strings, blank lines and overlong lines, every growth and every schedule of polls: each record comes out once, in order, whole, each overlong line as one error and a blank one as nothing |
| `Transcript.OneShotReadsEveryRecord` | src/agent_events/reader.rs:79-163 | so it does in a one-shot read, whether or not the last line is terminated |
| `Paging.Paginate` | src/agent_events/reader.rs:170-189 | keep-last-N admission equals filtering the whole list and taking its last N; what is on the page has the kind and lies between the cursors of the query, and what is not lacks one of these or came before N others |
| `Paging.SelectKeepsOrder` | src/agent_events/reader.rs:170-189 | filtering keeps exactly the accepted events, once each and in order |
| `Paging.SnapshotPage` | src/agent_events/reader.rs:196-206 | for a fresh reader, the page of the events of the whole file, with an unterminated last line unless it will be followed; for any other, of what is new to it |
| `Paging.Follow` | src/agent_events/reader.rs:209-246 | for an append-only log: the page, then every later event of the kind past the caller's cursor, once and in order |
| `Paging.ShrunkLogRestarts` | src/agent_events/reader.rs:58-92 | a log that shrank is read again from the start, numbered from 0 |
| `Ownership.NearestIsUnique` | src/proc_usage.rs:459-505 | a process has at most one nearest root, at one distance |
| `Ownership.OwnerIsTheParents` | src/proc_usage.rs:459-505 | a process that is no root belongs to whoever owns its parent, except with parent 0 or itself as parent |
| `Ownership.CycleUnowned` | src/proc_usage.rs:482-487 | no process on a cycle of parents has an owner |
| `Ownership.FoundExactly` | src/proc_usage.rs:459-505 | for any memo, an owner is named if and only if it is met within the links left, before anything else remembered |
| `Ownership.FreshFound` | src/proc_usage.rs:459-505 | from an empty memo the nearest root is named if and only if it is within 64 links |
| `Ownership.OwnerOf` | src/proc_usage.rs:459-505 | the loop with its cycle check and cap gives that answer and remembers it of exactly the processes passed; remembered owners stay right, and on tables within the cap remembered absences too |
| `Ownership.DeepProcessHidesNearOne` | src/proc_usage.rs:482-487 | on a line of 71 processes, asking the deepest first leaves one without an owner that is 7 links from its root |
| `Usage.OpenRows` | src/proc_usage.rs:165-184 | one empty row per session with a pid, and its pid as a root |
| `Usage.Scan` | src/proc_usage.rs:212-231 | for any visiting order, every row reports exactly the processes, time and start of its share, shares hold only processes of that nearest root, and they hold all of them if and only if each was answered when visited |
| `Usage.EveryOrderCountsAllIffShallow` | src/proc_usage.rs:212-231 | every visiting order counts every owned process if and only if no process is more than 64 links from its root |
| `Usage.SharesSplit` | src/proc_usage.rs:212-231 | no process is in two rows, and none with an owner is in no row |
| `Usage.CountsSumToOwned` | src/proc_usage.rs:212-231 | the row counts sum to the number of owned processes, and no counter saturates |
| `ProcessTree.WalkDescendants` | src/pidfd.rs:192-217 | returns without repeats exactly the processes reachable through non-zombies, and fails exactly when there are more than the limit |
| `ProcessTree.ChildTable` | src/pidfd.rs:620-629 | the table built from parent links has exactly the edges of live, non-zero processes |
| `ProcessTree.WalkByParents` | src/pidfd.rs:608-650 | the same result over that table |
| `ProcessTree.BothForms` | src/pidfd.rs:192-217 | on one process table the two forms fail together or return the same set |
| `Detect.DetectAgent` | src/agent_kind/detect.rs:266-315 | an answer classifies at the smallest distance from the leader; no answer means that nothing reachable classifies or that more than 4096 processes are reachable |
| `Detect.NearerIsDone` | src/agent_kind/detect.rs:274-313 | whatever is nearer than the head of the queue has been scanned |
| `Calendar.DateRoundTrip` | src/task.rs:138-176 | every valid Gregorian date comes back from its day number |
| `Calendar.DayRoundTrip` | src/task.rs:138-176 | every day number, negative ones too, is a valid date's and comes back |
| `Calendar.NextDayIsNext` | src/task.rs:138-147 | the calendar's next day has the next number |
| `Calendar.EpochIsZero` | src/task.rs:138-147 | 1970-01-01 is day 0 |
| `Calendar.DaysIncrease` | src/task.rs:138-147 | one date is before another if and only if its number is smaller |
| `Calendar.OverlongDay` | src/task.rs:138-147 | a day past the end of its month has the number of the day counted on into the next month |
| `Timestamp.UtcRoundTrip` | src/task.rs:50-176 | parsing what `rfc3339_utc` prints gives ms / 1000, for every 64-bit ms |
| `Timestamp.UtcShape` | src/task.rs:150-176 | what `rfc3339_utc` prints for every 64-bit ms: at least four year digits, two digits for each other field, three for the fraction, the separators between them, each field with its value and the fraction ms mod 1000 |
| `Timestamp.ParsesEveryTimestamp` | src/task.rs:50-136 | every date, time, fraction and offset parses to the instant it names, wrapped to 64 bits, or to an error before the epoch; if and only if month, day, time and offset are in their ranges, and is refused otherwise |
| `Timestamp.OffsetIsLessThanADay` | src/task.rs:80-136 | whatever the text, an offset that is read is less than a day either way |
| `Decimal.ParsesSigned` | src/task.rs:69-136 | integers with either sign parse to their value, and beyond their range are refused |
| `Decimal.NonDigitsRefused` | src/task.rs:69-136 | text without digits, or with anything among them, is no integer |
| `Timestamp.MalformedFractionRefused` | src/task.rs:91-111 | a point that no digits follow, or not only digits, is refused |
| `Timestamp.LowercaseIsSame` | src/task.rs:50-89 | a lowercase separator and zone mean the same, whatever stands around them |
| `Timestamp.ParsedDateIsNamed` | src/task.rs:69-78 | every day from 1 to 31 parses; the date is the one its day number names if and only if it is valid, and otherwise a day of the next month |
| `Timestamp.OverlongFebruary` | src/task.rs:69-78 | 31 February 2025 and 3 March 2025 are the same instant at every time and offset |
| `Timestamp.NaiveIsRefused` | src/task.rs:45-90 | a timestamp without an offset is refused, with either separator |
| `TokenRules.FindFrom` | src/agent_kind/rules.rs:82-90 | the first occurrence at or after the cursor, or none at all |
| `TokenRules.LongestRunSuffices` | src/agent_kind/rules.rs:99-113 | the only alphanumeric run that can end at a delimiter is the longest |
| `TokenRules.StemMatches` | src/agent_kind/rules.rs:118-150 | the cursor loop finds a bounded token of the stem if and only if there is one |
| `TokenRules.Matches` | src/agent_kind/rules.rs:115-152 | true if and only if some bounded word of the text is in the rule's regex |
| `TokenRules.WholeWordMatch` | src/agent_kind/rules.rs:168-179 | true if and only if the non-empty token occurs between boundaries |
| `TokenRules.CanonicalKind` | src/agent_kind/rules.rs:157-163 | the first agent, in the order of the rules, of which the text has a bounded word; none if there is no such word |
| `TokenRules.RuleNames` | src/agent_kind/rules.rs:50-80 | each rule names exactly the texts with a bounded word of its own agent: `claude`, `codex` and so on, with the suffixes that agent allows |
| `TokenRules.RulesShareNoWord` | src/agent_kind/rules.rs:43-80 | words that different rules find in one text never overlap |
| `TokenRules.TwoRulesExactly` | src/agent_kind/rules.rs:43-80 | two rules name a text if and only if it has a word of each with something between them |
| `TokenRules.OneWordOneAgent` | src/agent_kind/rules.rs:43-80 | text without delimiters is named by at most one rule |
| `TokenRules.TwoAgentsInOneText` | src/agent_kind/rules.rs:43-80 | `claude codex` is named by two |
| `RcLines.LinesOfJoined` | src/shell_prompt.rs:111-120 | joined lines read back as themselves, without trailing carriage returns |
| `RcLines.JoinOfLines` | src/shell_prompt.rs:111-120 | reading and joining gives the text back, up to a final newline, if and only if it has no CR LF ending |
| `PromptBlock.BlockIsFound` | src/shell_prompt.rs:83-109 | a block after lines without a begin marker is located whole and is current |
| `PromptBlock.StateExactly` | src/shell_prompt.rs:83-109 | the block is current if and only if it stands after lines without a begin marker, and absent if and only if there is no begin marker |
| `PromptBlock.FirstInstallAppends` | src/shell_prompt.rs:122-155 | installing into any text without a block adds a blank line, unless it is empty, and the block |
| `PromptBlock.ReinstallReplaces` | src/shell_prompt.rs:122-155 | installing over an older block, closed or open-ended, replaces exactly it |
| `PromptBlock.InstallIsIdempotent` | src/shell_prompt.rs:122-155 | for every text the block is current after an install, and a second install changes nothing |
| `PromptBlock.InstallKeepsBytesExactly` | src/shell_prompt.rs:122-155 | for every text, the bytes outside the markers are kept, up to a final newline and the gap before a first block, if and only if the block was current or no line outside it ends in CR LF |
| `PromptBlock.CrLfIsLost` | src/shell_prompt.rs:122-155 | they are not for a text of one line with a CR LF ending |
| `PromptBlock.Remove` | src/shell_prompt.rs:157-179 | the loop leaves the tidied lines outside the block; without a block nothing changes |
| `PromptBlock.RemovedLines` | src/shell_prompt.rs:157-179 | what is left of any text, line by line: tidied, without blank lines or spaces at the end |
| `PromptBlock.InstallThenRemove` | src/shell_prompt.rs:122-179 | for every text, the non-blank lines outside the block come back in order and unchanged up to trailing whitespace; without carriage returns, up to trailing whitespace at the end of the file |
| `PromptBlock.RemoveKeepsBytesExactly` | src/shell_prompt.rs:157-179 | for every text, what is returned has the bytes outside the markers, up to a final newline, if and only if there is no block, or the lines outside it are neat and none of them ends in CR LF |
| `PromptBlock.RemoveCollapsesUserBlanks` | src/shell_prompt.rs:157-179 | in an rc text with any block, a double blank line away from the block is collapsed |

## Left out

- Reopening a history store, capacity migration, legacy import and several sessions in one directory; the store starts fresh with a fixed capacity.
- Crash images of the raw history file, whose promise is to readers of a running worker, and the serialized size limits of metadata files.
- Removal of the runtime directory by anyone but the worker and the forgetters of the fence.
- The `landed`, `submitted`, `echoed` and `detail` fields of the delivery report, which repeat what the log shows on the way to its verdict.
- Reading a screen: `parse_screen`, `holds_payload`, `is_ready` and the styling checks are answered by the target, as is recognising an unnamed engine.
- In the rollout: the status fields of the manifest apart from its entries, reordering of renames by power loss, parent-directory pins and sibling checks (operations that may fail), preflight, and worker and hook snapshots.
- JSON parsing, translation to events, UTF-8 decoding and timestamps of events; a failing output stream of the live tail.
- Deadlines, unreadable processes and Windows job members in the process walks.
- Timestamp.ParsesEveryTimestamp: 64-bit seconds wrap around as in a release build, where a debug build panics; an offset of four bytes that splits a character, where the source panics, is an error, and years within 400 of the smallest 64-bit number are not wrapped before the division.
- Lowercasing and configured variation tokens of the classifier, and the profile a process names.
- PTY, sockets, cgroups, the message bus, the Python bindings and the command line: foreign interfaces or short case tables.
