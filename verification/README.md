# zenbench: models and proofs

zenbench measures code, but what its users rely on is machinery around the clock: one
benchmark process at a time on a machine, evidence that cannot be lost or altered, an exact
heap account, a fair schedule, and a validator that decides what may be promoted. This project
models that machinery and proves what it guarantees, for every input, interleaving and crash
point the model admits.

| files | system part |
|---|---|
| `admission*.dfy` | first-in-first-out admission through a shared directory of tickets, guards and one control mutex, with crashes at every step, what an end leaves behind, inherited leases and the runs in which they lose their owner |
| `store*.dfy` | the content-addressed evidence store with concurrent publishers that may stop anywhere, what can still be published, and the bounded encoder |
| `heap*.dfy` | the heap ledger as a class, its true account, phases, the spin lock as a system of threads, and the account under all their interleavings |
| `shuffle.dfy`, `rounds.dfy`, `pairs.dfy`, `enumeration.dfy` | the interleaved round scheduler and the enumeration of pairs |
| `records.dfy`, `validator*.dfy`, `engine_evidence.dfy` | the validator of recorded evidence, and what the engine records against it |
| `baseline.dfy`, `promotion.dfy`, `process_*.dfy` | comparison with a baseline, the promotion decision, and the per-process means behind it |
| `barrier*.dfy` | the two-wait barrier protocol of contended and parallel benchmarks |
| `calendar.dfy`, `timestamps.dfy`, `holder*.dfy` | calendar conversion, its text form, and the lock holder's record |
| `argument*.dfy`, `plan*.dfy` | harness arguments, plan resolution, and its transfer to child processes |
| `ownership.dfy` | owned processes and foreign processor load |
| `wrappers.dfy`, `text.dfy`, `decimal.dfy`, `sequences.dfy` | shared: options, strings, numerals, sorting |

`dafny verify dfyconfig.toml` checks everything.

How the models relate to the code:

- Protocols are step systems. A step is what can happen between two points at which another
  process or thread may run; a crash is a step that is possible everywhere. Locks are not
  separate fields but part of each participant's program counter, so releasing them on a crash
  cannot be forgotten. A run is any finite sequence of steps, and theorems speak of every run.
- Loops that update variables are methods with invariants, proved equal to specification
  functions; the properties are lemmas about those functions. The ledger and the bounded writer
  are classes.
- Clocks, timers, random draws, resource readings, statistics of intervals, gzip, JSON, SHA-256 and
  floating-point text are parameters. Assumed of them are only: the digest is injective (the usual
  idealization) and passes the form test for digests, decoding inverts encoding, compressed packets and references are
  told apart, printed floating-point numbers parse back, and interval bounds are in order.
- Floating-point values are reals.

Places where the code does not keep what its documentation suggests, each with the exact
condition under which it does:

- An inherited admission is meant to be nested in a live owner's running ticket. It is, from the walk
  that admits it on, exactly as long as some client owns the number and all processes between are alive
  (`AdmissionLease.NestedExactlyWhen`, `AdmissionLease.AdmittedNestedExactlyWhenOwned`). The owner can be gone
  before the walk (`AdmissionExceptions.AdmittedWithoutOwner`), after it (`AdmissionExceptions.OwnerLostLater`), or out of reach
  (`AdmissionExceptions.AncestorLostLater`). At the probe itself the check cannot tell the owner's lock from a
  momentary probe of the same guard (`AdmissionLease.LockedGuardMeansNested`,
  `AdmissionExceptions.ProbeMistakenForOwner`).
- An upload interrupted after the object was created (`StoreRecovery.InterruptedIsReached`) blocks that
  packet for good; a result can still be published exactly if that has not happened to its packet
  (`StoreRecovery.PublishableExactlyWhen`).
- A baseline-only inventory can pass the counting test while a benchmark is never compared
  (`Pairs.AcceptedTriangle`); a benchmark is compared with each of the others exactly if every entry
  has it on one side (`Pairs.BaselineComparedExactlyWhen`), and all pairs are covered exactly if there are at most two
  benchmarks (`Pairs.CoversExactlyWhen`). The engine's own loops emit no
  other entries in that mode (`Enumeration.EnumeratePairs`).
- The guards before a baseline interval ask for positive means of the rounds' times, while the validator
  looks at the recorded means only: they fail exactly if in some process a benchmark took no time in any round (`ProcessMeans.OnlyZeroTimesAreRefused`).
  Evidence can be like that (`ProcessTimes.EvidenceMayTakeNoTime`, `ProcessTimes.BlankedIsRefused`), but only in a record that the
  engine did not write: between records it measured the guards always pass (`ProcessTimes.MeasuredRecordsAreCompared`).
- The time parser accepts days its month does not have and reads years before 1970 as 1970
  (`Timestamps.ImpossibleDaysAreRead`, `Timestamps.EarlyYearsAreRead`, with the condition in
  `Timestamps.AcceptedIsCanonicalExactlyWhen`).
- A child inherits the output format from the environment but not the command-line option that
  overrides it, so it can refuse a plan its supervisor accepted (`Plans.ChildPlan`, `Plans.FormatStopsChildren`).
- The clock of a contended benchmark starts when the coordinator reads it after its first wait, and work may
  have been done by then, in every run with a pinned worker (`BarrierTheorems.WorkPrecedesTimingExactlyWhen`).

## Model

| member | source | states |
|---|---|---|
| `AdmissionTheorems.AtMostOneRunning` | src/coordination.rs:181-228 | in every reachable state of any number of processes, interleavings and crashes at any step, at most one ticket on disk is marked running |
| `AdmissionTheorems.NumbersDistinctAndBounded` | src/coordination.rs:151-160 | every number ever issued is larger than all issued before and at most the counter, which never passes the 64-bit maximum |
| `AdmissionTheorems.LiveTicketsStay` | src/coordination.rs:183-220 | the ticket of a live waiter or running owner is on disk with exactly its number, owner and state: no scan prunes or alters it |
| `AdmissionTheorems.FailClosed` | src/coordination.rs:200-214 | from a state with an orphaned running or unreadable ticket on, in every continuation the ticket stays and the admission log never grows |
| `AdmissionTheorems.LossOrphans` | src/coordination.rs:295-323 | a crash of the running owner, or a drop while retained, leaves exactly such an orphan |
| `AdmissionTheorems.NoAdmissionWhileRunning` | src/coordination.rs:183-228 | no step admits anybody while some ticket on disk is running |
| `AdmissionTheorems.PinnedUntilReaped` | src/lib.rs:929-968 | from the moment a supervised child lives until its supervisor reaps it, whether it still lives or has exited, its ticket is the running one, only a reservation retained for it can own it, and nobody is admitted, whatever happens to the supervisor |
| `AdmissionTheorems.SupervisedChildExcludes` | src/lib.rs:929-968 | in particular for the whole life of the child, since a child that lives has not been reaped |
| `AdmissionTheorems.NoOvertaking` | src/coordination.rs:181-228 | the log of admitted numbers is strictly increasing, and every waiter's number is above all of it |
| `AdmissionTheorems.LowerOnlyShrinks` | src/coordination.rs:151-228 | once a number is issued, the set of tickets and the set of owners below it only ever shrink |
| `AdmissionProgress.LowestWaiterIsAdmitted` | src/coordination.rs:181-228 | from the moment the waiter at the head of the queue takes the control mutex (no running or unreadable ticket, no locked lower guard), along every interleaving with any number of other clients and processes in which it meets no error or crash and nobody locks a lower guard: it has been admitted, next in the log, or its scan can go on and has made fewer than 2 * tickets + 5 moves of its own |
| `AdmissionProgress.SoloKept` | src/coordination.rs:181-228 | no step of anybody else blocks the scan, changes what it has found or adds to what is left of it |
| `AdmissionProgress.Draws` | src/coordination.rs:150-160 | a newcomer that finds the control mutex free draws the next number, 1 in an empty directory and else one more than the last, and nothing but the counter changes |
| `AdmissionProgress.Registers` | src/coordination.rs:161-180 | with its guard free it goes on to be queued with its own ticket on disk, and nothing else changes |
| `AdmissionCleanup.TicketIsGone` | src/coordination.rs:301-314 | in every reachable state the ticket of a client that has gone past its removal is off the disk |
| `AdmissionCleanup.OrphansArise` | src/coordination.rs:295-323 | in every run a ticket becomes an orphan only in a step that loses its owner: a crash, an error before the registration or inside the cleanup, or the drop of a retained reservation |
| `AdmissionCleanup.CleanupLeavesNothing` | src/coordination.rs:297-314 | a cleanup without error and crash never leaves its number an orphan, and once it has ended the ticket is off the disk for good and nobody owns the number, whatever all others do meanwhile and afterwards |
| `AdmissionCleanup.UnretainedDropLeavesNothing` | src/coordination.rs:295-318 | the same from the ordinary drop of a reservation that is not retained |
| `AdmissionCleanup.CleanupBegins` | src/coordination.rs:293-297 | that drop, and an error of a registered waiter, lead into the cleanup with nothing else changed; reaping makes the drop an ordinary one, and a nested or retained reservation just ends |
| `AdmissionCleanup.CleanupRuns` | src/coordination.rs:298-318 | as soon as the control mutex is free the cleanup can run through, and then exactly its own ticket is gone |
| `AdmissionInvariant.ReachableInv` | src/coordination.rs:84-323 | the invariant of the protocol holds in every reachable state: numbers, files, scan progress, lock exclusivity, order and the pins of supervised children |
| `AdmissionInvariant.ClientStepKeeps` | src/coordination.rs:138-323 | every step of a client, including failures and crashes, keeps the invariant for everybody |
| `AdmissionInvariant.OthersKeep` | src/coordination.rs:183-220 | what a step of one client can do to the files and locks never disturbs the own invariant of another |
| `AdmissionInvariant.RunStep` | src/coordination.rs:84-323 | each step of a run is a process event, a newcomer or a client step with the bounded effect the proofs use |
| `AdmissionLease.FindsLiveOwner` | src/coordination.rs:111-129 | the bounded ancestor loop answers yes exactly if a chain of at most 256 live processes leads from the child to the recorded owner |
| `AdmissionLease.NestedExactlyWhen` | src/coordination.rs:93-136 | in every reachable state, for every client admitted by inheritance, direct child or descendant: it is nested in a live owner's running reservation if and only if some client still owns the number and, within the bound of the walk, every process up to the supervised child is alive |
| `AdmissionLease.AdmittedNestedExactlyWhenOwned` | src/coordination.rs:111-135 | at the step in which the ancestor walk succeeds, the client is nested if and only if some client still owns the number |
| `AdmissionLease.ChildNestedExactlyWhenOwned` | src/coordination.rs:130-135 | for the supervised child itself that stays the condition in every later state up to the drop |
| `AdmissionLease.NestingEndsForGood` | src/coordination.rs:130-135 | nesting that has ended does not come back while the admission is held |
| `AdmissionLease.LockedGuardMeansNested` | src/coordination.rs:99-110 | a supervised child that finds the guard locked is nested at that instant exactly if nobody is probing the guard then |
| `AdmissionLineage.ReachableLineage` | src/lib.rs:929-934 | in every reachable state every lease descends from the child started under it, owners and recorded owners stand outside their own number, and checks are about the process's own lease |
| `AdmissionChecks.NestedOnlyAfterChecks` | src/coordination.rs:93-136 | in every run, whoever is nested under a number had first read its ticket as running, then found its guard locked, and then followed a chain of at most 256 live processes to the owner it had read |
| `AdmissionLease.OneHolder` | src/coordination.rs:161-162 | no guard is ever held by two clients |
| `AdmissionLease.LeasePathMoves` | src/coordination.rs:93-136 | on the inherited path only the steps of the check, a drop and a loss are possible |
| `AdmissionLease.NestedTouchesNothing` | src/coordination.rs:130-135 | a lease check or an inherited reservation changes no file, no number and nobody else's lock, however it ends |
| `AdmissionExceptions.DroppedDuringCheck` | src/coordination.rs:99-135 | from every state that keeps the invariant and in which a supervised child is about to probe: probe, the supervisor's retained drop, walk, and the child is admitted under an orphaned ticket, without any probe by others |
| `AdmissionExceptions.AdmittedWithoutOwner` | src/coordination.rs:99-135 | a run from the empty directory that ends in such an admission |
| `AdmissionExceptions.ProbeMistakenForOwner` | src/coordination.rs:99-110 | a run from the empty directory in which a live supervised child finds its guard locked by a momentary probe alone, nobody owning the number, and its check goes on to the walk |
| `AdmissionExceptions.OwnerLostLater` | src/coordination.rs:130-135 | a run in which the supervisor dies after a nested admission and the child goes on without an owner |
| `AdmissionExceptions.AncestorLostLater` | src/coordination.rs:111-135 | a run in which a grandchild keeps its admission while the process between it and the owner exits |
| `AdmissionExceptions.ReachAboutToProbe` | src/lib.rs:929-934 | a run from the empty directory reaches a supervisor whose child has read its lease |
| `StoreTheorems.PublishedLoadsForever` | src/storage.rs:154-189 | once a reference is published, every later load of it returns the persisted result, whatever other publishers do and wherever they crash |
| `StoreTheorems.ReachablePublished` | src/storage.rs:226-264 | every published reference names an object that is complete and hashes to its name |
| `StoreTheorems.CompleteForever` | src/storage.rs:234-252 | no complete object is ever changed, and its digest is its name |
| `StoreTheorems.PublishedForever` | src/storage.rs:254-263 | no published reference is ever lost or replaced |
| `StoreTheorems.OnlyPublishedReferences` | src/storage.rs:65-85 | the directory of references holds nothing but published ones: a half-written reference never appears under its name |
| `StoreTheorems.InterruptedForever` | src/storage.rs:238-252 | an object left incomplete by a stopped creator stays incomplete for ever, and its packet is never published |
| `StoreRecovery.PublishableExactlyWhen` | src/storage.rs:226-264 | from every reachable state and for every encodable result, some continuation publishes it if and only if its object was not left incomplete by a stopped creator |
| `StoreRecovery.InterruptedIsReached` | src/storage.rs:234-241 | for every encodable result three steps of one publisher reach such an object |
| `StoreSafety.MatchMeansComplete` | src/storage.rs:243-250 | a digest match at the end of a concurrent read proves the object complete and equal to the reader's packet |
| `StoreSafety.StepGood` | src/storage.rs:226-264 | every step of a publisher stays within its own object, temporary file and reference and re-establishes what it relies on |
| `StoreSafety.StepKeeps` | src/storage.rs:226-264 | every step keeps the store invariant for all publishers, objects and references |
| `StoreSafety.ReachableInv` | src/storage.rs:226-264 | the store invariant holds in every reachable state |
| `Store.EncodedReopens` | src/storage.rs:87-126 | what the bounded encoder produces the bounded reader opens again, to the same result |
| `Store.SavedLoads` | src/storage.rs:128-189 | what was saved is loaded again: always in compressed form, and as plain JSON unless the JSON itself is gzip or parses as a reference; only what is too large is not saved |
| `Store.LoadsExactlyWhen` | src/storage.rs:154-196 | a load gives a result exactly if the file is a packet of it within the limits, or a reference of version 1 with a well-formed digest to an object that hashes to its name and is such a packet, or the result's own JSON |
| `Store.BadReferencesAreRefused` | src/storage.rs:159-179 | a reference of another version or without a digest is refused as invalid, and one to an absent object as not found, each exactly then |
| `Store.TamperingIsDetected` | src/storage.rs:174-181 | with any other bytes under the object's name the load refuses the size if they exceed the limit and reports a hash mismatch otherwise |
| `Store.OversizedIsRefused` | src/storage.rs:142-152 | a file beyond the limit is refused as too large whatever it is, and so is a small packet of too much JSON |
| `Store.OversizedIsNotStored` | src/storage.rs:226-233 | a result that could not be reopened is refused before anything is written |
| `Store.StopLeavesFiles` | src/storage.rs:79-84 | stopping at any point leaves every object and reference, and at most the own temporary file goes |
| `StoreTheorems.Limited.constructor` | src/storage.rs:112-118 | the writer starts empty with the whole limit left |
| `StoreTheorems.Limited.Write` | src/storage.rs:98-107 | one write is refused without effect if its bytes exceed what remains, else takes a nonempty prefix and lowers the remainder by it |
| `StoreTheorems.Limited.WriteAll` | src/storage.rs:97-111 | all bytes are accepted exactly if they fit, however short the inner writes are |
| `StoreTheorems.EncodeLimited` | src/storage.rs:91-126 | for every way of cutting the JSON into writes, encoding succeeds exactly if JSON and compression both fit, and yields the compression of the JSON |
| `Heap.Ledger.constructor` | src/heap.rs:164-179 | the ledger starts valid, not installed and at zero |
| `Heap.Ledger.Add` | src/heap.rs:225-230 | checked addition: the sum, or the old value and sticky invalidation |
| `Heap.Ledger.DoTransition` | src/heap.rs:231-251 | the updates in place equal the transition on values: live, lifetime peak and phase peak, or invalidation |
| `Heap.Ledger.DoAllocated` | src/heap.rs:252-261 | accounting of an allocation, successful or failed, as one change of all fields |
| `Heap.Ledger.DoReallocated` | src/heap.rs:262-271 | accounting of a reallocation, successful or failed, as one change of all fields |
| `Heap.Ledger.DoSnapshot` | src/heap.rs:208-224 | a snapshot is refused before installation and after overflow, else is exactly the fields |
| `Heap.Ledger.BeginPhase` | src/heap.rs:107-120 | a phase begins exactly if the ledger is installed, valid and idle, and reports which of the three failed |
| `Heap.Ledger.FinishPhase` | src/heap.rs:122-136 | finishing always deactivates the phase and returns the differences to the entry without underflow |
| `HeapAccounting.LedgerIsExact` | src/heap.rs:225-271 | in every run the ledger is valid exactly as long as every true total fits in 64 bits, and while valid live is the sum of the outstanding blocks, peak the maximum of all past live values, requested the sum of granted sizes |
| `HeapAccounting.InvalidForever` | src/heap.rs:225-251 | once invalid the ledger stays invalid |
| `HeapAccounting.OnePhase` | src/heap.rs:107-145 | at most one phase is active at any time |
| `HeapAccounting.FinishIsExact` | src/heap.rs:122-136 | a successful finish cannot underflow and returns as peak exactly the maximum live value during the phase, with max(entry, exit) <= peak <= entry + requested and peak <= lifetime peak |
| `HeapAccounting.LiveGrowth` | src/heap.rs:231-271 | only requested bytes can make the true live total grow |
| `HeapAccounting.PhasePeakFollows` | src/heap.rs:231-251 | while a phase is active its peak takes the maximum with every new live total and nothing else changes it |
| `HeapAccounting.StepKeeps` | src/heap.rs:277-304 | every allocator call and phase operation keeps the ledger in agreement with the true account |
| `HeapLock.ProgramMeans` | src/heap.rs:107-136 | run without interruption, the loads and stores of each critical section, snapshots and both ends of a phase included, leave and return what the operation on values does |
| `HeapLock.Serializable` | src/heap.rs:180-206 | under any interleaving of any number of spinning threads, at most one is inside, the ledger equals the completed operations replayed in order, and each of them returned what it returns in that replay |
| `HeapLock.OperationRuns` | src/heap.rs:180-206 | from every reachable state with the lock free any thread can perform any operation to its end, and the run then has exactly that operation more, the ledger and the reply it must have |
| `HeapLock.HolderFinishes` | src/heap.rs:202-206 | whoever holds the lock can always go on, and after the rest of its section gives it back |
| `HeapThreads.ThreadsLedgerIsExact` | src/heap.rs:225-271 | in every reachable state with the lock free, for any number of threads: the ledger is valid exactly if every true total fits in 64 bits, and then live is the sum of the outstanding blocks and every other field the true total or maximum |
| `HeapThreads.SnapshotIsExact` | src/heap.rs:56-62 | a snapshot taken by any thread succeeds exactly after the first allocation request as long as all totals fit, and returns the true totals at its place in the order of the lock |
| `HeapThreads.BeginsAlone` | src/heap.rs:107-120 | a begin by any thread succeeds exactly after the first allocation request, with all totals fitting and no phase active, and then its entry is the true totals; it is refused as already active exactly while another phase is |
| `HeapThreads.ThreadsFinishIsExact` | src/heap.rs:122-136 | a finish by any thread succeeds exactly if all totals fit, does not underflow, and returns as peak the maximum of the true live totals of all threads since the entry, with max(entry, exit) <= peak <= entry + requested |
| `Shuffle.RandomPermutation` | src/engine.rs:1219-1227 | the loop swapping in place yields the arrangement its draws determine, a permutation of 0..n |
| `Shuffle.ScheduleIsPermutation` | src/engine.rs:1219-1227 | every choice vector yields a permutation |
| `Shuffle.ScheduleInjective` | src/engine.rs:1219-1227 | different choice vectors yield different permutations |
| `Shuffle.ScheduleSurjective` | src/engine.rs:1219-1227 | every permutation comes from some choice vector |
| `Shuffle.ShuffleInjective` | src/engine.rs:1222-1225 | the same for any array without repetitions and any starting position of the loop |
| `Shuffle.ShuffleSurjective` | src/engine.rs:1222-1225 | every rearrangement of the first i + 1 places is reached from position i |
| `Rounds.RoundIterations` | src/engine.rs:698-707 | rounds 0 to 9 of a linear sweep take one to ten fifths of the estimate, cut down but at least one iteration, and so on; otherwise the estimate and between -20 and 20 percent of it by the draw, cut towards zero |
| `Rounds.Compensated` | src/engine.rs:758-761 | with overhead the compensated time is at most one nanosecond above what is left of the raw time, and exactly one if nothing is left; without it the raw time, or one if that is zero |
| `Rounds.RecordedMeans` | src/engine.rs:691-770 | a recorded round of the engine holds the drawn order, iterations as above, the observation, and for every benchmark its raw time and that time compensated for these iterations |
| `Rounds.SamplingIsFair` | src/engine.rs:691-707 | for all draws the engine's sampling has permutations as orders, at least one iteration and positive compensated times |
| `Rounds.RunInOrder` | src/engine.rs:712-764 | whatever the order, every benchmark's own times go to its own places of the record and of its samples |
| `Rounds.MeasureRound` | src/engine.rs:691-782 | running the benchmarks in the drawn order fills every place of the record exactly once, with the benchmark's own times |
| `Rounds.MeasureGroup` | src/engine.rs:658-783 | the loop keeps exactly the rounds before the first number at which a stopping check holds, and collects each benchmark's times from them |
| `Rounds.OnlyWallClockCuts` | src/engine.rs:129-141 | a confirming run measures the rounds asked for, or else as many as the group allows, exactly if no wall-clock reading before a round reaches the limit, and otherwise stops at one that does |
| `Rounds.ConfirmingAsks` | src/engine.rs:129-141 | it takes place exactly if that number is at least two, and is a fixed plan of that many rounds |
| `Rounds.RecordedIsWellFormed` | src/engine.rs:712-764 | every kept round has a permutation order, n raw and n compensated values, at least one iteration and positive compensated times |
| `Rounds.ConfirmingRunIsAccepted` | src/inference.rs:156-181 | a confirming run's record passes the malformed-round test always, the unfinished-plan test exactly if uncut, and then the mean test |
| `Rounds.MeanOf` | src/stats.rs:40-58 | the running mean times the number of values is their sum |
| `EngineEvidence.ConfirmedGroupIsSoundExactlyWhen` | src/inference.rs:129-190 | all tests of a confirmed group pass exactly if the loop was uncut, the names differ, every paired analysis exists and every round was cleanly observed |
| `EngineEvidence.MeasuredRecordIsEvidenceExactlyWhen` | src/inference.rs:55-196 | for a whole record whose replicates the engine measured, the validator has no issue exactly if record and replicates agree as they must and every group of every replicate was measured undisturbed in that sense |
| `Enumeration.EnumeratePairs` | src/engine.rs:922-967 | the two loops emit each visited pair whose analysis exists exactly once and nothing else |
| `Enumeration.VisitsOnce` | src/engine.rs:922-967 | every unordered pair is visited in at most one direction, in exactly one if all pairs are compared or the baseline takes part |
| `Enumeration.RecordIsAccepted` | src/inference.rs:134-155 | with distinct names and all analyses the emitted inventory passes the test in both modes, n(n-1)/2 or n-1 entries |
| `Enumeration.AcceptedExactlyWhen` | src/inference.rs:134-155 | the emitted inventory passes exactly if the names are distinct and no analysis is missing |
| `Pairs.AllPairsCount` | src/inference.rs:135-139 | n names have n(n-1)/2 unordered pairs, counted through the sorted keys |
| `Pairs.AcceptedCovers` | src/inference.rs:134-155 | pigeonhole: any full inventory passing the counts, distinctness and membership tests compares every pair exactly once and has distinct names |
| `Pairs.CoversExactlyWhen` | src/inference.rs:134-155 | an accepted inventory of distinct names covers every pair exactly once if and only if it is not baseline-only or has at most two benchmarks |
| `Pairs.AcceptsExactlyInventories` | src/inference.rs:134-155 | the counting test accepts exactly the inventories whose entries name two different benchmarks and, in full mode, compare distinct names with each other exactly once each, in baseline-only mode are one fewer than the names and repeat no pair |
| `Pairs.BaselineComparedExactlyWhen` | src/inference.rs:134-155 | in an accepted baseline-only inventory of distinct names a benchmark is compared with each of the others if and only if every entry has it on one side |
| `Pairs.AcceptedTriangle` | src/inference.rs:134-155 | a baseline-only inventory of four that passes the test and never compares one benchmark with anything |
| `Validator.SortRecognizesPermutations` | src/inference.rs:175-179 | sorting an order and comparing it with 0..n accepts exactly the permutations |
| `Validator.CheckInventory` | src/inference.rs:134-155 | the loops over names and analyses and the counts report exactly the inventories that are not as stated |
| `Validator.FindGroupIssues` | src/inference.rs:129-190 | the issues of one group are exactly its flaws, stated by what an inventory shows, a finished plan, positive means, permutation orders and observed rounds |
| `Validator.FindRunIssues` | src/inference.rs:96-128 | the issues of one replicate are exactly its flaws; the comparison of serialized signatures decides whether both list the same contracts under every group name |
| `Validator.FindRepeats` | src/inference.rs:85-95 | the pass with the inventory set reports exactly whether a group name or a benchmark identity repeats |
| `Validator.FindReplicateIssues` | src/inference.rs:96-191 | the pass over the replicates collects exactly the flaws of every replicate and every group and detects reused run identities |
| `Validator.FindIssues` | src/inference.rs:55-196 | the validator reports exactly the flaws of the record |
| `ValidatorTheorems.SilentExactlyOnEvidence` | src/inference.rs:55-196 | no issue is reported if and only if the record follows the known protocol with a plan within its limits, every replicate is the same binary, plan and timer on the same machine and matches the groups one to one by contract, and every replicate group is finished, cleanly observed and has an inventory that covers what its mode requires |
| `ValidatorTheorems.EvidenceCovers` | src/inference.rs:85-155 | in evidence every replicate group repeats a group of the record and has distinct names; it covers all pairs once exactly if not baseline-only or at most two benchmarks, and in baseline-only mode a benchmark is compared with each of the others exactly if every entry has it |
| `Records.SignatureShares` | src/inference.rs:198-217 | equal workload signatures mean that each group of one side is a group of the other, with the same benchmarks, tags and settings |
| `Records.SignatureExactlyWhen` | src/inference.rs:198-217 | signatures are equal if and only if both records list the same contracts in the same order under every group name |
| `Records.SignatureMatchesExactlyWhen` | src/inference.rs:198-217 | against a record with distinct group names signatures are equal if and only if the groups match one to one by contract |
| `Records.CheckCpuCompatibility` | src/results.rs:315-345 | the loops refuse exactly if the placements differ, or that of some group and of the first group of its name in the other record |
| `Records.SignatureIgnoresOrder` | src/inference.rs:198-217 | groups with distinct names have one signature in whatever order they are recorded |
| `Records.SameContractExactlyWhen` | src/inference.rs:198-217 | two groups share a contract exactly if names, throughput and settings agree and their benchmarks have the same names and tags one by one |
| `Baseline.PassesMeansWithinMargin` | src/inference.rs:250-262 | for bounds in order a verdict passes exactly if the upper bound is within the margin, and each verdict is exactly one placement of the bounds |
| `Baseline.BuildMap` | src/baseline.rs:252-278 | the nested loops build the map in which later entries replace earlier ones |
| `Baseline.BenchMapKeys` | src/baseline.rs:252-278 | a key is in the map exactly if some group holds that benchmark |
| `Baseline.BenchMapHoldsLast` | src/baseline.rs:252-278 | under a key that occurs more than once the map holds the last benchmark |
| `Baseline.Compare` | src/baseline.rs:287-333 | for every iteration order the matched keys get one delta each: its change is that percentage of the baseline mean, it is regressed exactly if the current mean is beyond the baseline mean by more than the margin and the difference stands out from the noise, improved in the mirror image, and neither for a baseline mean next to zero; the counters are the numbers of such keys and the rest, and the missing keys are listed once |
| `Baseline.NewKeys` | src/baseline.rs:335-339 | for every iteration order the keys only in the current record are listed once |
| `Baseline.Assess` | src/baseline.rs:252-377 | the assessment: such deltas, largest change first, counts, missing and new keys, and promotable exactly if no issue was found, the key sets are equal and nonempty and every key has an interval with upper bound within the margin |
| `Baseline.ConfirmationsMean` | src/baseline.rs:346-377 | the confirmed benchmarks are the deltas that have an interval, in their order, each with its interval and the verdict for where its bounds lie |
| `Baseline.PercentMeans` | src/baseline.rs:289-311 | being over the margin in percent is being beyond the baseline mean by that share of it |
| `Baseline.SignificantMeans` | src/baseline.rs:295-308 | the test against two standard errors, multiplied out over both sample counts |
| `Baseline.PromotableExactlyWhen` | src/baseline.rs:346-377 | the length and emptiness tests amount to that condition |
| `Promotion.CompatibilityIssues` | src/inference.rs:219-248 | the comparison is clean exactly if both records are resolved evidence, share no process run, agree on machine, placement and inputs, and match their groups one to one by contract |
| `Promotion.AssessBaseline` | src/baseline.rs:192-377 | the whole assessment of two records in those terms, with that condition as its first part |
| `Promotion.CountsAddUp` | src/baseline.rs:280-339 | regressions + improvements + unchanged + missing is the size of the baseline, and with new instead of missing the size of the current record |
| `Promotion.PromotionIsBacked` | src/baseline.rs:346-377 | a promotable comparison rests on evidence on both sides, and every baseline benchmark is in the current record with a confirmed bound within the margin |
| `Rounds.TimePerMeans` | src/inference.rs:367-375 | a per-iteration time times the iterations is the round's compensated time |
| `ProcessMeans.MeanIn` | src/inference.rs:358-380 | the lookups and the loop over rounds give the mean per-iteration time of the first benchmark of that name in the first group of that name, or nothing exactly if one is missing or a round lacks its time |
| `ProcessMeans.EvidenceIsMeasurable` | src/inference.rs:358-380 | in evidence every benchmark of the record has such a mean in every process |
| `ProcessMeans.PassesGuards` | src/inference.rs:323-332 | the guards let a comparison pass exactly with at least three processes and positive means on both sides |
| `ProcessMeans.OnlyZeroTimesAreRefused` | src/inference.rs:316-332 | for compatible records the means exist on both sides, and the guards before the numerical interval refuse exactly if in some process the benchmark took no time in any round |
| `ProcessTimes.MeasuredTakesTime` | src/inference.rs:358-380 | in evidence whose replicates the engine measured every benchmark of the record took time in every process |
| `ProcessTimes.MeasuredRecordsAreCompared` | src/inference.rs:316-332 | so for two compatible records that the engine measured the guards pass for every common benchmark |
| `ProcessTimes.BlankedIsEvidence` | src/inference.rs:55-196 | evidence stays evidence when all compensated times of one replicate are set to zero |
| `ProcessTimes.BlankedIsRefused` | src/inference.rs:316-332 | from any two compatible records: with the times of one baseline process set to zero they are still compatible and the guards refuse every common benchmark |
| `ProcessTimes.EvidenceMayTakeNoTime` | src/inference.rs:55-196 | a record that passes every test and in which no benchmark of any process took time |
| `BarrierTheorems.ReachableInv` | src/bench.rs:392-432 | for any thread count, schedule and set of failing pins nobody is ever more than one wait away from the barrier's generation, and the count is the number of blocked participants |
| `BarrierTheorems.WorkRunsBetweenTheWaits` | src/bench.rs:405-417 | while a work closure runs, its worker is pinned, every worker has arrived at the first wait, so has the coordinator, and nobody has passed the second |
| `BarrierTheorems.WorkEndsBeforeTheCoordinator` | src/bench.rs:411-427 | when the coordinator is past its second wait every worker's closure has run to the end, exactly for the pinned ones |
| `BarrierTheorems.OutcomeIsDecidedByPins` | src/bench.rs:416-431 | the call returns only if every worker was pinned, and panics at the first that was not |
| `BarrierTheorems.NoDeadlock` | src/bench.rs:473-506 | in every reachable state some participant can move unless the call and all threads have ended |
| `BarrierTheorems.RunsEnd` | src/bench.rs:473-506 | no run with n workers takes more than 11 n + 6 steps |
| `BarrierTheorems.EveryStepCounts` | src/bench.rs:473-506 | every step of every participant lowers what is left to do |
| `BarrierTheorems.WorkPrecedesTimingExactlyWhen` | src/bench.rs:424-427 | for every thread count, schedule and run in which the coordinator has not read the clock, some continuation lets a worker finish all its work before it does, if and only if some worker is pinned |
| `BarrierTheorems.AllWorkMayPrecedeTiming` | src/bench.rs:424-427 | every such run goes on to one in which the clock is still not read and all pinned workers have done all their work |
| `Calendar.SecondsToFields` | src/exclusive.rs:725-764 | the year and month loops compute the date and time fields |
| `Calendar.FieldsOfIsExact` | src/exclusive.rs:725-764 | for every second count the fields are a valid Gregorian date and time whose count is that number |
| `Calendar.FieldsAreUnique` | src/exclusive.rs:725-764 | every valid date and time is the result for its own count |
| `Calendar.DatesFollowEachOther` | src/exclusive.rs:725-764 | day 0 is 1970-01-01 and each day number gives the calendar's next day |
| `Calendar.IsoToSecs` | src/exclusive.rs:766-784 | fields out of their widest range are refused, all others get their second count |
| `Timestamps.SecondsToIso8601` | src/exclusive.rs:725-764 | the method writes the specified text |
| `Timestamps.ChronoNow` | src/engine.rs:1282-1339 | the second copy of the loops writes the same text for every count |
| `Timestamps.ParseIso8601` | src/exclusive.rs:696-723 | accepts exactly the texts of twenty characters with the punctuation in place and a numeral, perhaps with a plus sign, in every place, whose fields are in range, and returns the second they name |
| `Timestamps.ParseInvertsFormat` | src/exclusive.rs:696-764 | reading the text of a count returns it exactly for counts before year 10000; all later texts are refused |
| `Timestamps.TextOrderIsTimeOrder` | src/exclusive.rs:725-764 | up to the end of year 9999 texts compare like the times they show |
| `Timestamps.AcceptedIsCanonicalExactlyWhen` | src/exclusive.rs:696-723 | an accepted text is the text of its time exactly if it has no plus signs, a year from 1970 on and a day its month has |
| `Timestamps.ImpossibleDaysAreRead` | src/exclusive.rs:766-784 | a day beyond the end of its month is accepted and read as a day of the next month |
| `Timestamps.EarlyYearsAreRead` | src/exclusive.rs:766-784 | a year before 1970 is read as 1970, except that days after February of its leap years come out one day later |
| `Holder.WriteHolder` | src/exclusive.rs:324-341 | the pushed lines are the header and one line per field, in order |
| `Holder.ReadHolder` | src/exclusive.rs:354-419 | the loop over the lines computes the specified record, or nothing without file, end mark or version line |
| `HolderTheorems.TextMeans` | src/exclusive.rs:324-341 | for any clock the written text is eleven lines ended by line feeds: the version, nine fields by name with times in whole seconds from the epoch on, and the end mark |
| `HolderTheorems.LinesMean` | src/exclusive.rs:380-385 | line feeds end lines, and what follows the last one is a line if there is anything |
| `HolderTheorems.ReadExactlyWhen` | src/exclusive.rs:354-419 | a file is read exactly if it contains the end mark and some line, up to the white space at its end, is the version |
| `HolderTheorems.ReadingMeans` | src/exclusive.rs:365-418 | every field is what the last line about it says, 0 for a process number that cannot be read, an earlier line's time where one cannot be read, no estimate where the last nonempty one cannot be read, and blank if no line says anything |
| `Holder.RestoredExactlyWhenClean` | src/exclusive.rs:311-419 | reading what was written restores every field, equals signs and an absent ETA included, if and only if no text field has a line break or ends in white space |
| `Holder.TimesRestoredExactlyWhen` | src/exclusive.rs:688-694 | a time survives unchanged exactly if it is a whole second from the epoch to the end of year 9999 |
| `Arguments.NormalizeHarnessArgs` | src/plan.rs:223-242 | the loop computes the normal form or reports a missing value |
| `Arguments.NormalizeIsIdempotent` | src/plan.rs:223-242 | normalizing a normal form changes nothing |
| `Arguments.SeparatedIsJoined` | src/plan.rs:223-242 | option and value as two arguments or joined by an equals sign give the same result in any list, errors elsewhere included |
| `Arguments.ValidateHarnessArgs` | src/plan.rs:251-325 | a command line is accepted exactly if it normalizes, every argument is a switch or a usable known option, none repeats and the options are consistent |
| `ArgumentTheorems.AcceptedExactlyWhen` | src/plan.rs:251-325 | that is, if every argument is one of four switches or gives one of 21 options a nonempty value, a positive number for repetitions, a known format, a percentage for the regression limit, no option twice, no saving beside a baseline, no update or limit without one, and no number of processes beside a repetition of processes |
| `ArgumentTheorems.NormalizeExactlyWhen` | src/plan.rs:223-242 | a list is normalized to another exactly if it consists of options written apart from their values and other arguments, and the other is the same with every option joined to its value |
| `ArgumentTheorems.PlanOptionsMayBeApart` | src/plan.rs:197-242 | every option of the plan may be written apart from its value, anywhere in a list |
| `ArgumentTheorems.ChildGetsTheOthers` | src/lib.rs:870-882 | a child gets every argument, in place, but the eight kinds that the supervisor handles itself |
| `Arguments.AcceptedGivesOnce` | src/plan.rs:83-96 | after that check no plan lookup finds an option twice, and it finds one exactly if it was given |
| `Arguments.ChildArgsAreNormal` | src/lib.rs:870-882 | the arguments passed to a child are their own normal form |
| `Arguments.ChildSeesValues` | src/lib.rs:870-882 | withholding the supervisor's options hides no value of any other option |
| `Plans.Resolve` | src/plan.rs:80-145 | overwriting field after field with early errors equals picking all fields at once and then validating |
| `PlanTheorems.ResolvesExactlyWhen` | src/plan.rs:80-181 | a plan is the result exactly if it is within the limits and every field is decided by its own flag if that is given once, whatever the environment holds, else by its own variable, else by the suite, with no flag given twice; exploring always takes one process and a number may be asked for by a child or a legacy repetition only; confirming takes no legacy repetition; an unknown format in the environment needs a flag beside it |
| `Plans.ChildPlan` | src/lib.rs:870-960 | for all defaults, arguments and environments, a confirming supervisor's child resolves to exactly the supervisor's plan, and fails exactly if the inherited output format is unknown |
| `PlanTheorems.ChildIsTold` | src/lib.rs:931-960 | a child is told that it is one, where to write its result and who launched it, and its supervisor's plan option by option; the output format is left as it was |
| `Plans.FormatStopsChildren` | src/lib.rs:870-882 | the failing family is real: given --format on the command line and an unknown format in the environment, every valid plan resolves in the supervisor and in no child |
| `Plans.ParseMode` | src/plan.rs:31-41 | a text parses to a mode exactly if it is the text of that mode |
| `Ownership.OwnedDescendants` | src/platform.rs:172-187 | the loop ends with exactly the least set that holds the registered pids and is closed under children that are not user threads |
| `Ownership.OwnedPids` | src/platform.rs:164-193 | what a snapshot owns: descendants only for registered workers, and the current process if anything is owned or the owner is excluded |
| `Ownership.ForeignActivity` | src/platform.rs:302-324 | the loop computes the foreign load and the heavy count of the readings |
| `Ownership.HeavyCountsProcesses` | src/platform.rs:311-317 | with one reading per process the heavy count is the number of distinct heavy foreign processes |
| `Ownership.OwnPercentCountsProcesses` | src/platform.rs:311-317 | with one reading per process the owned percentage is the sum over the owned processes that were read, each once |
| `Ownership.ForeignIsBounded` | src/platform.rs:318-323 | foreign load is between zero and the overall load, and adds up with the owned share exactly if that share does not exceed it |
| `Ownership.RegisteringMoreShowsLess` | src/platform.rs:164-193 | registering more launchers or workers never lets a snapshot own less, nor raises its foreign load or heavy count, for any process table |
| `Ownership.OrderDoesNotMatter` | src/platform.rs:311-317 | the result does not depend on the order in which processes are visited |

## Left out

- Admission: writing a file is truncation followed by one indivisible write, so a torn file is an empty one; a counter cut off in the middle of its digits is not modelled.
- Admission: guard files are identified by name; removing a guard file and its inode identity, reparenting of processes, reuse of pids with the same start time, and deletion of tickets by an operator.
- Admission: sleeping, polling callbacks and deadlines are a failure that may happen at any wait; the order in which waiters get the control mutex is free, so progress is claimed for the scan that has it.
- Store: power loss, a data root recorded in a reference, and exporting references to other places; publication names are assumed never to repeat.
- Heap: relaxed atomics are sequentially consistent inside the lock; failures of the system allocator are an input.
- Rounds.MeasureGroup: the arithmetic of the convergence test, cache and stack perturbation, processor time, allocation sampling and the estimate of iterations, because they do not enter the record's shape; the convergence test is an input.
- Rounds.RoundIterations: rounding of floating-point products, and integer overflow for estimates near the 64-bit limit.
- Enumeration.EnumeratePairs: the order of the emitted pairs, on which nothing depends.
- Validator.FindIssues: the wording and the sorting of the issue texts, because what counts is which are raised; nonfinite means, because values are reals.
- Baseline.Assess: the computation of intervals from means (Student quantiles, logarithms), warnings about staleness, and the printed keys of missing and new benchmarks.
- Heap: that callers free only what they allocated is the allocator's own contract and is assumed of every run.
- Barrier: work closures return; a failing thread spawn; memory ordering of the barrier.
- Holder.ReadHolder: file errors other than a missing file, and text that is not UTF-8.
- Plans.Resolve: the texts of its errors, because only success matters to a caller; values are not rounded when they are printed and parsed.
- Ownership.ForeignActivity: the reading on macOS, which depends on ownership itself, and the temperature, memory and trace output of a snapshot.
- Aggregation of repeated runs, bootstrap statistics, reports, charts, the daemon, the server and continuous-integration detection: they would add only easy members or rest on foreign code.
