# Verification of the queue and merge-train core

The toolkit is the single writer for the state of a work queue and of the integration branches. This project models the
parts that keep that state, in Dafny, and proves what they promise.

* **The merge train.** Tasks are squash-committed onto a staging ref. A flush snapshots the ref, validates the snapshot
  outside the lock, and then publishes it or bisects, ejects a culprit, replays the rest, renumbers and starts again. In every
  unlocked window other processes may stage any task, write a marker late, move a record to any state (a terminal one seals it,
  staged or not), add tasks, publish, move the branch and check it out. Some theorems hold whatever they do: the staging ref
  keeps a chain, every task is accounted for, only validated snapshots are published, the flush ends. Others need refs and
  records to agree, and for those it is proved exactly which events keep the agreement.
  `Bisect`, `History`, `TrainSteps`, `TrainInvariant`, `TrainRestack`, `TrainReplay`, `TrainEject`, `TrainCount`, `TrainLand`,
  `TrainDelivery`, `TrainFlush`, `TrainOrder`, `TrainTheorems`, `TrainGreen`, `TrainOutcome`;
  `TrainMachine` is the program in its own form.
* **The git-refs task store.** Optimistic writers with a cache of what they loaded, one compare-and-swap transaction per save,
  tombstones that win over task refs, forced fetch and push between clones.
  `StoreSteps`, `StoreSave`, `StoreRuns`, `StoreEffects`; `StoreMachine` is the backend as a class.
* **The board.** Lifecycle transitions, the incremental blocker counters, the derivation of states from git, and the repair
  pass. `Lifecycle`, `BoardSteps`, `Frontier`, `BoardEffects`, `Derivation`, `Heal`, `HealTheorems`, `HealPlan`; `BoardMachine`
  and `HealMachine` are the loops that edit records in place.
* **The provenance ledger.** An append-only, content-addressed log with any number of instances on one file.
  `Ledger`, `LedgerContents`, and `LedgerMachine` for the class.
* **Smaller algorithms.** The worklist closure (`Closure`), the supersedes digest (`Supersedes`), the bounded prompt block
  (`Handoff`) and the commit split (`CommitSplit`, `CommitSplitMachine`).

Each component has a specification on values and, where the program changes things step by step, methods and loops proved to
compute exactly that specification. The theorems are about the specification.

Modelling conventions. A commit is the path of steps from the root, so ancestry is the prefix order and content addressing is
equality. A blob id is the blob. Validation, cherry-picks, pushes, worktrees, merge evidence and faults of git commands are
arbitrary parameters; validation may give a different answer on every run. The moments at which the integration lock is free are
explicit windows; what other processes do in them is any sequence of the events of `TrainSteps`. Writers of records hold the
queue lock and not the integration lock, so a move or a late marker write can also come inside a critical section of a flush;
the model takes each critical section as one step.

## Where the code differs from what is said about it

Each of these is a lemma below; the model follows the code.

* The bisect is said to need at most ceil(log2 n) validations. It needs floor(log2 n) + 1, so the claim holds exactly when n is
  not a power of two (`Bisect.DocumentedBound`). It is said to return the smallest failing prefix; it can step over an earlier
  failure (`Bisect.StepsOverEarlierFailure`). With a repeatable validation it returns the smallest one exactly when every
  longer prefix that a search aiming at it tries fails too (`Bisect.FindsSmallestIff`).
* A red flush looks a commit's record up by commit, and else by position. A staged task may be abandoned, which frees its
  position for the next one: the flush then ejects an innocent task whose commit stays staged (`TrainEject.WrongTaskEjected`).
  The lookup is right exactly when the commit still has its record or nobody has taken the position (`TrainReplay.RightIff`).
* A flush is said not to mark a task as flushed that was staged after its snapshot. It credits records by id, and a task that
  is aboard may be taken up and staged again during validation: it is then returned as flushed and leaves the train with a
  merge commit that origin does not have (`TrainGreen.RestagedTaskIsFlushed`). Nobody is swept along like this exactly when
  every record named ends with a commit inside the snapshot, and all of them have such a commit at every moment exactly when
  none is staged or marked anew (`TrainGreen.GreenFlushDeliversIff`, `TrainDelivery.WindowDeliversIff`).
* A save remembers its pruned refs for the next push before the transaction is submitted, and nothing takes a ref off that list
  when its task comes back. So after a rejected save, or when a pruned task is saved again, the next push can delete a live task
  from origin (`StoreRuns.RejectedSaveForgetsLiveTask`, `StoreRuns.RevivedTaskLeavesOrigin`; exact condition in
  `StoreRuns.SaveThenPushDeliversIff`).
* Manual moves to ready and blocked do not look at the counter; a move keeps states and counters in agreement exactly when it
  does not override the counter (`Frontier.ApplyKeepsTruth`, a legal override in `Frontier.LegalOverride`).
* A repair pass is safe only from counters that are not too low (`HealTheorems.LowCounterIsReleasedEarly`,
  `HealTheorems.ReleasedEarlyIff`), and it writes recounts made before its own earlier changes
  (`HealTheorems.RecountIsExactIff`, `HealTheorems.LateRecountIsTooHigh`). A recount of a ready record sets the record back to
  ready when another writer has moved it on, whatever it still waits for (`HealTheorems.OvertakenRecount`, exact condition in
  `HealTheorems.FixPromotesOnlyFreeIff`).
* The derivation of states recurses into blockers although one look at each blocker's own facts gives the same answer
  (`Derivation.RecursionIsExact`); it fails to return exactly on boards that are cyclic as far as it follows them
  (`Derivation.ReturnsExactlyWhenAcyclic`, a task that blocks itself in `Derivation.SelfBlockerNeverReturns`).
* The ledger's address joins its parts with unescaped colons. An accepted request has another accepted one at its address
  exactly when a colon of its source or task, or a kind inside its key, lets the boundary move (`Ledger.CollidesIff`). An empty
  `ref` counts as absent for validation but as present for the address (`Ledger.TimeIsAddressedIff`,
  `Ledger.EmptyRefHidesTheSecond`). A missing field is said to show as a mismatch; it does exactly when the field did not read
  "None" (`LedgerContents.MissingFieldShowsIff`).
* The digest promises a conflict marker for cycles; a cycle next to one unrelated record is not reported
  (`Supersedes.HiddenCycle`); one is reported exactly when a reference of the group dangles or not exactly one record is left
  unsuperseded (`Supersedes.CycleIsReportedIff`).
* A process is said not to be among its own descendants; it is exactly when its line of parents leads back to it
  (`Closure.OwnDescendantIff`).

## Model

| member | source | states |
|---|---|---|
| `Bisect.Locate` | src/aet/train.py:369-409 | The low/high loop returns exactly the index and the number of validations of the search that the next rows speak about. |
| `Bisect.Boundary` | src/aet/train.py:375-409 | For any validation, even one that changes its mind: the index returned failed during this search and the prefix before it passed or does not exist; no index means the whole batch passed during this search. |
| `Bisect.FindsSmallestIff` | src/aet/train.py:338-400 | With a repeatable validation whose smallest failing prefix is f, the search returns f exactly when every index at or above f that a search aiming at f tries fails. |
| `Bisect.FirstFailure` | src/aet/train.py:338-341 | If failures persist in longer prefixes, the search returns k exactly when k is the smallest failing prefix. |
| `Bisect.StepsOverEarlierFailure` | src/aet/train.py:338-341 | Without persistence the smallest failing prefix can be missed: three commits of which only the second passes yield 3. |
| `Bisect.Cost` | src/aet/train.py:373-400 | At most floor(log2 n) + 1 validations, and an all-green chain takes exactly that many. |
| `Bisect.DocumentedBound` | src/aet/train.py:341-341 | The stated bound ceil(log2 n) holds for every chain of n commits and every validation exactly when n is not a power of two. |
| `History.BetweenIsExact` | src/aet/train.py:312-325 | The staged commits are exactly those reachable from the tip and not from the base. |
| `History.MergeBaseIsDeepest` | src/aet/train.py:290-309 | Every common ancestor is an ancestor of the merge base. |
| `TrainInvariant.StageKeepsInvariant` | src/aet/integrate.py:582-819 | Staging keeps the one-to-one correspondence of markers and staged commits exactly when the rebase conflicted or the task is on the board, may await its merge and is not on the train; it then lengthens the chain by one. |
| `TrainInvariant.ApplyKeepsIff` | src/aet/cli/aet_state.py:640-686 | An event of another process keeps markers and staged commits in agreement exactly when it is orderly: a staging finds a task that may be staged or conflicts; a late marker write finds nothing to mark or repeats the tip's marker; a record that is sealed is off this train. Any other transition of a staged record is harmless. |
| `TrainInvariant.WindowKeepsIff` | src/aet/integrate.py:582-819 | Through any window, refs and records agree at every moment exactly when every event is orderly where it happens. |
| `TrainInvariant.OrderlyWindowKeeps` | src/aet/integrate.py:582-819 | An orderly window leaves everybody aboard at their commit, and newcomers above the old tip. |
| `TrainInvariant.WindowKeepsChain` | src/aet/integrate.py:747-760 | Whatever happens in a window, disorderly or not, the staged chain is still there, forks off where it did, and has grown by at most one commit per event. |
| `TrainRestack.EjectKeepsChain` | src/aet/train.py:614-777 | Whatever the records say, a red round leaves a chain that forks off where it did and is strictly shorter, and no ref exactly when no commit is left. |
| `TrainReplay.RightIff` | src/aet/train.py:623-637 | On any board, the lookup by commit and then by position finds a record staged at that commit, or none when there is none, exactly when the commit has a record or the position is not taken. |
| `TrainReplay.AgreementIsHarmless` | src/aet/train.py:623-664 | Where refs and records agree, every lookup of a red round finds the record of its commit; the position is not consulted. |
| `TrainReplay.RanksAreHarmless` | src/aet/train.py:623-664 | Even with records withdrawn, every lookup is right as long as positions are ranks on the chain, as a renumbering leaves them. |
| `TrainReplay.EjectFollowsPlan` | src/aet/train.py:639-774 | With right lookups and one record per commit, the culprit and replay loops do what the plan of the cherry-picks says for each record, and the ids reported as conflicts are exactly those of the records whose commits conflicted. |
| `TrainEject.EjectKeepsInvariant` | src/aet/train.py:614-777 | A red round with right lookups keeps every marker on the chain and in order, numbers positions 1..n along it, and restores the agreement of refs and records wherever it held. |
| `TrainEject.EjectSettlesRecords` | src/aet/train.py:639-774 | Per record, when lookups are right and markers on the chain: off the train nothing changes; the culprit leaves as a batch failure; below it commits stay and positions become ranks; above it a record leaves as a restack conflict or carries the rank of its new commit; no other field and no other ref changes. |
| `TrainEject.RanksAreFollowable` | src/aet/train.py:623-774 | A red round on a board that has lost records, whose remaining markers are on the chain with their ranks as positions, meets the condition of the two rows above. |
| `TrainEject.WrongTaskEjected` | src/aet/train.py:635-647 | Stage a, abandon a, stage b: when the bisect blames a's commit, the round ejects b, and b's commit is all that stays on the staging ref. |
| `TrainEject.UnsavedRoundLosesAgreement` | src/aet/train.py:776-777 | The ref moves before the records are saved: a red round from agreement whose save is refused leaves a chain, but no agreement. |
| `TrainCount.WindowCounts` | src/aet/integrate.py:798-819 | For any events: the tasks aboard after a window, and those sealed in it while aboard, are those aboard before it and those that came aboard in it, counted with multiplicity. |
| `TrainCount.EjectConserves` | src/aet/train.py:639-751 | From any state: whoever is not aboard after a red round was ejected as the culprit, of whom there is at most one, or dropped as a restack conflict. |
| `TrainCount.DroppedAreReported` | src/aet/train.py:688-746 | Whoever a restack takes off the train is among the conflicts it reports. |
| `TrainCount.CoveredIsExact` | src/aet/train.py:464-481 | The ids taken with a snapshot name exactly the records whose staged commit the snapshot contains, each once. |
| `TrainCount.CloseConserves` | src/aet/train.py:850-858 | From any state: whoever is not aboard after a landing was aboard and named by it, either with a commit inside the published snapshot or, swept along, with another one. |
| `TrainCount.CoveredAreLanded` | src/aet/train.py:850-858 | While the ids still name the records of the snapshot, a landing lands exactly them, once each, and sweeps nobody along. |
| `TrainLand.CloseKeepsChain` | src/aet/train.py:832-848 | Landing leaves as the chain what was staged after the snapshot, on top of the snapshot, and no ref when that is nothing. |
| `TrainLand.CloseKeepsInvariantIff` | src/aet/train.py:832-882 | From agreement, a landing leaves refs and records in agreement exactly when its ids name, of the records aboard, those whose commits are within the snapshot. |
| `TrainLand.UnsavedLandingLosesAgreement` | src/aet/train.py:849-858 | Likewise a landing from agreement whose save is refused has published, and leaves a chain but no agreement. |
| `TrainDelivery.CreditIsPublishedIff` | src/aet/train.py:850-856 | A record paid for by a landing, with the commit of its own marker, or with the snapshot when it has none, has a published merge commit exactly when it is off the train or its marker is inside the snapshot. |
| `TrainDelivery.CloseLeaves` | src/aet/train.py:850-882 | The fate of every record at a landing: one it names loses its marker and gets the commit that its own marker named as merge commit (the snapshot if it had none), every other field but the state as before; it is newly sealed as merged exactly when that commit is published, it awaits its merge and closing is not refused, and stays on the board in its state otherwise. Any other record stays as it is. |
| `TrainDelivery.CloseInventsNothing` | src/aet/train.py:850-882 | Conversely, every record on the board or newly sealed after a landing comes from one that was on the board, untouched or paid for like that. |
| `TrainDelivery.SealedIsPublished` | src/aet/train.py:859-882 | Whatever has happened before, a landing seals nothing as merged whose merge commit is not on the published branch. |
| `TrainDelivery.SweepsNobodyIff` | src/aet/train.py:850-856 | When the records it names carry no marker of another branch, a landing sweeps nobody along exactly when each of them that is aboard has its commit inside the snapshot. |
| `TrainDelivery.ApplyDeliversIff` | src/aet/integrate.py:798-819 | On a chain that holds the snapshot, where every named record aboard has a commit inside it, an event of another process keeps that so exactly when it neither stages a named task anew nor writes it a marker from outside. |
| `TrainDelivery.WindowDeliversIff` | src/aet/integrate.py:798-819 | Through any window, every named record aboard has its commit inside the snapshot at every moment exactly when no event restages one of them where it happens. |
| `TrainFlush.AfterWindows` | src/aet/train.py:538-551 | After the windows of validation and of bisect, whatever happened in them, the snapshot is still on the chain and its fork point has not moved. |
| `TrainFlush.AttemptKeeps` | src/aet/train.py:453-788 | One pass through flush, whatever others do: the chain and the balance of tasks are kept, at most one culprit leaves, nobody is dropped unreported, and going round again costs at least one commit, which is what makes the recursion end. |
| `TrainOrder.StillCovers` | src/aet/train.py:464-481 | After an orderly window the ids taken with the snapshot still name exactly its records. |
| `TrainOrder.CulpritIsFound` | src/aet/train.py:635-637 | Where refs and records agree, the record of the blamed commit is found and is the one that is ejected. |
| `TrainOrder.OrderlyAttemptIsExact` | src/aet/train.py:453-788 | While others keep order: the agreement is restored, nobody was withdrawn or swept along, the ids returned as flushed are those landed, the conflicts returned are those dropped, and another attempt follows exactly one culprit. |
| `TrainTheorems.FlushConserves` | src/aet/train.py:453-910 | Over the whole recursion and whatever others do, every task that was or came aboard was landed with a published commit, swept along by a landing that did not publish its commit, ejected as culprit, dropped as conflict and reported, sealed by others, or is still aboard: exactly one of these each time it came aboard. |
| `TrainTheorems.FlushAgreesIff` | src/aet/train.py:453-788 | Throughout a flush that starts in agreement, refs and records agree exactly when every event of the other processes is orderly; the flush itself never breaks the agreement. |
| `TrainTheorems.OrderlyFlushIsTruthful` | src/aet/train.py:453-910 | While others keep order, the ids a flush returns as flushed are those it landed with a published commit, nobody is swept along, and the conflicts it returns are those it dropped. |
| `TrainTheorems.EmptyFlush` | src/aet/train.py:459-461 | While others keep order, a flush that ends empty flushed nothing and leaves nobody aboard: everyone was a culprit or a conflict. |
| `TrainTheorems.FlushPublishesOnlyValidated` | src/aet/train.py:790-835 | Origin ends where other people left it or, when the flush is green, at the staging tip that its last attempt took as the snapshot, which the very last validation accepted as a whole; the local branch is moved to nothing but such a snapshot. |
| `TrainTheorems.MovedBranchHalts` | src/aet/train.py:553-822 | If the local branch moved during the validation, or during the bisect of a flake, the flush halts and returns the state exactly as the windows left it, whatever the retry says. |
| `TrainTheorems.QuietFlushCost` | src/aet/train.py:538-788 | With a repeatable validation and nobody interfering, a chain of n commits ends green or empty within the sum over m = 1..n of floor(log2 m) + 2 validations. |
| `TrainTheorems.InvIsOneToOne` | src/aet/train.py:464-481 | The invariant means: every commit above the fork point has a record, every record on the train has its commit there, and positions order records as the chain orders commits. |
| `TrainTheorems.RebuildRecoversTipIff` | src/aet/train.py:129-174 | With markers on the chain, the records determine the staging ref exactly when its tip still has a record, even if records below it are gone. |
| `TrainTheorems.EveryRun` | src/aet/train.py:418-910 | Over every sequence of flushes and of events of other processes, orderly or not: the staging ref holds a chain of commits made here on top of what is published, and every coming aboard is matched by exactly one of the six fates of `TrainTheorems.FlushConserves`. |
| `TrainTheorems.RunAgreesIff` | src/aet/train.py:418-910 | Over every run that starts in agreement, refs and records agree at every moment exactly when every event of the other processes is orderly. |
| `TrainTheorems.EveryOrderlyRun` | src/aet/train.py:418-910 | After every orderly run, markers and staged commits correspond one to one in position order and the ref can be rebuilt from the records. |
| `TrainGreen.FlushLands` | src/aet/train.py:453-910 | Over the whole recursion and whatever others do: a green flush ends with the landing of the snapshot its last attempt took, credits the ids taken with it, and its landed and swept tasks are those of that landing; any other flush lands and sweeps nobody. |
| `TrainGreen.GreenFlushSettles` | src/aet/train.py:850-882 | Whatever others do during a green flush: every record on the board when it lands that it returns as flushed ends without marker and with its own staged commit as merge commit, sealed exactly when that commit is on origin, it awaits its merge and closing is not refused; every other record stays exactly as it is. |
| `TrainGreen.GreenFlushInventsNothing` | src/aet/train.py:850-882 | And nothing is on the board or newly sealed after a green flush that was not on the board when it landed. |
| `TrainGreen.GreenFlushDeliversIff` | src/aet/train.py:464-481 | For a green flush on a board with distinct ids, from its last snapshot to the landing: the tasks it returns as flushed keep commits inside the snapshot at every moment exactly when none is restaged; it sweeps nobody along exactly when those aboard have such commits at the landing; so without restaging all it flushed from the train is published. |
| `TrainGreen.OrderlyGreenFlush` | src/aet/train.py:464-481 | While others keep order, a task aboard at the landing is returned as flushed exactly when its commit is on origin; those staged after the snapshot stay as they are and are not on origin. |
| `TrainGreen.RestagedTaskIsFlushed` | src/aet/train.py:850-856 | By legal moves from agreement: a task taken up and staged again during validation is returned as flushed, credited with a commit that origin does not have, and nobody is left aboard for that commit on the staging ref. |
| `TrainOutcome.FlushLandsIff` | src/aet/train.py:538-835 | Over the whole recursion: a flush is green exactly when the snapshot of its last attempt was accepted, at once or by a retry after a bisect without culprit, the branch had not moved, origin could be reached and the push is a fast-forward. A halted flush leaves everything as the windows left it, but for the local branch, which has advanced to an accepted snapshot even if the push failed. |
| `TrainOutcome.LandingIff` | src/aet/train.py:790-835 | The landing step alone: green exactly under that condition; the local branch ends at the snapshot unless it moved or is checked out. |
| `TrainOutcome.StageSettlesRecords` | src/aet/integrate.py:582-819 | Record by record and ref by ref: a conflict parks the first record with the id, with its reason, and stages nothing; otherwise the commit goes on top of the train, or of the branch, and that record, if in progress or awaiting its merge, gets it with the next position; nothing else changes. |
| `TrainOutcome.LastWinsByCommit` | src/aet/train.py:623-633 | The commit table of a red round holds, for each commit, the last record that names it. |
| `TrainOutcome.LastWinsByPosition` | src/aet/train.py:623-633 | The position table holds, for each position, the last record that has it. |
| `TrainOutcome.LatestIsLastOfHighest` | src/aet/train.py:157-165 | A lost ref is rebuilt from the last record of the highest position. |
| `TrainOutcome.CoveredKeepsOrder` | src/aet/train.py:464-481 | The ids taken with a snapshot are in the order of the board. |
| `TrainMachine.MergeTrain.NextPosition` | src/aet/integrate.py:801-807 | The position given out is one above the highest on this train. |
| `TrainMachine.MergeTrain.Park` | src/aet/integrate.py:646-657 | A rebase conflict parks exactly that task, with its reason, and stages nothing. |
| `TrainMachine.MergeTrain.Mark` | src/aet/integrate.py:767-819 | Exactly the staged task's record gets the marker and awaits its merge, unless it is missing or its state refuses. |
| `TrainMachine.MergeTrain.Integrate` | src/aet/integrate.py:582-819 | The staging steps, in order, have the effect the staging theorems speak about. |
| `TrainMachine.MergeTrain.IndexRecords` | src/aet/train.py:623-633 | The two lookup tables hold the last record per commit and per position of this train. |
| `TrainMachine.MergeTrain.Replay` | src/aet/train.py:660-702 | The cherry-pick loop, with its lookups by commit and by position, leaves the tip, the records and the reported conflicts of the replay that the theorems speak about. |
| `TrainMachine.MergeTrain.Renumber` | src/aet/train.py:767-774 | Every record on the new chain gets the rank of its commit, and no other record changes. |
| `TrainMachine.MergeTrain.RestackSurvivors` | src/aet/train.py:635-751 | Whoever is found for the culprit leaves the train, and everything above it, including what was staged since the snapshot, is replayed in order. |
| `TrainMachine.MergeTrain.Eject` | src/aet/train.py:621-777 | The red critical section in place has the effect of the ejection theorems, on any board, and returns exactly the conflicts the specification reports. |
| `TrainMachine.MergeTrain.CloseCovered` | src/aet/train.py:850-882 | The queue keeps exactly the records whose closing is refused or that are not covered; the others are sealed as merged. |
| `TrainMachine.MergeTrain.Land` | src/aet/train.py:790-848 | The green critical section, with its moved-branch and failed-push exits, has the effect of the landing theorems. |
| `TrainMachine.MergeTrain.Suspect` | src/aet/train.py:541-551 | A red snapshot is bisected over its staged commits, or not at all when no worktree can be made. |
| `TrainMachine.MergeTrain.RetrySnapshot` | src/aet/train.py:553-613 | Without a culprit the snapshot is run once more and lands or halts accordingly. |
| `TrainMachine.MergeTrain.Repair` | src/aet/train.py:538-777 | The red path, with its unlocked window, is retry or ejection as specified. |
| `TrainMachine.MergeTrain.Validate` | src/aet/train.py:453-613 | Snapshot under the lock, validation outside it, then the green or the red path, with any of the modelled events in each window. |
| `TrainMachine.MergeTrain.Flush` | src/aet/train.py:418-910 | The recursive flush on mutable state computes exactly the report and the state that the flush theorems are about, including the union of all conflicts. |
| `TrainMachine.MergeTrain.RebuildFromRecords` | src/aet/train.py:129-174 | The staging ref is set to the commit of the record with the highest position, or left alone when there is none. |
| `StoreSave.NoLostUpdate` | src/aet/backends/git_refs_backend.py:299-359 | Between any two moments of any number of writers: a task ref gets a new value only from a writer that had loaded exactly its old value; a ref disappears only if its writer had loaded it, dropped it from its queue and it had not moved since the read; tombstones and all other refs stay. |
| `StoreSave.SaveIsAtomic` | src/aet/backends/git_refs_backend.py:336-350 | Either every changed task and every prune of a save takes effect or no ref moves. |
| `StoreSave.SaveAcceptedIff` | src/aet/backends/git_refs_backend.py:299-350 | A save goes through exactly when each changed task still has the value this writer loaded and prunes and envelope still have the values just read. |
| `StoreRuns.DisjointSavesCommute` | src/aet/backends/git_refs_backend.py:299-359 | Two writers that read the same refs and change different tasks both succeed, in either order, with the same result. |
| `StoreRuns.LoneSaveRewrites` | src/aet/backends/git_refs_backend.py:301-359 | For one writer a save always succeeds, skipping unchanged tasks leaves the same refs as rewriting the whole queue, and the cache is the store again. |
| `StoreRuns.LoadAfterSave` | src/aet/backends/git_refs_backend.py:245-359 | Loading after a save returns the saved tasks exactly when none of them carries a tombstone. |
| `StoreRuns.LoneWriterRefines` | src/aet/backends/git_refs_backend.py:245-583 | Over any sequence of load, save, seal, delete and push by one writer, the cached store behaves as a plain map from ids to tasks with a set of settled ids. |
| `StoreRuns.LoadSynchronizes` | src/aet/backends/git_refs_backend.py:257-284 | The first load of a readable store makes the cache equal to the live task refs. |
| `StoreRuns.RunKeepsTombstones` | src/aet/backends/git_refs_backend.py:365-439 | Under any run of loads, saves, seals, deletes, fetches and pushes of any writers in any clones, sealed sets only grow, everywhere. |
| `StoreRuns.SettledStaysSettled` | src/aet/backends/git_refs_backend.py:252-273 | Once a clone holds a tombstone no later load there returns the task, whatever stale clones push. |
| `StoreRuns.TombstoneSpreads` | src/aet/backends/git_refs_backend.py:537-541 | A tombstone reaches another clone by one push of updates and one fetch, whatever happens around them and whether or not a deletion is ever delivered. |
| `StoreRuns.PushDeliversIff` | src/aet/backends/git_refs_backend.py:410-439 | A complete push leaves every live task of the clone on origin exactly when no remembered deletion names one. |
| `StoreRuns.SaveThenPushDeliversIff` | src/aet/backends/git_refs_backend.py:287-439 | For every read, refs, writer and queue, when no live ref was remembered as deleted before: after the save none is, and a complete push leaves every live task on origin, exactly when the save was accepted and brings back no task remembered as deleted, or was refused and no task it meant to prune is still live. |
| `StoreRuns.SteadySaveForgetsIff` | src/aet/backends/git_refs_backend.py:317-350 | For a queue that holds no task remembered as deleted, the condition is that the save was accepted or no task it meant to prune is still live. |
| `StoreRuns.RejectedSaveForgetsLiveTask` | src/aet/backends/git_refs_backend.py:317-350 | A rejected save: its prune is remembered although the task lives on, and the next push takes it off origin. |
| `StoreRuns.RevivedTaskLeavesOrigin` | src/aet/backends/git_refs_backend.py:301-359 | An accepted save: a pruned task that is saved again before the push is live in the clone, and the push takes it off origin. |
| `StoreEffects.LoadIs` | src/aet/backends/git_refs_backend.py:257-284 | A load remembers exactly the readable tasks without tombstone, deletes exactly the refs with one, and leaves unreadable refs where they are. |
| `StoreEffects.UnreadableIsSpared` | src/aet/backends/git_refs_backend.py:274-323 | No save of a writer that could not read a ref overwrites or prunes it. |
| `StoreEffects.SealIs` | src/aet/backends/git_refs_backend.py:524-577 | A seal of an open task replaces its ref by a tombstone holding the very record, forgets it in the cache and remembers the ref for the next push; for any other id it is a load and remembers nothing; no other ref changes. |
| `StoreEffects.SealThenPush` | src/aet/backends/git_refs_backend.py:426-437 | A complete push after a seal takes the task ref off origin and leaves the tombstone with the record there. |
| `StoreEffects.RemembersIff` | src/aet/backends/git_refs_backend.py:317-437 | Among all actions of any writer in any clone, a writer remembers a deletion afterwards exactly when it did before or its own seal or prune adds it, and the action is not its own complete push. |
| `StoreEffects.RemembersUntilPushed` | src/aet/backends/git_refs_backend.py:426-437 | Over every run, a remembered deletion stays remembered at every moment exactly when its writer makes no complete push. |
| `StoreEffects.SealedTaskLeavesOrigin` | src/aet/backends/git_refs_backend.py:426-577 | However many actions of anybody come in between, the first complete push of the writer that sealed a task takes its ref off origin, where its tombstone then is. |
| `StoreEffects.FetchIs` | src/aet/backends/git_refs_backend.py:365-374 | For tasks, tombstones and the envelope alike, a fetch takes what origin has and keeps the rest. |
| `StoreEffects.PushIs` | src/aet/backends/git_refs_backend.py:410-439 | For every ref: a push that gets anywhere makes origin take what the clone has and keep the rest; a complete one then deletes exactly the remembered task refs. |
| `StoreEffects.SavedEnvelope` | src/aet/backends/git_refs_backend.py:326-350 | After an accepted save the envelope is the writer's with the current schema version and without the hashes, every other key kept, unless the one it read was up to date already. |
| `StoreEffects.SealedEnvelope` | src/aet/backends/git_refs_backend.py:575-577 | After a seal of an open task the stored envelope is brought up to date in the same way. |
| `StoreEffects.EnvelopeRoundTrip` | src/aet/backends/git_refs_backend.py:283-334 | Load, save, load: no key of the envelope is lost or changed but the version, the hashes and the legacy epic. |
| `StoreMachine.Repository.UpdateRefs` | src/aet/backends/git_refs_backend.py:339-350 | A transaction is applied completely when every line finds its expected value and no ref occurs twice, and not at all otherwise. |
| `StoreMachine.GitRefsBackend.Load` | src/aet/backends/git_refs_backend.py:257-285 | The load loop reaps refs with tombstones and skips unreadable ones; the cache ends as exactly the live, readable refs, and on a readable store the queue lists each of them once. |
| `StoreMachine.GitRefsBackend.BuildUpdates` | src/aet/backends/git_refs_backend.py:299-312 | The update lines are those of the changed tasks, against the loaded values. |
| `StoreMachine.GitRefsBackend.BuildPrunes` | src/aet/backends/git_refs_backend.py:314-323 | The prune lines are those of loaded tasks that left the queue, against the current values, and each is remembered at once. |
| `StoreMachine.GitRefsBackend.Save` | src/aet/backends/git_refs_backend.py:287-359 | A save submits exactly the transaction the store theorems speak about and updates the cache only when git accepts it. |
| `StoreMachine.GitRefsBackend.Refresh` | src/aet/backends/git_refs_backend.py:352-359 | The cache follows the accepted transaction line by line. |
| `StoreMachine.GitRefsBackend.Seal` | src/aet/backends/git_refs_backend.py:548-577 | A live task's ref is replaced by its tombstone in one transaction; a task that is not live is reported and nothing but the reaping load happens. |
| `StoreMachine.GitRefsBackend.DeleteTaskRef` | src/aet/backends/git_refs_backend.py:506-518 | Exactly that task ref and its cache entry go. |
| `StoreMachine.GitRefsBackend.Fetch` | src/aet/backends/git_refs_backend.py:365-374 | Fetched refs overwrite local ones and delete none. |
| `StoreMachine.GitRefsBackend.Push` | src/aet/backends/git_refs_backend.py:410-439 | Updates first, then the remembered deletions, which are forgotten exactly when everything arrived. |
| `Lifecycle.EnteredFrom` | src/aet/queue.py:425-438 | From which states each state may be entered: abandoning from every live one, merging only from awaiting the merge, in progress also straight from planned. |
| `Lifecycle.ReachesIff` | src/aet/queue.py:425-438 | From a state that is not terminal, legal transitions lead to every state but `planned`; from a terminal one, to none. |
| `Lifecycle.EveryMergeWasWork` | src/aet/queue.py:425-438 | Every legal path into `merged` comes from `awaiting_merge`, and through `in_progress` unless it began at `awaiting_merge`. |
| `Frontier.BuildBlocksInverts` | src/aet/queue.py:511-519 | After the rebuild, `blocks` is the inverse of `blocked_by` with multiplicity. |
| `Frontier.DependentsKeepOrder` | src/aet/queue.py:511-519 | Dependents are listed in the order of the queue. |
| `Frontier.IntakeCounts` | src/aet/plan_parser.py:494-507 | The counter given at intake is the number of `blocked_by` entries that name no settled task. |
| `Frontier.AdmitKeepsInv` | src/aet/plan_parser.py:494-532 | Adding a plan keeps every counter and every `blocks` list exact. |
| `Frontier.ReingestKeepsInv` | src/aet/cli/sprint.py:100-166 | Reading the plan of a task without run state again keeps every counter and every `blocks` list exact; one that has run is left alone. |
| `Frontier.SettlingMovesFrontier` | src/aet/cli/aet_state.py:657-673 | When a task settles, every other counter becomes the number of its unsettled blockers, and a waiting task is released, with its true from-state, exactly when the settling task was its last blocker. |
| `Frontier.ApplyKeepsInv` | src/aet/cli/aet_state.py:585-683 | Every requested transition, accepted or refused, ordinary or repair, keeps counters and inverse exact. |
| `Frontier.ApplyKeepsTruth` | src/aet/cli/aet_state.py:566-582 | A transition keeps "blocked means waiting, ready means free" exactly when it does not block a free task or ready a waiting one. |
| `Frontier.LegalOverride` | src/aet/cli/aet_state.py:566-582 | An ordinary, permitted move makes a task ready while its blocker is being worked on. |
| `BoardEffects.MoveHappensIff` | src/aet/cli/aet_state.py:561-640 | A requested move changes the board exactly when the task is in the state the caller names, the table or a repair allows the move, and, for `merged`, there is evidence; a refused one changes nothing. |
| `BoardEffects.MoveIs` | src/aet/cli/aet_state.py:642-673 | An admissible move changes the state and adds one history entry with its from-state, to-state and actor; a terminal one takes the task off the board and settles it. |
| `BoardEffects.RunSettlesIff` | src/aet/cli/aet_state.py:561-683 | Over every run, a task has settled exactly when it had before or some command of the run was an admissible move of it to `abandoned` or, on evidence, to `merged`. |
| `BoardEffects.MergedOnlyOnEvidence` | src/aet/cli/aet_state.py:571-640 | In a run that has no evidence for a task and does not abandon it, the task never settles, repairs included. |
| `BoardEffects.EveryRunIsChronicled` | src/aet/cli/aet_state.py:650-673 | Over every run each history is unbroken: it begins at intake, each entry starts where the one before ended, and the last ends at the record's state. |
| `BoardEffects.MentionIs` | src/aet/cli/aet_state.py:661-673 | One mention of a dependent drops its counter by one if it is not zero and releases it exactly when it waits and nothing is left to wait for; nothing else changes. |
| `BoardEffects.AdmitIs` | src/aet/plan_parser.py:494-532 | A plan whose id is neither live nor settled is on the board afterwards, last, with its own blockers, ready exactly when each is settled or terminal, blocked otherwise; nobody else changes but in `blocks`; any other plan changes nothing. |
| `BoardEffects.ReingestIs` | src/aet/cli/sprint.py:100-166 | A plan read again replaces the blockers of a task that has not run and says whether it is free; a task that has run is left alone; nobody else changes but in `blocks`. |
| `Frontier.EveryRunIsExact` | src/aet/cli/aet_state.py:657-673 | Over every run of intakes, re-reads, changes of run state and transitions each counter equals the count of unsettled blockers and `blocks` is the inverse. |
| `Frontier.EveryRunIsTruthfulIff` | src/aet/cli/aet_state.py:566-673 | Over every run, no task is ever ready with an unsettled blocker or blocked without one, at any moment, exactly when no command of the run overrides the counter. |
| `Frontier.SomebodyIsFree` | src/aet/queue.py:623-638 | On a closed, acyclic board with work left and truthful states some task is not blocked and waits for nobody. |
| `BoardMachine.WorkBoard.BuildBlocks` | src/aet/queue.py:511-519 | The two in-place passes leave, on every record, the list of its dependents in queue order, once per mention. |
| `BoardMachine.WorkBoard.CountPending` | src/aet/plan_parser.py:498-505 | Blockers without positive evidence are counted; on a sound board that is the number of unsettled ones. |
| `BoardMachine.WorkBoard.Admit` | src/aet/plan_parser.py:494-532 | Intake in place is the intake of the theorems; a live or settled id is not added again. |
| `BoardMachine.WorkBoard.Reingest` | src/aet/cli/sprint.py:100-166 | Re-reading in place is the re-read of the theorems; a task whose state, branch, worktree, merge commit or integration branch says that it has run is left alone. |
| `BoardMachine.WorkBoard.ReleaseAll` | src/aet/cli/aet_state.py:661-673 | The release loop over `blocks`, mention by mention, is the release of the theorems. |
| `BoardMachine.WorkBoard.Apply` | src/aet/cli/aet_state.py:585-683 | A transition is performed exactly when the caller's from-state is current, the table or a repair allows it and `merged` has evidence; a terminal task releases its dependents and leaves the board. |
| `BoardMachine.WorkBoard.NextUnblocked` | src/aet/queue.py:623-628 | On any board the first ready task is returned, if there is one; on a sound board with truthful states all its blockers have settled. |
| `Derivation.EvidenceSurvives` | src/aet/cli/aet_state.py:227-255 | Merge evidence is not lost while the target branch only moves forward. |
| `Derivation.EvidenceIff` | src/aet/cli/aet_state.py:210-255 | There is evidence exactly when some commit on the target that is not the base is the recorded merge commit or, with a recorded base, the branch tip. |
| `Derivation.NothingToShow` | src/aet/cli/aet_state.py:210-255 | A branch at its base, or without a recorded base, shows neither running nor merged work, wherever the target is. |
| `Derivation.RecursionIsExact` | src/aet/cli/aet_state.py:409-511 | Whenever the recursion over blockers returns, it says what one look at each blocker's own facts says, for every stack depth and queue order. |
| `Derivation.ReadyMeans` | src/aet/cli/aet_state.py:491-511 | Ready is derived exactly when the task's own facts show neither merged nor running work, its plan exists, and each blocker derives merged or is off the board. |
| `Derivation.StatusMeans` | src/aet/cli/aet_state.py:409-511 | Merged, in progress, drift and blocked are derived exactly under their conditions, in this order of precedence; blocked needs a blocker on the board that does not derive merged. |
| `Derivation.ReturnsExactlyWhenAcyclic` | src/aet/cli/aet_state.py:863-891 | Some stack depth suffices for every task of a board exactly when `blocked_by` has a rank along the calls the short-circuiting recursion makes. |
| `Derivation.SelfBlockerNeverReturns` | src/aet/cli/aet_state.py:409-511 | A task that blocks itself and has no work to show is never derived, however deep the stack. |
| `Derivation.Deriver.DeriveStatus` | src/aet/cli/aet_state.py:409-511 | The decision with its short-circuiting blocker loop returns the derived state and keeps the memo right. |
| `Derivation.Deriver.BlockerStatus` | src/aet/cli/aet_state.py:863-878 | A blocker reads as merged exactly when it is off the board or has merge evidence; what is remembered is right. |
| `Derivation.Deriver.DeriveAll` | src/aet/cli/aet_state.py:880-891 | Whatever the order of the queue, the memo ends as the derived state of every task. |
| `Heal.ExactIsSafe` | src/aet/cli/aet_state.py:1072-1078 | Boards with exact counters meet the precondition of the repair pass. |
| `HealPlan.PlannedExactlyWhenDue` | src/aet/cli/aet_state.py:1026-1084 | For every record and verdict: a move is planned exactly when the stored state disagrees with the derived one, to the derived state, as a repair unless that is `merged`; a recount exactly when the counter is off; nothing for quarantined records or when nothing is due. |
| `HealPlan.HoldingIff` | src/aet/cli/aet_state.py:1018-1024 | A blocker counts exactly while a record of it that is not terminal is on the board. |
| `HealPlan.AbsentCounterIsSafe` | src/aet/queue.py:500-508 | A counter that was never initialised counts every blocker and so is never too low. |
| `Heal.PlanConverges` | src/aet/cli/aet_state.py:1026-1090 | A change aims at the record's own or its derived state, never touches a quarantined or moves a merged record, and once made leaves the counted counter and nothing more to plan. |
| `Heal.PlanIsSound` | src/aet/cli/aet_state.py:1026-1090 | On the board it was planned for, a recount is not too low, and a move to ready has every blocker off the board or derived merged. |
| `Heal.SoundnessLasts` | src/aet/cli/aet_state.py:1128-1139 | A planned change stays sound on any later board that other changes and writers have only shrunk. |
| `Heal.FixIsSafe` | src/aet/cli/aet_state.py:1128-1188 | Applying one sound change keeps counters not too low; whoever is ready afterwards was ready before, has every blocker off the board or derived merged, or is the record of a change that was overtaken: it was to stay ready, others have moved it on, it may move back, and one of its blockers is left. |
| `HealTheorems.HealIsSafe` | src/aet/cli/aet_state.py:1128-1188 | From counters that are not too low, in any order of the planned changes, with any refusals and with other writers' transitions in between, counters stay not too low and nobody becomes ready without justification, another writer's word, or an overtaken change. |
| `HealTheorems.FixPromotesOnlyFreeIff` | src/aet/cli/aet_state.py:1139-1188 | One change on any board with safe counters makes nobody ready, directly or by release, beside an unmerged blocker exactly when it has not been overtaken. |
| `HealTheorems.HealPromotesOnlyFreeIff` | src/aet/cli/aet_state.py:1128-1188 | Over a whole pass with other writers in between: each of its changes makes only free tasks ready exactly when none has been overtaken when its turn comes. |
| `HealTheorems.OvertakenRecount` | src/aet/cli/aet_state.py:1139-1188 | A task made ready by hand beside an unmerged blocker is started by another writer after its recount was planned; the pass sets it back to ready. |
| `HealTheorems.LonePassIsSafe` | src/aet/cli/aet_state.py:1026-1188 | A pass left alone never makes a task ready, directly or by release, while one of its blockers is on the board and not derived merged. |
| `HealPlan.LonePassHeals` | src/aet/cli/aet_state.py:1026-1188 | After a pass left alone, for every record of the board: quarantined ones are where they were; one derived ready is ready; one derived blocked is not in progress or awaiting its merge; one derived merged has left exactly when it awaited its merge and evidence was found; any other is as it was or released. |
| `HealPlan.LonePassInventsNobody` | src/aet/cli/aet_state.py:1126-1188 | And nobody is on the board after the pass who was not before. |
| `HealPlan.ActSettlesIff` | src/aet/cli/aet_state.py:1128-1188 | In an interleaved pass exactly those changes and moves let a task settle that are admissible and terminal, `merged` only on evidence. |
| `HealPlan.PassSettlesOnEvidence` | src/aet/cli/aet_state.py:1128-1188 | Through any interleaved pass, whoever settles does so by an act that abandons it or has merge evidence. |
| `HealTheorems.ReleasedEarlyIff` | src/aet/cli/aet_state.py:657-673 | For any counters, one settling frees a blocked or planned task too early exactly when its counter is at most the mentions that drop it and these are fewer than its blockers on the board. |
| `HealTheorems.LowCounterIsReleasedEarly` | src/aet/cli/aet_state.py:1128-1188 | With a counter below the true count a pass readies a task beside an unmerged blocker, before the recount planned for it is written. |
| `HealTheorems.RecountIsExactIff` | src/aet/cli/aet_state.py:1072-1088 | A recount written later than it was made is exact precisely when none of the task's blockers has left in between. |
| `HealTheorems.LateRecountIsTooHigh` | src/aet/cli/aet_state.py:1072-1155 | A pass can leave a counter above the true count, because its recounts predate its own earlier changes. |
| `HealMachine.PlanChanges` | src/aet/cli/aet_state.py:1018-1090 | The planning loop yields the plan of the theorems. |
| `HealMachine.ApplyChange` | src/aet/cli/aet_state.py:1139-1188 | One change against the reloaded board has the effect of the theorems; a refused one keeps nothing. |
| `HealMachine.ApplyChanges` | src/aet/cli/aet_state.py:1126-1191 | The apply loop is the pass of the theorems, and every change is counted as applied or failed. |
| `Ledger.AppendedLines` | src/aet/ledger.py:263-283 | An append adds exactly one line, also to a file whose last line was not ended. |
| `Ledger.AppendedScan` | src/aet/ledger.py:110-145 | Reading the longer file is reading the old one and then the new line. |
| `Ledger.EveryScanIsVerified` | src/aet/ledger.py:105-145 | Whatever the file holds, indexed ids are distinct and each is the recomputed address of its event. |
| `Ledger.WriteAppends` | src/aet/ledger.py:323-363 | The old file is a prefix of the new; a refused request or a corrupt file changes nothing; an accepted write on a clean file finds the event with its address or adds one, and the file stays clean. |
| `LedgerContents.AcceptedIff` | src/aet/ledger.py:323-334 | The exact condition under which a request is accepted. |
| `LedgerContents.RefusalIsTheFirstFault` | src/aet/ledger.py:323-334 | A refusal names the first fault of the request in the order of the checks, and there is one exactly when there is a fault. |
| `LedgerContents.WriteRefuses` | src/aet/ledger.py:323-342 | A faulty request is answered with its fault, an accepted one on a file with problems with all of them; the file is not touched. |
| `LedgerContents.WriteHolds` | src/aet/ledger.py:339-363 | A request whose address is new is stored as a whole: source, task, kind, ref with its kind, time, payload and the time of writing. |
| `LedgerContents.WrittenIsRead` | src/aet/ledger.py:339-381 | After any later writes by anybody the file is clean, the stored event is the only one at its address, and reading its task returns it with all it held. |
| `LedgerContents.CleanIff` | src/aet/ledger.py:105-145 | A file is clean exactly when every line that is not blank holds an event under its own address and lines with one address hold one event. |
| `LedgerContents.TrimIs` | src/aet/ledger.py:112-114 | Stripping a line takes off all the white space at its ends and nothing else. |
| `LedgerContents.LineEnds` | src/aet/ledger.py:110-111 | A newline or a carriage return ends a line, and nothing else does. |
| `LedgerContents.CleanEvents` | src/aet/ledger.py:105-145 | The events of a clean file are exactly those its lines hold. |
| `LedgerContents.ProblemsAreReal` | src/aet/ledger.py:110-143 | Every problem reported, with the addresses it names, is one that some line has. |
| `LedgerContents.MissingFieldShowsIff` | src/aet/ledger.py:83-93 | A missing source, task or kind shows as a mismatch exactly when the field did not read "None". |
| `LedgerContents.SelectIff` | src/aet/ledger.py:374-381 | Reading returns exactly the events that agree with every given field. |
| `LedgerContents.SelectKeepsOrder` | src/aet/ledger.py:374-381 | In the order of the file. |
| `Ledger.RunAppends` | src/aet/ledger.py:339-363 | Under any interleaving of writes by any number of instances the file only grows, stays clean, keeps its indexed events, and ends with the old ids and those of the accepted requests. |
| `Ledger.OrderDoesNotMatter` | src/aet/ledger.py:1-13 | The final set of ids is the same for every order of the same writes. |
| `Ledger.FirstBodyWins` | src/aet/ledger.py:339-342 | Writing an identity again, after any other writes, returns the first event and leaves the file alone. |
| `Ledger.SameAddressIff` | src/aet/ledger.py:77-93 | A request whose boundaries cannot be moved shares its address with an accepted request, whatever colons that one holds, exactly when source, task, kind and key agree. |
| `Ledger.ColonsCollide` | src/aet/ledger.py:77-80 | Every accepted request whose boundaries can be moved has a twin at its address that differs in a part and that validation accepts as well. |
| `Ledger.CollidesIff` | src/aet/ledger.py:77-93 | An accepted request has such a twin exactly when its source can be cut at a colon that does not leave the reserved name, its task holds a colon, or its key holds a kind between colons. |
| `Ledger.KindInRefCollides` | src/aet/ledger.py:77-93 | A plain source and task are not enough: two accepted requests whose refs are "land:x" and "x" share an address. |
| `Ledger.TimeIsAddressedIff` | src/aet/ledger.py:331-337 | Two times are told apart exactly when no `ref` is given. |
| `Ledger.EmptyRefHidesTheSecond` | src/aet/ledger.py:331-342 | Two accepted events at different times with an empty `ref`: the second is not recorded. |
| `LedgerMachine.LedgerStore.ScanFile` | src/aet/ledger.py:96-145 | The scan loop returns the verified index and every problem. |
| `LedgerMachine.LedgerStore.Load` | src/aet/ledger.py:244-261 | A file with problems is refused and the old index kept; otherwise the index is the file's. |
| `LedgerMachine.LedgerStore.AppendEvent` | src/aet/ledger.py:263-283 | One line is appended, after a newline if the file lacks one. |
| `LedgerMachine.LedgerStore.WriteEvent` | src/aet/ledger.py:285-363 | The outcome depends on the file and the request alone, not on this instance's memory, and afterwards memory agrees with the file. |
| `LedgerMachine.LedgerStore.ReadEvents` | src/aet/ledger.py:365-381 | Reading answers from the whole verified file, filtered, or not at all. |
| `Closure.Worklist` | src/aet/plans_lint.py:110-120 | The stack-and-seen loop ends on every graph, cycles and duplicate entries included, with exactly what a walk from a root reaches. |
| `Closure.LinearlyOrderedPairs` | src/aet/plans_lint.py:99-129 | A pair is returned exactly when a `blocked_by` path of at least one step inside the corpus joins it. |
| `Closure.PairsAreTheClosure` | src/aet/plans_lint.py:102-106 | The pairs are the least transitive relation that contains `blocked_by`. |
| `Closure.DescendantPids` | src/aet/liveness.py:221-240 | A process is returned exactly when a line of parents of at least one step leads from it to the given one. |
| `Closure.OwnDescendantIff` | src/aet/liveness.py:221-240 | For every table and process: it is among its own descendants exactly when its line of parents, one step up or more, leads back to it. |
| `Closure.OwnParentIsOwnDescendant` | src/aet/liveness.py:222-222 | In particular a process listed as its own parent is its own descendant. |
| `Supersedes.ResolveRules` | src/aet/context_digest.py:159-197 | Each subject gets exactly one rule, that of its group. |
| `Supersedes.LiveMeans` | src/aet/context_digest.py:174-196 | A group is live exactly when no reference dangles and exactly one record is not superseded inside the group; the rule names it. |
| `Supersedes.ConflictMeans` | src/aet/context_digest.py:174-190 | Each conflict says what is wrong, exactly: the referenced numbers that stand for no record; that nobody is left unsuperseded; or the stems of those who are, when there are several. |
| `Supersedes.LaterRecordWins` | src/aet/context_digest.py:165-165 | Of two records with one number the number stands for the later. |
| `Supersedes.LineageIsTheRest` | src/aet/context_digest.py:192-196 | Where a number stands for one record, the lineage of a live rule is exactly the rest of its group. |
| `Supersedes.ReportedCycleIsReal` | src/aet/context_digest.py:182-186 | If no record of a group is live, its supersedes graph contains a cycle. |
| `Supersedes.EveryChainEndsAtTheLiveOne` | src/aet/context_digest.py:160-164 | In a live group without cycles, following whoever supersedes a record ends at the live one. |
| `Supersedes.HiddenCycle` | src/aet/context_digest.py:160-164 | Two records superseding each other beside one unrelated record are not reported; the third is picked as live. |
| `Supersedes.CycleIsReportedIff` | src/aet/context_digest.py:160-186 | A group with a cycle is reported exactly when a reference dangles or not exactly one of its records is left unsuperseded. |
| `Handoff.CollapseRoundTrip` | src/aet/handoff.py:248-253 | Collapsed entries expand back to the filtered list up to their times, counts are positive and neighbours differ. |
| `Handoff.CollapseEntries` | src/aet/handoff.py:248-253 | The collapse loop is the collapse of the round trip. |
| `Handoff.FilteredIff` | src/aet/handoff.py:195-200 | An entry is kept unless it names another task than the one asked for. |
| `Handoff.FilteredKeepsOrder` | src/aet/handoff.py:244-244 | In the order of the note. |
| `Handoff.SameKeyIff` | src/aet/handoff.py:179-192 | Two entries count as the same exactly when they agree on everything but the time. |
| `Handoff.BlockIsTheFirstOfItsRun` | src/aet/handoff.py:248-253 | Each block stands for the first entry of its run, time included, and the runs make up all the entries. |
| `Handoff.BlockShows` | src/aet/handoff.py:203-224 | A block shows the stage, the number of repeats, and under its label every value the entry lists, or that there is none. |
| `Handoff.DecimalRoundTrip` | src/aet/handoff.py:206-210 | The number of repeats is written as the number it is. |
| `Handoff.NewestEndsTheText` | src/aet/handoff.py:234-236 | Whatever older blocks are kept, the text ends with the newest. |
| `Handoff.SelectNewest` | src/aet/handoff.py:257-268 | The blocks kept are the longest contiguous run of newest blocks that fits, or the newest alone. |
| `Handoff.RenderPromptBlock` | src/aet/handoff.py:227-278 | For every note at most 4000 characters: the preamble alone when nothing matches, otherwise the kept blocks, cut with the marker at the end when even the newest is too long. |
| `CommitSplit.OverlapIsCounted` | src/aet/integrate.py:158-164 | There are as many assignments as assigned files exactly when no two tasks share a file. |
| `CommitSplit.MatchedIff` | src/aet/integrate.py:128-153 | A task gets exactly the changed files that it lists or that its prose quotes or mentions. |
| `CommitSplit.MappingIsDeclared` | src/aet/integrate.py:123-175 | The groups are those of the tasks that get a file, under their titles, in the order of the declaration, and no other. |
| `CommitSplit.ParseTaskFileMappings` | src/aet/integrate.py:108-175 | A mapping is returned exactly for an unambiguous declaration, and it is a partition of the changed files into at least two non-empty groups. |
| `CommitSplitMachine.Workspace.SplitCommits` | src/aet/integrate.py:178-212 | On success the tree at HEAD is the original one, built by one non-empty commit per group that touches only its paths; on any failure HEAD is the original commit. |
| `CommitSplitMachine.PlayArrivesIff` | src/aet/integrate.py:207-210 | When the commits go through, the final tree is the working tree exactly when the groups cover every changed path. |
| `CommitSplitMachine.PartitionsSplit` | src/aet/integrate.py:187-212 | From a clean working tree, with no git command failing, every partition of the changed files splits successfully. |
| `CommitSplitMachine.Workspace.AutoSplit` | src/aet/integrate.py:215-251 | From a clean working tree, with no git command failing, the split succeeds exactly when the declaration is unambiguous; on success there is one commit per group of the declaration, with its message and within its files. |

## Left out

Merge train:

- A staging that writes its marker in one go is the event `Integrate`. The moment between the compare-and-swap of the ref and the marker write is covered as a staging that finds nothing to mark, followed later by `LateMark` (at once, the two are `Integrate`: `TrainInvariant.StagingInTwoSteps`): the theorems for all events include it, the ones for orderly events do not.
- TrainTheorems.EveryOrderlyRun: an event that is not orderly ends the agreement; whether and when later steps restore it is not stated, except for what red rounds do while lookups are right.
- The refused save: a record that a flush edits and that another writer changes between the flush's load (src/aet/train.py:622) and its save (src/aet/train.py:777, 858) makes the save raise after the ref has moved. That is not an outcome of the modelled flush; what it leaves behind is stated in `TrainEject.UnsavedRoundLosesAgreement` and `TrainLand.UnsavedLandingLosesAgreement`.
- One flush per branch at a time; two concurrent flushes of the same branch, and other branches' flushes that touch a record staged on this one, are not modelled.
- Histories are linear with a shared root and without merge commits; other people publish only by fast-forward and never publish a staged commit; the remote-tracking ref exists.
- A flush without a task backend, git commands that fail in unexpected places and raise out of a flush (the restack worktree, a checkout during bisect), and the push of task refs that follows each save of the records.
- Records with incomplete markers (a missing commit, branch or position) and boards that fail to load.
- Why a closing transition refuses a task (evidence, release of dependents during closing) is one arbitrary predicate; verdict files, printed output and the count of commits behind origin are not part of this model.
- Release guards, evidence gates, retries and squash-message details before staging.

Task store:

- Failures of the best-effort reaping during a load, and races between the several git calls inside one method other than the two moments of a save, which `StoreSave` keeps apart.
- Posture and presence of a remote are folded into how far a push gets; the history file, the reconciliation report, legacy epic metadata and blobs whose record names another id.
- Pushes that are mandatory raise an error where others return false; only the return value is modelled.

Board, derivation and repair:

- A crash between saving a terminal record and sealing it; transitions complete or do not happen. Direct state writes in the integration step that bypass the transition function are part of the train model only.
- The run lease, locks, integrity envelope and legacy status values; the transition from no state at intake, which the table does not list; stage changes and reset options.
- Frontier.SomebodyIsFree: needs boards whose blockers are all on the board or settled and whose `blocked_by` is acyclic, because intake checks neither.
- HealTheorems.HealIsSafe: other writers only move tasks between two changes; a plan added in the middle of a pass is not modelled, because intake counts an absent blocker as pending while the repair pass counts it as settled.
- Warnings attached to derived states, which worktree and branch pointers a repair clears (any change of run state is a command of its own), and how merge commits are looked up through the forge or by diff; merge evidence is a predicate on commits.
- The branch of the repair plan for a derived state "failed" is left out: no derivation yields that state.

Ledger and smaller algorithms:

- Event fields are strings or absent; line numbers in problem reports, file system errors and the location of the file are not part of this model. White space is blank, tab, newline and carriage return. JSON is any canonical one-line encoding and the hash any function to non-empty strings, injective only where a statement says so.
- Supersedes.ResolveRules: subjects, stems and dangling numbers are sets here; the order in which they are printed, and the corpus audit of duplicate and dangling references, are left out.
- Handoff.RenderPromptBlock: fields are strings or absent, so the fallback for other JSON types is left out.
- CommitSplitMachine.Workspace.SplitCommits: the final hard reset and the plain resets in the loop succeed, because the code does not look at their exit status; paths are literal, and renames appear as a removal and an addition.
- How titles, quoted names and file lists are read out of a plan item is a parameter; the substring match of changed files is modelled.
- The overlap and docs-only checks of the plan lint and the other probes of the liveness monitor would only add easy members.
- Timestamps are opaque strings.
