# Foreman bundle orchestrator: a verified model

Foreman takes a bundle of approved specs, orders them by their dependencies, queues one task per spec, and drives
every task through a write-ahead state machine (queued, building, verifying, merging, then committed, parked or
dependent-halted) until nothing is queued. This project models that orchestrator and the algorithms around it, and
proves what its whole runs keep. `dafny verify dfyconfig.toml` checks everything.

What the outside world says (builder, verifier, gates, git servers, clocks, schedulers) is an arbitrary stream of
answers, so each theorem holds for all of them. Objects the program updates in place are classes: the ledger and its
row objects, which the queue shares by reference, the git clone, the runner, the watchdog, the agent loop, the file
system. What they are proved against are values (`LedgerState`, `Repo`, traces of events), and the laws are lemmas
about those.

## Files

| file | models |
|---|---|
| `Models.dfy`, `Ledger.dfy`, `QueueSpec.dfy`, `Queue.dfy` | status table, in-memory ledger, task queue, stale recovery and reaping |
| `DependencyGraph.dfy`, `Bundle.dfy` | gates, Kahn's sort, intake |
| `GitOps.dfy` | commits, refs, and the git commands, over an origin others push to |
| `Trace.dfy`, `RunSpec.dfy` | the record of a run, the loop invariant |
| `TaskInputs.dfy`, `TaskCourse.dfy`, `RunCourse.dfy` | the course of a task and of a run as functions of the answers and the repository, and when a task is committed |
| `BundleRunner.dfy` | the task machine and the main loop, step by step against that course |
| `RunGuards.dfy` | single-flight guard, circuit breaker |
| `NearMiss.dfy`, `Redaction.dfy`, `DiffLint.dfy` | edit distance, credential redaction, diff parser and lint |
| `WorkerPool.dfy`, `Watchdog.dfy`, `AgentLoop.dfy`, `Shards.dfy`, `CoverageLoop.dfy` | bounded pool, session watchdog, tool-use loop, shard files, coverage loop |

## Where the obvious claim is false

Each of these is stated exactly, with the case that breaks it:

- `resolve` seeds Kahn's queue from the requested slugs, so a dependency-free spec requested twice is sorted twice:
  the order is a build order exactly if no root is requested twice (`Bundle.BundleIntake.Resolve`,
  `Bundle.RootsDistinct`, with the witness `Bundle.RequestedTwice`).
- A fix pass of attempt 0 that yields no commit below the ceiling leaves the row building, and the move back to
  building is then refused; nothing else raises InvalidTransition (`BundleRunner.BundleRunner.RunTask`, with the
  inputs in `TaskInputs.LeftBuilding` and a witness in `TaskInputs.SomeTaskIsLeftBuilding`).
- `advance` writes the shared row before the ledger checks for PASS (`QueueSpec.AdvanceKeepsEvidence`).
- `reap_orphans` parks without halting dependents (`QueueSpec.ReapStrandsExactly`); `recover_stale`, which on
  in-memory rows also visits terminal ones, reopens a parked row that carries a commit (`QueueSpec.RecoverOutcome`).
- `ff_merge_local` merges the local ref, which a failed workspace sync leaves stale
  (`Trace.ClaimReachesBase`, `Trace.StaleBranchLeavesClaimBehind`).
- `_preserve_remote_branch` promises never to discard a build branch, but checks neither push: a refused copy and an
  accepted deletion lose the tip (`GitOps.Git.PreserveBranch` with its condition `GitOps.TipKept`, and the witness
  `GitOps.RefusedCopyLosesTip`).
- A negative circuit-breaker limit trips on a single park (`RunGuards.TripsExactly`).
- The watchdog compares CPU totals with the last advance; a total that falls hides later work
  (`Watchdog.WorkShowsExactly`, `Watchdog.FallingTotalHidesWork`).
- `_redact_detail` promises to redact all string values; what stands inside a dictionary or list that is an item of a
  list stays (`Redaction.SpotlessExactly`, with the witness `Redaction.NestedKeyStays`).
- `splitlines` breaks lines at more characters than git does (`DiffLint.ReportedContents`).
- The first coverage report has nothing before it and counts as no change, so the file it names stalls at its next
  unchanged report (`CoverageLoop.FirstReportCounts`, `CoverageLoop.FirstReportStalls`).

## Model

| member | source | states |
|---|---|---|
| BundleRunner.BundleRunner.Run | harness/foreman/scripts/bundle_runner.py:627-964 | A fresh run, for every answer of builder, verifier, gates and git. It is locked out exactly if it is not forced and a requested spec has a fresh row in flight. Otherwise it ends: without a report exactly when the dependency graph of the valid specs has a cycle, else with committed, parked and halted slugs that are disjoint, duplicate-free and together the valid specs, and with exclusion records for exactly the other requested slugs, each with its refusal and as often as requested; or an unguarded git read or a refused transition escapes. The report lists what its turns did, in order: the run starts with one queued row for each admissible requested spec, holding what the spec declares, and each turn takes the polled task and ends it exactly as the answers and the repository of that moment say, until nothing is queued; a raise is that of the turn after the last. In every case the write log only grows, and for every Claimed entry in its new part the row is of an admissible requested spec and every dependency that spec declares and that is such a spec too was logged as committed earlier in that part; each committed row of the run is backed by a failure-free chain of its own events and holds a commit that is on the base branch of origin with its history; origin loses no base commit; a row of another run is as it was, or was requested and stale and is queued again. |
| BundleRunner.BundleRunner.RunResolved | harness/foreman/scripts/bundle_runner.py:649-964 | The same once the guard has let the run pass: the course of the turns, the report made of them, the order of claims and commits over the declared dependencies; rows of other runs are untouched. |
| BundleRunner.BundleRunner.PassGuard | harness/foreman/scripts/bundle_runner.py:642-648 | Unless forced, the guard runs first: locked exactly if a requested spec has a fresh row in flight; stale requested rows are requeued, all others stay. |
| BundleRunner.ProvenOnBase | harness/foreman/scripts/bundle_runner.py:903-964 | Every committed row that is backed and listed records a commit on the base branch, history included. |
| BundleRunner.ChainBacks | harness/foreman/scripts/bundle_runner.py:1281-1442 | A chain recorded since a position, with its row committed at its commit, is the proof a committed slug needs. |
| BundleRunner.ProvenGrows | harness/foreman/scripts/bundle_runner.py:701-915 | Processing one task takes nothing away from what backs the others. |
| BundleRunner.BundleRunner.MainLoop | harness/foreman/scripts/bundle_runner.py:701-915 | The loop terminates on the number of queued rows, and its turns follow one another from the rows and the world it was given to those it leaves: each takes the row of lowest build order and ends it as its inputs say; the three lists are the commits, parks and halts of the turns, in order. Every claim it adds to the write log comes after the commits of all in-bundle dependencies; each committed slug is backed by the run's own trace and its row; the lists partition the bundle when it ends. |
| BundleRunner.BundleRunner.Round | harness/foreman/scripts/bundle_runner.py:702-915 | One round ends the polled task exactly as its inputs say and reports it in exactly that list; at most one claim is made and logged, on the rows as they were; strictly fewer rows are queued unless it raises. |
| BundleRunner.BundleRunner.Process | harness/foreman/scripts/bundle_runner.py:731-905 | One queued task, from its gates on. It is claimed, and the claim logged on the rows as they were, exactly if none of the four gate answers fails, and is parked for the first that fails otherwise; after the claim it is parked for the circuit breaker exactly if that answer fails, and else ends as RunTask does. A commit comes with a chain recorded during the call; a raise leaves the row unfinished and every other row as it was. |
| BundleRunner.BundleRunner.PreClaim | harness/foreman/scripts/bundle_runner.py:731-841 | Which gate refuses the task is the first whose answer fails, in order, with the reason of that gate; exactly the gates up to it are asked. |
| TaskCourse.RefusedExactly | harness/foreman/scripts/bundle_runner.py:731-841 | A task is refused before its claim exactly if one of the four answers fails. |
| BundleRunner.BundleRunner.RunClaimed | harness/foreman/scripts/bundle_runner.py:856-905 | A claimed task is parked for the circuit breaker exactly if its answer fails; else it is run. |
| RunCourse.CommittedWonThrough | harness/foreman/scripts/bundle_runner.py:701-915 | In any course of turns, a task ends committed exactly if none of its gate and breaker answers failed and, from there, it won through: for all runs, which slugs the committed list names is a matter of the inputs. |
| RunCourse.StartIsFresh | harness/foreman/scripts/bundle.py:70-189 | A run starts with one queued row for each admissible requested spec and no other, with the dependencies the spec declares, in an order that puts every declared dependency in the bundle first. |
| RunCourse.OneTurnMore | harness/foreman/scripts/bundle_runner.py:701-915 | A course grows by one turn, and the three report lists by what that turn did. |
| BundleRunner.ClaimsAreDeclared | harness/foreman/scripts/bundle.py:70-157 | Claims that follow the commits of their in-bundle dependencies do so for the dependencies the specs declare, read off the depends_on values. |
| BundleRunner.BundleRunner.Begin | harness/foreman/scripts/bundle_runner.py:675-685 | Intake under a fresh run id, then stale recovery and orphan reaping: all rows of the run are queued at their build position, and both sweeps change nothing. |
| BundleRunner.IntakeStarts | harness/foreman/scripts/bundle.py:159-189 | What intake of a build order gives the loop to start from: the bundle rows, nothing finished, both ledger invariants, other runs untouched. |
| BundleRunner.FreshBundle | harness/foreman/scripts/bundle.py:159-189 | Each ordered spec has one queued row at its position with its dependencies, and independent rows have none, because attestation was checked. |
| BundleRunner.IntakeKeeps | harness/foreman/scripts/bundle.py:159-189 | Inserting the rows keeps commit evidence and unclaimed queued rows. |
| BundleRunner.SweepsIdle | harness/foreman/scripts/bundle_runner.py:683-685 | Recovery and reaping are no-ops on rows that were only just queued. |
| BundleRunner.Polled | harness/foreman/scripts/bundle_runner.py:702-704 | Whatever polling returns has all its in-bundle dependencies committed, and when it returns nothing the report is a partition. |
| BundleRunner.BundleRunner.Take | harness/foreman/scripts/bundle_runner.py:856-862 | Claiming a queued row whose dependencies are committed keeps the order of claims and commits in the write log. |
| RunSpec.ToldClaim | harness/foreman/scripts/bundle_runner.py:856-862 | A claim logged while every in-bundle dependency is a committed row comes after the logged commits of all of them. |
| RunSpec.ToldGrows | harness/foreman/scripts/queue.py:56-88 | Log entries that claim nothing keep that order, if each new committed row is logged. |
| RunSpec.ToldPark | harness/foreman/scripts/queue.py:90-152 | Parking and halting log no claim and commit nothing. |
| RunSpec.ClaimsFollowEarlier | harness/foreman/scripts/bundle_runner.py:675-704 | The order of claims and commits holds since the start of the run, because intake and the sweeps log no claim. |
| RunSpec.NextIsSafe | harness/foreman/scripts/queue.py:28-45 | The queued row of lowest build order has all its in-bundle dependencies committed. |
| RunSpec.CommitKeepsSafe | harness/foreman/scripts/bundle_runner.py:903-904 | Committing one task keeps queued rows waiting only for queued or committed ones. |
| RunSpec.ParkKeepsSafe | harness/foreman/scripts/queue.py:90-152 | After a park no queued row still waits for a parked or halted one: the transitive halt reached all of them. |
| RunSpec.DisposeKeeps | harness/foreman/scripts/bundle_runner.py:903-915 | One disposition keeps the whole loop invariant and takes at least one row off the queue. |
| RunSpec.DisposedShrinksQueue | harness/foreman/scripts/bundle_runner.py:701-704 | Each round leaves strictly fewer queued rows: the termination measure. |
| RunSpec.DisposedKeepsOthers | harness/foreman/scripts/bundle_runner.py:903-915 | Neither a commit nor a park with its halts changes a row of another run. |
| RunSpec.CommitKeepsReported | harness/foreman/scripts/bundle_runner.py:903-904 | The report lists stay exact and duplicate-free after a commit. |
| RunSpec.ParkKeepsReported | harness/foreman/scripts/bundle_runner.py:905-915 | The report lists stay exact and duplicate-free after a park and its halts. |
| RunSpec.FinishedIsPartition | harness/foreman/scripts/bundle_runner.py:917-964 | With nothing queued, the three lists are disjoint and hold exactly the bundle. |
| BundleRunner.BundleRunner.RunTask | harness/foreman/scripts/bundle_runner.py:1029-1885 | How a claimed task ends is what the answers and the repository say, for all inputs, step by step, and what is left of both with it. It is committed exactly if it wins through: an attempt opens, its build or a fix of it reads PASS after passing the guards, none of the three gates fails, origin lists a tip other than the start that holds the claim, and the claim was contained already or merge and push go through. Each other ending has the reason of its step. At most 2 + max(0, fix budget) builds and three verifier calls per build that produced a commit; a commit has a chain recorded since the call. InvalidTransition is raised exactly if the attempt-0 branch opens, its build passes the guards and fails verification below the ceiling, and the answers end the fix lane with a pass that yields no commit; then the row is left building. |
| TaskCourse.CommitsExactly | harness/foreman/scripts/bundle_runner.py:1029-1885 | A task is committed exactly for the inputs of WinsThrough; nothing else in its course commits. |
| TaskCourse.PassCommitsExactly | harness/foreman/scripts/bundle_runner.py:1281-1442 | A PASS leads to a commit exactly if conformance, substance and live database do not fail, origin can be read and its tip has moved and holds the claim, and the claim was contained in the start or the branch lands: base checks out, the two tips are on one line, HEAD is read, the push is taken and seen. Recorded is the claim, or a commit whose history is that of both tips. |
| TaskCourse.DecidedByVerdict | harness/foreman/scripts/bundle_runner.py:1251-1709 | The PASS that decides a task is the last answer used before the gates, and the commit it is about is one a builder session of the task reported. |
| TaskCourse.RaisesExactly | harness/foreman/scripts/bundle_runner.py:1444-1880 | The course ends in InvalidTransition exactly for the inputs that leave a task building. |
| TaskCourse.LaterTipHolds | harness/foreman/scripts/git_ops.py:521-531 | Of two tips on one line the later one has the history of both. |
| TaskCourse.OwnBranch | harness/foreman/scripts/bundle_runner.py:1087 | No two attempts of any tasks build on the same branch. |
| TaskInputs.SomeTaskIsLeftBuilding | harness/foreman/scripts/bundle_runner.py:1485-1492 | Such inputs exist: a builder, a verifier, a clone and an origin with which a task is left building. |
| TaskInputs.Outlook | harness/foreman/scripts/bundle_runner.py:1073-1880 | The input condition for being left building, step by step. |
| TaskInputs.NextFix | harness/foreman/scripts/bundle_runner.py:1719-1740 | A later fix pass is the empty one, or is verified, fails, and leaves it to the next. |
| BundleRunner.BundleRunner.Attempt | harness/foreman/scripts/bundle_runner.py:1073-1880 | One round of the attempt loop ends as its inputs say: disposed of, raised, or back in building with the time and budget that are left, at most one build plus fix passes spent; InvalidTransition only on attempt 0 after an empty fix pass. |
| BundleRunner.BundleRunner.Judge | harness/foreman/scripts/bundle_runner.py:1281-1880 | Acting on a readable verdict ends as its inputs say: a PASS goes through the gates, a failure through the fix lane. |
| BundleRunner.BundleRunner.BuildStage | harness/foreman/scripts/bundle_runner.py:1074-1249 | Ceiling, live base, branch, build and pre-verify guards, as the inputs say: a build comes out exactly if there is time, the branch opens and the answers hold a commit that passes both guards; else a first-attempt retry, a park with its reason, or a failed live read; and the repository is left exactly as those steps leave it. |
| BundleRunner.BundleRunner.BuildAndVet | harness/foreman/scripts/bundle_runner.py:1100-1249 | The builder session on the open branch: built, to be retried with the branch put aside, or parked with its reason, exactly as the answers say. |
| BundleRunner.BundleRunner.VerifyBuild | harness/foreman/scripts/bundle_runner.py:1251-1880 | From a landed build to the end of the attempt, as the verifier's answers and all later ones say. |
| BundleRunner.BundleRunner.PreserveTo | harness/foreman/scripts/bundle_runner.py:1872-1876 | The branch of an attempt is put aside under the name of that attempt, and the repository is what that leaves. |
| BundleRunner.BundleRunner.OpenAttempt | harness/foreman/scripts/bundle_runner.py:1084-1099 | The live base reads and the branch opens on it exactly as the git answers say, and the repository is left exactly as they say, opened or not. |
| BundleRunner.BundleRunner.VetBuild | harness/foreman/scripts/bundle_runner.py:1110-1249 | Whether a build goes on, is retried or is parked, and for which reason, is what the build and at most two guard answers say; only attempt 0 is retried. |
| BundleRunner.BundleRunner.Build | harness/foreman/scripts/bundle_runner.py:1100-1109 | One builder session is one build in the record, and a landed one exactly when it reports a commit; then, and only then, the workspace is synced. |
| BundleRunner.BundleRunner.Verify | harness/foreman/scripts/bundle_runner.py:1251-1279 | The row is verifying with the commit recorded before the verifier is asked; a PASS verdict is about that commit. |
| BundleRunner.BundleRunner.DispatchVerify | harness/foreman/scripts/bundle_runner.py:989-1027 | At most three calls on one commit; the result is the first readable answer, the time is that of the calls made, and no result means three unreadable answers. |
| BundleRunner.BundleRunner.ClearGates | harness/foreman/scripts/bundle_runner.py:1282-1390 | Which gate refuses, and with which reason, is what the three answers and the check of origin say, in that order; the repository is left as the check leaves it; cleared means that none failed and origin holds the claimed commit. |
| BundleRunner.BundleRunner.CheckGate | harness/foreman/scripts/bundle_runner.py:1282-1340 | The recorded result is the answer of the gate, one answer is used, and no transport call is made. |
| BundleRunner.BundleRunner.PassChain | harness/foreman/scripts/bundle_runner.py:1281-1442 | From a PASS verdict the task ends exactly as gates, origin, merge and push say, with the recorded commit on base if committed; control comes back exactly if the conformance answer fails on a retryable attempt, with the row building and the branch put aside. |
| BundleRunner.BundleRunner.PutAside | harness/foreman/scripts/bundle_runner.py:1872-1880 | Before a retry the branch is put aside, the repository is what that leaves, and the row goes back to building; on a row that is building already the move raises. |
| BundleRunner.BundleRunner.FinishPass | harness/foreman/scripts/bundle_runner.py:1391-1442 | PASS is in the ledger with the move to merging, before the committed status; a contained claim is committed as it is without touching git, any other is merged and pushed and ends as the git answers say. |
| BundleRunner.BundleRunner.LandOnBase | harness/foreman/scripts/bundle_runner.py:1400-1436 | Whether the branch lands, which refusal it meets, or that a read of HEAD or of the push raises, is what the repository and the git answers say; on success the recorded commit has exactly the history of the two merged tips, and all of it is on the base branch of origin. |
| BundleRunner.BundleRunner.MergeAndPush | harness/foreman/scripts/bundle_runner.py:1400-1442 | Committed at a commit seen on origin after the push, parked for the refusal, or raised, exactly as the git answers say. |
| BundleRunner.BundleRunner.FixPass | harness/foreman/scripts/bundle_runner.py:1465-1709 | A fix pass ends as the answers of one build and one verification and, on PASS, the gate chain say; it commits only with the same evidence; with no commit the row is left building. |
| BundleRunner.BundleRunner.FixVerify | harness/foreman/scripts/bundle_runner.py:1494-1709 | The verification of a landed fix, and on PASS the gate chain, as the answers say. |
| BundleRunner.BundleRunner.FixForward | harness/foreman/scripts/bundle_runner.py:1456-1846 | The fix lane ends as its inputs say, its budget spent one by one and never past it; handing control back, the row is building exactly when the answers make the last pass an empty one. |
| BundleRunner.BundleRunner.MoreFixes | harness/foreman/scripts/bundle_runner.py:1719-1846 | The inner fix loop ends as its inputs say and within the budget. |
| BundleRunner.BundleRunner.FailChain | harness/foreman/scripts/bundle_runner.py:1444-1880 | A verdict other than PASS: fix forward, then ceiling, then last attempt, else back to building, as the inputs say. That move is refused exactly on attempt 0, below the ceiling, when the answers end the fix lane with an empty pass; from the ceiling on, the same answers park the task for the ceiling. |
| BundleRunner.BundleRunner.AfterFixes | harness/foreman/scripts/bundle_runner.py:1848-1880 | Ceiling first, then the last attempt; else the branch is put aside and the row goes back to building, refused exactly if it is building already. |
| BundleRunner.BundleRunner.ParkTask | harness/foreman/scripts/queue.py:90-108 | Parking records the reason, halts exactly the dependents, and keeps the invariants. |
| BundleRunner.BundleRunner.Move | harness/foreman/scripts/queue.py:68-84 | A status move is legal, leaves the row with the fields it wrote and is recorded with them, or raises and changes nothing; it touches one row. |
| BundleRunner.BundleRunner.Conclude | harness/foreman/scripts/bundle_runner.py:1440-1442 | The last move leaves the row committed and holding the commit. |
| Trace.ClaimReachesBase | harness/foreman/scripts/bundle_runner.py:1400-1442 | With commit evidence, the claimed build commit itself is in the recorded history exactly if it was already contained or one of the merged local tips contained it. |
| Trace.CommittedStays | harness/foreman/scripts/queue.py:110-152 | Neither touching nor disposing of a task changes another committed row. |
| Trace.StaleBranchLeavesClaimBehind | harness/foreman/scripts/transport.py:992-1027 | A repository where the workspace sync left the local branch stale: every check passes, and the claimed commit is not on base. |
| Trace.EvidenceLanded | harness/foreman/scripts/bundle_runner.py:1100-1109 | Behind every commit there is a build that landed, recorded since the task was taken up. |
| Trace.EvidenceComplete | harness/foreman/scripts/bundle_runner.py:1281-1442 | Verdict, gates, origin check and merge steps of one commit, in order, are commit evidence. |
| Trace.AdvanceEffect | harness/foreman/scripts/queue.py:68-84 | A PASS-backed legal advance succeeds, touches one row, adds exactly its fields, keeps evidence; an illegal one is refused without effect. |
| Trace.ClaimSucceeds | harness/foreman/scripts/queue.py:51-62 | A queued row can always be claimed when queued rows are unclaimed, so polling never spins. |
| Trace.ParkEffect | harness/foreman/scripts/queue.py:90-108 | A park with its halts disposes of the task, records the reason in the row, and keeps both ledger invariants. |
| GitOps.HistoryTransitive | harness/foreman/scripts/git_ops.py:509-518 | Ancestry is transitive. |
| GitOps.HistoryAntisymmetric | harness/foreman/scripts/git_ops.py:509-518 | Two commits in each other's history are the same commit. |
| GitOps.FetchedValid | harness/foreman/scripts/git_ops.py:486-506 | A fetch keeps the object store closed under ancestry. |
| GitOps.FfMergeContents | harness/foreman/scripts/git_ops.py:521-531 | A fast-forward merge leaves in HEAD the two histories together and nothing else. |
| GitOps.PushKeepsHistory | harness/foreman/scripts/git_ops.py:456-465 | A non-forced push loses no commit of the remote branch, and an accepted one adds the pushed commit. |
| GitOps.Git.Settle | harness/foreman/scripts/git_ops.py:353-366 | Others may move origin before any command, the base branch only forward. |
| GitOps.Git.FetchLiveSha | harness/foreman/scripts/bundle_runner.py:79-89 | The live base is a commit of the base branch of origin, or the read raises, exactly as the git answers say. |
| GitOps.Git.OpenBranch | harness/foreman/scripts/git_ops.py:426-453 | Succeeds exactly if branch, checkout and push do; HEAD is then the new branch at the given base; after a failure the repository is what the steps before it left; origin base loses nothing. |
| GitOps.Git.SyncWorkspace | harness/foreman/scripts/transport.py:992-1027 | The repository afterwards is a function of the answer: HEAD moves to the tip of the branch exactly if the fetch works, origin has the branch and the move is a fast-forward; base history only grows. |
| GitOps.Git.PreserveBranch | harness/foreman/scripts/bundle_runner.py:92-132 | Which answers lead to the deletion, and what origin then looks like, when others leave it alone; the tip the branch had is on one of the two names exactly if TipKept holds of the answers: no deletion, or it was under the new name before, or what was copied contains it. Base history is never touched. |
| GitOps.Git.CopyAndDrop | harness/foreman/scripts/bundle_runner.py:109-132 | The two pushes, with what others do between them: the repository afterwards is a function of the answers. |
| GitOps.QuietPreserve | harness/foreman/scripts/bundle_runner.py:92-132 | While others leave origin alone, that function is the copy and, if it is accepted, the deletion. |
| GitOps.Git.PickTip | harness/foreman/scripts/bundle_runner.py:109-127 | Undisturbed, the copying push leaves under the new name what the answers say: the tracked tip, after a timeout the fetched one, nothing after a refusal or where the new name would not move forward. |
| GitOps.TipSurvives | harness/foreman/scripts/bundle_runner.py:92-132 | The tip of a build branch survives on one of its two names exactly if it was not deleted, or the new name held it already, or a copy that holds it was accepted. |
| GitOps.RefusedCopyLosesTip | harness/foreman/scripts/bundle_runner.py:109-132 | For any three names: a valid repository and answers, with nobody else touching origin, where the copy is refused, the deletion accepted and the tip on neither name. |
| GitOps.Git.CheckOriginGroundTruth | harness/foreman/scripts/git_ops.py:540-593 | Raises exactly if the listing or, where the tip has moved, the fetch fails; phantom exactly if the tip origin lists is missing, is the start, or does not hold the claim; already-contained exactly if the start holds it; local refs are not touched, and the repository is what the fetch leaves. |
| GitOps.Git.MergeIntoBase | harness/foreman/scripts/git_ops.py:521-531 | Raises exactly if the base branch does not check out; merges exactly if the two local tips are on one line, and then base has exactly the two old histories; HEAD is the base branch; origin is not touched. |
| GitOps.MergeIs | harness/foreman/scripts/git_ops.py:521-531 | A fast-forward is possible exactly if the branch is local and one of the two tips is in the history of the other, and it leaves the later tip. |
| GitOps.Git.LocalSha | harness/foreman/scripts/git_ops.py:418-423 | The commit of HEAD; raises exactly if the answer fails. |
| GitOps.Git.PushAndCheck | harness/foreman/scripts/git_ops.py:596-623 | Raises exactly if the push is not taken or the listing fails; true exactly if the base branch origin then lists holds the pushed commit; and then it holds its whole history. |
| Models.TransitionTable | harness/foreman/scripts/models.py:69-94 | The life cycle, status by status: which one can follow which. Parking is open exactly to unfinished tasks, only queued ones can be halted, only merging becomes committed, nothing leaves a terminal status and nothing returns to the queue. |
| Ledger.WriteEffect | harness/foreman/scripts/ledger.py:446-475 | A status write changes one row in both tables, and the PASS afterwards is decided by the merged fields. |
| Ledger.UpsertMerges | harness/foreman/scripts/ledger.py:425-444 | The merged ledger row keeps every field it had, except that each written field that is not null replaces it. |
| Ledger.FreshIsUnused | harness/foreman/scripts/ledger.py:383-412 | A new row is queued for attempt 0, claimable, and nothing is recorded in it. |
| Ledger.PassSurvivesMerge | harness/foreman/scripts/ledger.py:425-444 | A recorded PASS survives a field merge exactly unless the merge carries another verdict for that row. |
| Ledger.UpdateKeepsEvidence | harness/foreman/scripts/ledger.py:446-475 | One status update keeps commit evidence exactly if it raises, does not commit, or carries no other verdict. |
| Ledger.ClaimEffect | harness/foreman/scripts/ledger.py:477-501 | A claim succeeds exactly on a queued row with no claim in it, moves only that row, writes the session and the time into it and nothing else, and touches no verdict. |
| Ledger.InMemoryLedger.CreateTaskRow | harness/foreman/scripts/ledger.py:383-412 | A fresh queued row, at the end of the order unless the key was there; nothing else changes. |
| Ledger.InMemoryLedger.UpdateTaskStatus | harness/foreman/scripts/ledger.py:446-475 | Refused without effect when committing without PASS or when the row is missing; else one row, one merge, one log entry. |
| Ledger.InMemoryLedger.WriteBoth | harness/foreman/scripts/ledger.py:425-475 | Row write and merged upsert as one change of the ledger value. |
| Ledger.InMemoryLedger.HasPassLedgerRow | harness/foreman/scripts/ledger.py:414-417 | True exactly if the merged ledger row holds PASS. |
| Ledger.InMemoryLedger.ClaimTask | harness/foreman/scripts/ledger.py:477-501 | Write-ahead claim of the shared row, logged once; a refused claim changes and logs nothing. |
| Queue.TaskQueue.NextQueued | harness/foreman/scripts/queue.py:28-45 | The ledger's own row object with the lowest build order among the queued rows of the run, the earliest inserted on ties; null exactly if none is queued. |
| Queue.TaskQueue.Claim | harness/foreman/scripts/queue.py:51-62 | The claim of the aliased row is the ledger claim, and exactly a successful one is logged. |
| Queue.TaskQueue.Advance | harness/foreman/scripts/queue.py:68-84 | An illegal transition raises without effect; a legal one writes the aliased row before the ledger is asked. |
| Queue.TaskQueue.WriteThrough | harness/foreman/scripts/queue.py:81-84 | The row is already changed when the PASS check of the ledger runs, also when that check refuses. |
| QueueSpec.AdvanceWrites | harness/foreman/scripts/queue.py:81-84 | A PASS-backed legal advance leaves exactly one status write behind, although the row is written twice. |
| QueueSpec.AdvanceKeepsEvidence | harness/foreman/scripts/queue.py:81-84 | When the write-before-check order keeps commit evidence, as an if and only if. |
| Queue.TaskQueue.Park | harness/foreman/scripts/queue.py:90-108 | Raises exactly on a terminal row, without effect; else parks it and halts exactly the dependents, with their records. |
| Queue.TaskQueue.HaltDependents | harness/foreman/scripts/queue.py:110-152 | Terminates on any graph; halts exactly the reachable haltable rows and records each once. |
| Queue.TaskQueue.HaltDirect | harness/foreman/scripts/queue.py:120-150 | One pass halts every unvisited direct dependent of one cause. |
| Queue.TaskQueue.HaltIfDirect | harness/foreman/scripts/queue.py:125-150 | The test and the write for one row. |
| QueueSpec.HaltSetIs | harness/foreman/scripts/queue.py:110-152 | The rows the worklist collected are exactly the rows reachable along reverse dependencies through non-independent, unfinished rows. |
| QueueSpec.HaltSetMembers | harness/foreman/scripts/queue.py:110-152 | Every halted row was haltable, is not the parked one, and is reached by a path from it. |
| QueueSpec.HaltStep | harness/foreman/scripts/queue.py:130-148 | Halting one more direct dependent keeps the record: each slug once, each because of the parked slug or one halted before it. |
| QueueSpec.ClosedCoversPath | harness/foreman/scripts/queue.py:110-152 | A set closed under direct dependents contains the end of every path from the parked slug. |
| Queue.TaskQueue.RecoverStale | harness/foreman/scripts/queue.py:158-268 | Recovery of the shared rows is the row-by-row sweep, and lists exactly the rows it changed. |
| Queue.TaskQueue.ReapOrphans | harness/foreman/scripts/queue.py:274-321 | Reaping is the row-by-row sweep, and lists exactly the rows it parked. |
| Queue.TaskQueue.SweepRun | harness/foreman/scripts/queue.py:183-268 | The rows of the run are listed first, then each is visited once, in insertion order. |
| QueueSpec.SweepRowwise | harness/foreman/scripts/queue.py:194-268 | Rows do not influence each other: each ends as if it alone had been swept, unvisited rows as they were. |
| QueueSpec.SweepNothing | harness/foreman/scripts/queue.py:158-321 | A sweep that decides nothing changes nothing and lists nothing. |
| QueueSpec.StaleExactly | harness/foreman/scripts/queue.py:194-235 | Stale are exactly the rows whose readable heartbeat is older than the threshold and, without a heartbeat, those whose readable claim time is more than 1800 seconds past. |
| QueueSpec.ReapExactly | harness/foreman/scripts/queue.py:283-320 | Reaped are exactly the building and verifying rows with a readable claim time more than the given minutes past; they are parked as orphans. |
| QueueSpec.RecoverOutcome | harness/foreman/scripts/queue.py:194-268 | A row ends committed exactly if it was, or has a commit and PASS; a terminal row is reopened or promoted exactly if it is not committed and has a commit; what is requeued is unclaimed. |
| QueueSpec.RecoverTwice | harness/foreman/scripts/queue.py:236-268 | A second recovery of a row is a no-op on it, except exactly for a stale gating row with a verdict and no commit. |
| QueueSpec.ReapIdempotent | harness/foreman/scripts/queue.py:274-321 | A second reaping at the same time reaps nothing. |
| QueueSpec.ReapLeavesDependents | harness/foreman/scripts/queue.py:312-320 | A reaped row is parked while a queued dependent stays queued: dependency safety is about fresh runs. |
| QueueSpec.ReapStrandsExactly | harness/foreman/scripts/queue.py:312-320 | A reaping leaves a queued, non-independent row behind a parked dependency, where there was none, exactly if such a row lists a dependency whose own row is reaped. |
| QueueSpec.StepKeeps | harness/foreman/scripts/ledger.py:425-501 | Every ledger operation keeps committed-implies-PASS and queued-implies-unclaimed, and loses no PASS. |
| QueueSpec.ReachableKeeps | harness/foreman/scripts/ledger.py:425-501 | The same for every state any sequence of operations reaches, over all runs, with recovery, reaping and resets. |
| QueueSpec.NeverGating | harness/foreman/scripts/queue.py:68-321 | Without an explicit advance to CI gating, which the orchestrator never asks for, no reachable row is in CI gating. |
| QueueSpec.SweepKeeps | harness/foreman/scripts/queue.py:194-321 | A sweep that commits only on PASS and requeues only unclaimed keeps both invariants. |
| QueueSpec.AdvanceKeeps | harness/foreman/scripts/queue.py:68-84 | A queue transition keeps both invariants. |
| QueueSpec.ParkKeeps | harness/foreman/scripts/queue.py:90-152 | A park with its halts keeps both invariants. |
| QueueSpec.ClaimKeeps | harness/foreman/scripts/ledger.py:477-501 | A claim keeps both invariants. |
| QueueSpec.CreateKeeps | harness/foreman/scripts/ledger.py:383-412 | A new row keeps both invariants. |
| Bundle.BundleIntake.Resolve | harness/foreman/scripts/bundle.py:70-157 | When no root is requested twice: CycleError exactly if the graph over the valid specs has a cycle, listing exactly the nodes on or downstream of one, once each. A resolved order is a build order of the valid specs exactly if no root is requested twice, and then each ordered spec comes after every declared dependency that is ordered, read off its depends_on value. In any case the order holds exactly the admissible requested specs, and the exclusion records hold exactly the other requested slugs, each with its first refusal spelled out by the spec's fields and as often as requested. Where no spec depends on another the order is the request itself without the refused. |
| Bundle.DepsAre | harness/foreman/scripts/bundle.py:107-120 | The dependencies the graph uses are exactly the declared ones, in order: nothing, the one non-empty slug, or the whole list. |
| Bundle.GateMeans | harness/foreman/scripts/bundle.py:81-103 | A spec passes the gates exactly if it exists, has its three approvals, is independent or declares a dependency but not both, and is clean where the lint runs; else the reason is that of the first condition that fails. |
| Bundle.OrderMeans | harness/foreman/scripts/bundle.py:100-157 | A build order of the dependency graph puts every declared dependency that is in the bundle before the spec that declares it. |
| Bundle.ExcludedMember | harness/foreman/scripts/bundle.py:81-103 | A record is among the exclusions exactly if its slug was requested and its reason is the first gate that refuses it. |
| Bundle.ExcludedCount | harness/foreman/scripts/bundle.py:81-103 | A refused slug is excluded as often as it was requested, a valid one never. |
| Bundle.OrderedSharesOut | harness/foreman/scripts/bundle.py:81-157 | Each requested slug is either ordered or excluded, never both, and nothing else is either. |
| Bundle.RequestedTwice | harness/foreman/scripts/bundle.py:122-124 | The witness: a valid spec without dependencies, requested twice, for which Resolve promises the order of the same slug twice. |
| Bundle.RootsDistinct | harness/foreman/scripts/bundle.py:122-124 | The seed queue holds each node once exactly if no dependency-free valid slug is requested twice: the condition under which Kahn's counters are right. |
| Bundle.TopoSort | harness/foreman/scripts/bundle.py:100-157 | Kahn's algorithm: a build order, or every tangled node once, and never both; when it reports no cycle it has emitted every node, duplicates or not. |
| Bundle.Edges | harness/foreman/scripts/bundle.py:100-120 | In-degrees count in-bundle dependencies with multiplicity; dependents mirror them. |
| Bundle.Drain | harness/foreman/scripts/bundle.py:126-140 | Draining the seed queue emits exactly the nodes all of whose dependencies were emitted. |
| Bundle.Release | harness/foreman/scripts/bundle.py:130-138 | Releasing one node lowers the count of each dependent by its multiplicity and queues those that reach zero, once. |
| Bundle.Stuck | harness/foreman/scripts/bundle.py:140-150 | What is left is listed once each. |
| Bundle.CycleIffTangled | harness/foreman/scripts/bundle.py:140-157 | Some node is on a cycle exactly if some node is on or downstream of one. |
| DependencyGraph.StuckIsTangled | harness/foreman/scripts/bundle.py:140-157 | A node that waits for an unemitted one forever is on or downstream of a cycle. |
| DependencyGraph.SortedNotTangled | harness/foreman/scripts/bundle.py:126-157 | A node with a place in a dependency-first order is on no path to a cycle. |
| Bundle.BundleIntake.CommitIntake | harness/foreman/scripts/bundle.py:159-189 | One fresh queued row per ordered spec, at its position, independent or not as the spec says, with exactly the dependencies the spec declares; all other rows stay. |
| Bundle.IntakeRows | harness/foreman/scripts/bundle.py:159-189 | With distinct slugs each row sits at its own position and none is overwritten. |
| Bundle.RowsFollowSpecs | harness/foreman/scripts/bundle.py:159-189 | With distinct slugs each row says what the fields of its spec say, for all three forms of depends_on. |
| RunGuards.CheckSingleFlight | harness/foreman/scripts/bundle_runner.py:547-625 | Locked exactly if a requested spec has a fresh building, verifying or merging row in some run; stale rows are reset in either case. |
| RunGuards.BlocksExactly | harness/foreman/scripts/bundle_runner.py:547-625 | Blocking are exactly the fresh building, verifying and merging rows of requested specs; reset are their stale ones and the stale queued ones. |
| RunGuards.GuardEffect | harness/foreman/scripts/bundle_runner.py:577-605 | Stale rows of the requested specs end queued and claimable, all others as they were, invariants kept; when the guard passes, an unfinished requested row is queued or in CI gating. |
| RunGuards.GuardClears | harness/foreman/scripts/bundle_runner.py:547-625 | While no row is in CI gating, a passed guard leaves every unfinished requested row queued. |
| RunGuards.GuardRows | harness/foreman/scripts/bundle_runner.py:577-605 | The guard requeues exactly the stale requested rows and leaves all others. |
| RunGuards.TripsExactly | harness/foreman/scripts/bundle_runner.py:498-516 | When the breaker trips, for every limit: for n >= 0 exactly if n > 0 and the last n parks of the spec share one non-operational reason; for n < 0 exactly if some park from index -n on is not operational and all such parks share the reason. |
| RunGuards.OperationalExactly | harness/foreman/scripts/bundle_runner.py:483-486 | Which park reasons count as operational, as a list. |
| RunGuards.NegativeLimitTripsEarly | harness/foreman/scripts/bundle_runner.py:498-516 | With any negative limit the park that follows the first -n ones trips it alone. |
| NearMiss.Levenshtein | harness/foreman/scripts/live_db_assert.py:92-110 | The two-row loop computes the recursive edit distance. |
| NearMiss.NextRow | harness/foreman/scripts/live_db_assert.py:101-109 | From the row of distances for i letters, the row for i + 1. |
| NearMiss.Cell | harness/foreman/scripts/live_db_assert.py:101-109 | One table cell from its three neighbours. |
| NearMiss.DistIsLowerBound | harness/foreman/scripts/live_db_assert.py:92-110 | No edit script from a to b costs less than the distance. |
| NearMiss.BestScript | harness/foreman/scripts/live_db_assert.py:92-110 | Some edit script costs exactly the distance. |
| NearMiss.DistZeroIffEqual | harness/foreman/scripts/live_db_assert.py:92-110 | Zero exactly on equal strings. |
| NearMiss.DistSymmetric | harness/foreman/scripts/live_db_assert.py:92-110 | Symmetric, by reversing scripts. |
| NearMiss.DistTriangle | harness/foreman/scripts/live_db_assert.py:92-110 | Triangle inequality, by composing scripts. |
| NearMiss.FindNearMiss | harness/foreman/scripts/live_db_assert.py:113-125 | The first name that shares the prefix, if any; else the first of the closest names within the limit; else none, and then there is none. |
| NearMiss.SharesExactly | harness/foreman/scripts/live_db_assert.py:113-118 | Two names share the prefix exactly if they agree up to its length, or are equal where one is shorter. |
| Redaction.Redact | harness/foreman/scripts/agent_harness.py:33-50 | The nested loops terminate and give the left-to-right redaction by every pattern in turn. |
| Redaction.RedactPattern | harness/foreman/scripts/agent_harness.py:39-49 | Searching from the start again after each substitution gives the same as one left-to-right scan. |
| Redaction.EndOfSpan | harness/foreman/scripts/agent_harness.py:42-46 | The inner loop stops where the span does. |
| Redaction.SpanStops | harness/foreman/scripts/agent_harness.py:42-46 | A span holds no delimiter past the prefix, and stops only for a delimiter, the end or its length. |
| Redaction.MarkerSeparates | harness/foreman/scripts/agent_harness.py:47-48 | The inserted marker creates no occurrence of a credential prefix and hides none. |
| Redaction.RedactedIsClean | harness/foreman/scripts/agent_harness.py:33-50 | The result contains none of the six credential prefixes; a clean text is unchanged; redacting twice is redacting once. |
| Redaction.OneSecret | harness/foreman/scripts/agent_harness.py:33-50 | In a text with one credential of at most 81 characters, that credential, from its prefix to the next delimiter, becomes [REDACTED], and every other character stays. |
| Redaction.RedactDetailIdempotent | harness/foreman/scripts/ledger.py:29-41 | The recursive redaction of an event detail is idempotent, so the second redaction on the way to the ledger adds nothing. |
| Redaction.RedactDetail | harness/foreman/scripts/ledger.py:29-41 | The loops over entries, and over list items, give a scrubbed detail: keys, order, lengths, other values and nested list items stay; each text value at any dictionary depth and each text directly in a list is the redacted text. |
| Redaction.EntriesScrubbed | harness/foreman/scripts/ledger.py:29-41 | That relation holds of the recursive redaction, and pins it. |
| Redaction.ScrubbedSurface | harness/foreman/scripts/ledger.py:29-41 | A scrubbed detail holds no credential prefix in a text value at any dictionary depth or directly in a list, and a detail whose such texts are clean is unchanged. |
| Redaction.SpotlessExactly | harness/foreman/scripts/ledger.py:29-41 | All texts of the result, nested ones included, are clean exactly if what stands inside nested lists and their dictionaries was clean before: the docstring's "all string values" does not hold without that. |
| Redaction.NestedKeyStays | harness/foreman/scripts/ledger.py:29-41 | The witness: a credential in a dictionary inside a list stays. |
| DiffLint.ParseDiff | harness/foreman/scripts/antislop_lint.py:70-161 | The line loop is the fold of the single-line step over the lines of the text. |
| DiffLint.DiffReportsFiles | harness/foreman/scripts/antislop_lint.py:70-161 | For a printed diff that turns one set of files into another: every reported line is the line of its new file at its number, none is reported twice, each file, renamed ones included, has as many as its new lines outnumber those kept of its old file, and the added files are exactly the new ones that are not a renamed old one. |
| DiffLint.CreatedKeys | harness/foreman/scripts/antislop_lint.py:92-134 | In a diff the created paths are the ones that exist only afterwards and are not the new name of a renamed file. |
| DiffLint.ParsedIsPrinted | harness/foreman/scripts/antislop_lint.py:70-161 | Parsing the text of any printed diff, in either format and whatever its lines contain, gives exactly its added lines with their numbers, in order, and exactly the files it creates. |
| DiffLint.ReportedContents | harness/foreman/scripts/antislop_lint.py:88 | Reported contents never hold a line boundary of splitlines, so a diff with such an added line is never reported as it is: the condition on added lines is needed. |
| DiffLint.ReportedAreNew | harness/foreman/scripts/antislop_lint.py:136-159 | If the hunks turn the old file into the new one, each reported line is the line of the new file at its number, each is reported once, and as many are reported as the new file has over the kept ones. |
| DiffLint.CreatedIsWhole | harness/foreman/scripts/antislop_lint.py:136-159 | A created file is reported whole, line by line. |
| DiffLint.CreatedExactly | harness/foreman/scripts/antislop_lint.py:92-134 | The added-file set is right for a file exactly if a created path does not start like a git prefix, and an existing file has no hunk at line 0 with an empty old side. |
| DiffLint.OldSidesShow | harness/foreman/scripts/antislop_lint.py:126-133 | Hunks with something on the old side never mark their file as created. |
| DiffLint.HeaderReads | harness/foreman/scripts/antislop_lint.py:37 | The hunk header pattern reads back the printed start lines and the old count. |
| DiffLint.StepBody | harness/foreman/scripts/antislop_lint.py:140-159 | Inside a hunk only the first character decides, even for contents that look like file headers. |
| DiffLint.SplitText | harness/foreman/scripts/antislop_lint.py:88 | Splitting joined lines gives the lines back, when none holds a boundary. |
| DiffLint.StepGit | harness/foreman/scripts/antislop_lint.py:96-102 | The git header names the file by what follows its last blank: for a rename, the new name. |
| DiffLint.HeaderBlanks | harness/foreman/scripts/antislop_lint.py:104-124 | Blanks around the path of a --- or +++ header make no difference. |
| DiffLint.GitPathExactly | harness/foreman/scripts/antislop_lint.py:96-102 | The git header names a path exactly if it ends in a blank, b/ and a path without blanks of any kind. |
| DiffLint.NoUnnamedFile | harness/foreman/scripts/antislop_lint.py:92-134 | Whatever the lines, a file without a name is never among the added ones. |
| DiffLint.RunHead | harness/foreman/scripts/antislop_lint.py:92-128 | After the header of a patch the file is named and, if created, on record. |
| DiffLint.AllHitsAre | harness/foreman/scripts/antislop_lint.py:176-184 | A slop finding names an added line and a phrase it mentions, and every such pair is found. |
| DiffLint.FindSlop | harness/foreman/scripts/antislop_lint.py:176-184 | The nested loops find the hits in line order, then phrase order. |
| DiffLint.CommentRatio | harness/foreman/scripts/antislop_lint.py:199-203 | The two counts of the comment ratio, test lines left out of both. |
| DiffLint.RunAntislopLint | harness/foreman/scripts/antislop_lint.py:164-208 | FAIL exactly if there is a finding; the findings are exactly the phrase hits, one per added file with a junk name, and the comment-only finding when tests are demanded and the threshold is reached. |
| DiffLint.MentionsExactly | harness/foreman/scripts/antislop_lint.py:176-184 | A line mentions a phrase exactly if, from some position on, it reads as the phrase in whatever case. |
| DiffLint.CommentsCount | harness/foreman/scripts/antislop_lint.py:186-203 | Blank lines and lines that begin with one of the six comment markers, indented or not, count as comments. |
| DiffLint.CodeDoesNot | harness/foreman/scripts/antislop_lint.py:186-203 | A line whose first character past the blanks begins no marker does not. |
| DiffLint.TestPaths | harness/foreman/scripts/antislop_lint.py:51-67 | Paths in a tests directory and file names test_*.py and *_test.py are test paths, at any depth. |
| AgentLoop.AgentHarness.Run | harness/foreman/scripts/agent_harness.py:113-167 | Every request is legal for the budget, tools and prompt of this run: the first is the prompt alone, and each after a tool-use answer is the conversation grown by that answer and by the results of exactly its tool calls, with the texts the tools returned, the calls numbered through the run. The log holds exactly the requests sent; the run stops at the budget or at the model's stop, and within budget-many calls when every answer costs a token; totals, messages and raw output are those of the answered requests; an index error is raised exactly after a retryable answer without delays. |
| AgentLoop.AgentHarness.CallApi | harness/foreman/scripts/agent_harness.py:169-204 | At most four sends of one request; only a success is returned or paid for; an API error after a retryable answer comes after exactly four; an error keeps a redacted body; an index error exactly if the list of delays is empty and the first answer is retryable. |
| AgentLoop.AgentHarness.Send | harness/foreman/scripts/agent_harness.py:181-186 | One request is sent, and stands with its answer at the end of a legal log. |
| AgentLoop.AgentHarness.Dispatch | harness/foreman/scripts/agent_harness.py:152-163 | One result per tool use, in order, with its id and the text the tool returned for that call, its name and its input; the tool is called exactly that often. |
| AgentLoop.AgentHarness.CollectTexts | harness/foreman/scripts/agent_harness.py:137-141 | The non-empty text blocks, in order. |
| AgentLoop.EveryRequest | harness/foreman/scripts/agent_harness.py:119-132 | Each request of a legal log carries a well-formed conversation (user and assistant in turn, results answering the preceding tool uses in order) that is the prompt, a retry, or the continuation with the delivered tool results, and the token limit that is left, at most 8096. |
| AgentLoop.ConversationsGrow | harness/foreman/scripts/agent_harness.py:165-167 | Earlier conversations are prefixes of later ones; equal ones are retries of failures. |
| AgentLoop.RequestsAreBounded | harness/foreman/scripts/agent_harness.py:119-204 | With at least a token per answer a budget b pays for at most b answers and 4b requests. |
| AgentLoop.Extended | harness/foreman/scripts/agent_harness.py:165-167 | Appending a reply and its results keeps the conversation well-formed. |
| AgentLoop.DeliversMore | harness/foreman/scripts/agent_harness.py:152-163 | One more block adds the text its tool call returned, or nothing if it is no tool use. |
| AgentLoop.ExtendedContinues | harness/foreman/scripts/agent_harness.py:165-167 | The conversation extended by an answer and its delivered results is its one legal continuation. |
| AgentLoop.RetryableExactly | harness/foreman/scripts/agent_harness.py:188-197 | Retryable are 429, 500 and 502 to 504, a success is anything below 400. |
| AgentLoop.JoinSnoc | harness/foreman/scripts/agent_harness.py:137-148 | The raw output puts each further text on a new line. |
| AgentLoop.ErrorBodyIsClean | harness/foreman/scripts/agent_harness.py:60-65 | The kept error body is short and holds no credential prefix, also after the second cut. |
| AgentLoop.ErrorBodyKept | harness/foreman/scripts/agent_harness.py:60-65 | What is kept of a body is the start of its redacted start; a short clean body is kept whole. |
| WorkerPool.ComputeCap | harness/subagents/worker_pool.py:65-89 | An error exactly on a missing or non-positive setting; else between 1 and the maximum, within budget whenever one footprint is, and the largest such number. |
| WorkerPool.EveryInterleaving | harness/subagents/worker_pool.py:162-216 | After any legal interleaving: permits and holders add up to the cap, live workers and their memory stay within it, the run takes exactly 5n + 1 steps, is never stuck before, and then has delivered. |
| WorkerPool.StepInv | harness/subagents/worker_pool.py:189-204 | Every thread step keeps permits plus holders, one call per item, and the join order. |
| WorkerPool.NoDeadlock | harness/subagents/worker_pool.py:189-209 | Until the outcome is there some thread can move. |
| WorkerPool.StepCounts | harness/subagents/worker_pool.py:189-209 | Every step leaves exactly one step fewer. |
| WorkerPool.FinishedDelivers | harness/subagents/worker_pool.py:206-216 | Each item was called once; index-aligned results, or the error of the lowest failing index. |
| WorkerPool.WorkerPool.Run | harness/subagents/worker_pool.py:162-216 | Configuration errors leave no record; else the record precedes dispatch, and what the pool ends in is reached from its start by a legal interleaving of thread steps, each item called once, under any schedule. |
| WorkerPool.WorkerPool.Dispatch | harness/subagents/worker_pool.py:178-216 | Started to joined under any schedule: the steps taken are a legal interleaving, end the run, and deliver index-aligned results or the error of the lowest failing index. |
| Watchdog.SessionWatchdog.Start | harness/foreman/scripts/watchdog.py:116-124 | A new session: clocks start now, nothing has fired, the trace stays throttled. |
| Watchdog.SessionWatchdog.SetCpuProbe | harness/foreman/scripts/watchdog.py:126-138 | A new probe starts from no base; the session start stays. |
| Watchdog.SessionWatchdog.SampleCpu | harness/foreman/scripts/watchdog.py:140-161 | The trace grows by exactly one sample of a working probe, by its failure if it raises, and by nothing else; fields agree with the trace. |
| Watchdog.SessionWatchdog.NoteOutput | harness/foreman/scripts/watchdog.py:167-174 | Output is on the trace, and a heartbeat follows if due. |
| Watchdog.SessionWatchdog.Tick | harness/foreman/scripts/watchdog.py:176-179 | A dead process causes no heartbeat. |
| Watchdog.SessionWatchdog.Heartbeat | harness/foreman/scripts/watchdog.py:185-215 | The sink is called exactly when a heartbeat is due at the clock reading, and the trace grows by exactly that call and its success; only a delivered one counts as a write. |
| Watchdog.SessionWatchdog.OverdueReason | harness/foreman/scripts/watchdog.py:221-238 | The verdict on the whole trace, after one more sample; the check goes on record. |
| Watchdog.BeatsAreSpaced | harness/foreman/scripts/watchdog.py:185-215 | Any two sink calls of a session are an interval apart, two after three failures in a row. |
| Watchdog.DueExactly | harness/foreman/scripts/watchdog.py:185-215 | A heartbeat is due exactly if none was sent in this session or the last call lies at least the interval back, twice the interval after three failures in a row. |
| Watchdog.WedgedExactly | harness/foreman/scripts/watchdog.py:221-238 | Wedged exactly if below the cap, alive, silent for the threshold, and a working probe saw no advance in it. |
| Watchdog.WedgedMeansIdle | harness/foreman/scripts/watchdog.py:140-161 | A session killed as wedged burnt less than epsilon between any two samples of the window whose first is not below the total of the last advance. |
| Watchdog.WorkShowsExactly | harness/foreman/scripts/watchdog.py:153-161 | Work of epsilon after a sample always shows as an advance exactly if the sample is not below the total of the last advance. |
| Watchdog.BelowBase | harness/foreman/scripts/watchdog.py:140-161 | While totals do not fall, no sample is. |
| Watchdog.FallingTotalHidesWork | harness/foreman/scripts/watchdog.py:345-353 | When a child exits the total falls, and a session that burnt five CPU seconds in the last minute still counts as wedged. |
| Watchdog.Supervise | harness/foreman/scripts/watchdog.py:283-321 | Supervision ends, and how is what the answers say: killed, stopped, or dead by itself at the first round that says so; its checks are those on record; every check but a killing one lies below the cap; a kill has its reason and comes with the last check, so a session checked at gaps of at most s is killed by start + cap + s; one that stays alive and is never stopped is killed. |
| Watchdog.CheckLive | harness/foreman/scripts/watchdog.py:309-315 | One round: a heartbeat if due, then one check, with its verdict. |
| Shards.ShardsAreWhole | harness/foreman/scripts/agent_tools.py:249-279 | After any interleaving of writers with crashes and raises anywhere, a shard is absent only if nothing landed on it; else it holds its old content or the whole text of one landed write. |
| Shards.StepOwned | harness/foreman/scripts/agent_tools.py:267-279 | A live temporary file holds exactly what its one writer has written. |
| Shards.StepWhole | harness/foreman/scripts/agent_tools.py:267-279 | No step leaves a partial shard or loses one. |
| Shards.FileSystem.WriteShard | harness/foreman/scripts/agent_tools.py:249-279 | Written whole, or raised with no trace left, or crashed leaving only the temporary prefix. |
| Shards.FileSystem.PendingItems | harness/foreman/scripts/agent_tools.py:310-326 | Exactly the keys whose shard is absent or does not parse, in order; raises exactly on a file that is not UTF-8. |
| Shards.FileSystem.IterShards | harness/foreman/scripts/agent_tools.py:295-308 | Exactly the parsed shards, in order; raises exactly on a file that is not UTF-8. |
| Shards.PendingIsComplement | harness/foreman/scripts/agent_tools.py:295-326 | In one file-system state yielded and pending keys are together the keys asked for, with multiplicity, and share none. |
| Shards.FileSystem.Resume | harness/foreman/scripts/agent_tools.py:310-326 | Rewriting the pending keys leaves none pending and does not touch what was done. |
| CoverageLoop.SelectTargetFile | harness/foreman/scripts/loops/loop_005_test_coverage.py:29-40 | None exactly if every file is stalled or without uncovered lines; else a file that is neither, with the most uncovered lines among those and, among equals, the earliest path. |
| CoverageLoop.TargetIsUnique | harness/foreman/scripts/loops/loop_005_test_coverage.py:29-40 | The choice does not depend on the order in which files are listed. |
| CoverageLoop.BeforeExactly | harness/foreman/scripts/loops/loop_005_test_coverage.py:29-40 | Earlier means: at the first difference of two paths, the one that ends or has the smaller character. |
| CoverageLoop.Dispatcher.Dispatch | harness/foreman/scripts/loops/loop_005_test_coverage.py:98-273 | Which way the loop ends, and on which reports, is what the clock, the agent's outputs and the two pushes say: success on a reported success or at the threshold, a stall exactly at the first report that is a second one of no change for its file, the ceiling exactly when the clock reaches it before a prompt, an error otherwise. At most one pull request, after a push, opened exactly on a success that is no no-op, with the coverage before and after and the changed files; prompts never name a stalled file. |
| CoverageLoop.ThresholdExactly | harness/foreman/scripts/loops/loop_005_test_coverage.py:92-95 | The threshold is reached exactly if coverage is at it, or at what rounds to 100. |
| CoverageLoop.Dispatcher.Judge | harness/foreman/scripts/loops/loop_005_test_coverage.py:211-262 | One report ends the run at the threshold, else at a stall, else only its change and its effect on the tracker are kept. |
| CoverageLoop.Dispatcher.Close | harness/foreman/scripts/loops/loop_005_test_coverage.py:159-273 | How an output that is no report ends the run: the success it claims, the error it names, or nothing to read. |
| CoverageLoop.Dispatcher.Deliver | harness/foreman/scripts/loops/loop_005_test_coverage.py:191-209 | Push and pull request of a success, and an error exactly if one of them fails. |
| CoverageLoop.OpenDecides | harness/foreman/scripts/loops/loop_005_test_coverage.py:98-273 | Where no report so far reached the threshold or stalled, what decides the run is, in this order, the number of rounds, the clock, and the next output. |
| CoverageLoop.Dispatcher.PushAndOpen | harness/foreman/scripts/loops/loop_005_test_coverage.py:191-209 | The pull request directly follows the push; a raise of either opens none. |
| CoverageLoop.Track | harness/foreman/scripts/loops/loop_005_test_coverage.py:245-258 | The tracker counts zero deltas per file, and reports a stall exactly at the second. |
| CoverageLoop.StallIsSecondZero | harness/foreman/scripts/loops/loop_005_test_coverage.py:245-258 | Reaching the limit is seeing the second report of no change with no change for that file in between. |
| CoverageLoop.FirstReportCounts | harness/foreman/scripts/loops/loop_005_test_coverage.py:245-258 | The first stall of a run counts the first report, which was compared with nothing, exactly if that report named the same file and no report of a change for the file lies between. |
| CoverageLoop.FirstReportStalls | harness/foreman/scripts/loops/loop_005_test_coverage.py:245-258 | The witness: two first reports of equal coverage for one file are a stall. |
| CoverageLoop.ZeroRunIs | harness/foreman/scripts/loops/loop_005_test_coverage.py:245-258 | A positive count means an unbroken run of unchanged reports for that file. |

## Left out

- The Supabase backend, its HTTP helpers and the live-database client: the ledger is the in-memory one, the database gate is an answer. Through the `list_resumable_tasks` view the Supabase ledger does not show terminal rows to recovery, so `QueueSpec.RecoverOutcome` on terminal rows is about the in-memory ledger only.
- Specs appended to a live run: their build order and dependencies are written by a component that is not part of this model.
- The inside of the pre-claim gates, manifest lint, scaffolding guard, conformance, substance and live-database checks: each is one answer per call, in the order of the source.
- BundleRunner.BundleRunner.Run: is called on a runner that has made no claim yet, with a run id no row has, which `_run_id` mints, and a bundle in which no dependency-free valid spec is requested twice; without the latter `resolve` itself goes wrong, exactly as stated by `Bundle.BundleIntake.Resolve`.
- The startup sweep over stranded build_runs rows: those rows are not part of the ledger model. What counts as stale is a predicate on rows.
- BundleRunner.BundleRunner.Process: the circuit breaker is one answer, so the run holds for any breaker; `RunGuards.TripsExactly` says what the real one does.
- GitOps.Git.PreserveBranch: what the remote-tracking ref of the build branch resolves to is an answer; the object store of the clone is not changed by its fetch.
- GitOps.Git.Settle: other parties move any ref of origin but move the base branch only forward; a force-push to base by someone else is outside the model. Commits are identified with their content, and the base ref is not one of the branch names the runner mints.
- The rollback in `commit_intake`: inserting an in-memory row cannot fail.
- GPG-signed merges, token resolution, subprocess and Docker transports, PTY handling and process probes.
- Run events other than those of the trace, halt chains, run notes, reports sent to the database, prompts and their findings text. Findings are counted, not read.
- Timestamps are integers, watchdog times and coverage are exact reals, and a timestamp is either a number or unreadable; rounding and ISO parsing are not modelled.
- Redaction.Redact: texts are sequences of characters; no Unicode normalisation. The same holds for `DiffLint`, whose digits and lower-casing are ASCII.
- DiffLint.DiffReportsFiles: copies, which `git diff` reports only when asked to, are not among the changes.
- DiffLint.ParsedIsPrinted: paths hold no whitespace, Unicode blanks included; a path with blanks breaks the git header pattern, and a created file is then filed under the previous name. Every printed line is terminated, which `splitlines` does not distinguish from a missing last newline.
- DiffLint.RunAntislopLint: the junk-name patterns are a predicate on base names, and junk findings come in no particular order; the source sorts the paths. The detail of the comment-only finding, the ratio as text, is left empty.
- WorkerPool.WorkerPool.Run: `worker_fn` gives one answer per item and always returns or raises; reading and parsing the environment is reduced to present-or-missing numbers.
- Watchdog.SessionWatchdog.Heartbeat: each method is atomic. With two threads between the check and the update of the throttle two sink calls can come closer together.
- Watchdog.Supervise: needs a positive step and a started session; with a step of zero the source polls without waiting.
- AgentLoop.AgentHarness.Run: followed for a given number of answered calls, since answers that cost nothing would let the source loop for ever; a tool is any function of the number of the call, its name and its input; a raising tool is not modelled.
- Shards.ShardsAreWhole: crashes are those of a process; a file system that loses renamed data at power failure is outside the model. Keys are names, not paths with separators.
- Shards.FileSystem.Resume: assumes that what `json.dump` writes parses again.
- CoverageLoop.Dispatcher.Dispatch: followed for a given number of agent invocations; the agent's output is what the three patterns find in it, and the default push and pull-request commands are two answers.
- The straight-line Phase 1 runner and the council fan-out: they would only add easy members.
