/** BundleRunner: the build-verify-fix-retry machine of one task, and the main loop over a bundle. */
module BundleRunner {
  import opened Models
  import opened GitOps
  import opened Ledger
  import opened QueueSpec
  import opened Queue
  import opened Trace
  import opened RunSpec
  import opened DependencyGraph
  import opened Bundle
  import opened TaskInputs
  import opened TaskCourse
  import opened RunCourse
  import RunGuards

  /** How a stage of a task ends when it does not raise: with a disposition, or handing control back. */
  datatype Step = Done(d: Disposition) | Onward

  datatype FixResult = FixDone(d: Disposition) | FixNoCommit | FixUnreadable | FixFailed(findings: nat)

  datatype BuildStep = Built(commit: Commit, branch: Ref, base: Commit) | RetryBuild | Stopped(d: Disposition)

  /** The ending that an outcome and a disposition amount to. */
  function Came(o: Outcome, d: Disposition): Ending {
    if o.Raise? then Raises(o.exn) else Fate(d)
  }

  predicate Handed(o: Outcome, step: Step) { o.Ok? && step.Onward? }

  function EndedAs(o: Outcome, step: Step): Ending
    requires !Handed(o, step)
  {
    if o.Raise? then Raises(o.exn) else Came(o, step.d)
  }

  /** It ended as `e` says, and unless it raised left the world as `e` says. */
  predicate Fits(o: Outcome, d: Disposition, here: World, e: End) {
    Came(o, d) == e.ending && (o.Ok? ==> here == e.world)
  }

  predicate StepFits(o: Outcome, step: Step, here: World, e: End) {
    !Handed(o, step) && EndedAs(o, step) == e.ending && (o.Ok? ==> here == e.world)
  }

  // How the stages of a task end, against what its inputs say about them.

  ghost predicate BuildMatches(turn: BuildTurn, o: Outcome, r: BuildStep, branch: Ref, secs: nat, here: World) {
    match turn
    case BuildOk(commit, from, w, s) => o.Ok? && r == Built(commit, branch, from) && here == w && secs == s
    case BuildAgain(w, s) => o.Ok? && r.RetryBuild? && here == w && secs == s
    case BuildEnds(e) => if o.Raise? then e.ending == Raises(o.exn) else r.Stopped? && Fits(o, r.d, here, e)
  }

  ghost predicate FixMatches(env: Env, turn: FixTurn, o: Outcome, r: FixResult, here: World) {
    match turn
    case FixPassed(p) =>
      if o.Raise? then EndingAt(env, p).ending == Raises(o.exn) else r.FixDone? && Fits(o, r.d, here, EndingAt(env, p))
    case FixEmpty(w) => o.Ok? && r.FixNoCommit? && here == w
    case FixUnread(w) => o.Ok? && r.FixUnreadable? && here == w
    case FixFails(w, findings) => o.Ok? && r == FixFailed(findings) && here == w
  }

  /** A fix pass either ends with its builder, or is decided by the verification of the fix that landed. */
  lemma FirstBuildOfFix(env: Env, w: World, branch: Ref, from: Commit)
    ensures var (commit, built) := (env.answers(w.at).commit, AfterBuild(env, w, branch));
            if commit.None? then FixMatches(env, OneFix(env, w, branch, from), Ok, FixNoCommit, built)
            else OneFix(env, w, branch, from) == ReadFix(env, built, commit.value, branch, from)
  {
    hide AfterBuild, ReadFix;
  }

  ghost predicate LaneMatches(env: Env, turn: LaneTurn, o: Outcome, step: Step, budget: int, here: World,
                              status: TaskStatus)
  {
    match turn
    case LanePassed(p) => StepFits(o, step, here, EndingAt(env, p))
    case LaneStops(e) => StepFits(o, step, here, e)
    case LaneEnds(w, left, empty) =>
      Handed(o, step) && here == w && budget == left && status == if empty then Building else Verifying
  }

  ghost predicate TurnMatches(env: Env, turn: AttemptTurn, o: Outcome, step: Step, secs: nat, budget: int,
                              here: World) {
    match turn
    case Passed(p) => StepFits(o, step, here, EndingAt(env, p))
    case Stops(e) => StepFits(o, step, here, e)
    case HandsOn(w, s, left) => Handed(o, step) && here == w && secs == s && budget == left
  }

  datatype Report = Report(
    committed: seq<string>, parked: seq<string>, halted: seq<HaltRecord>, excluded: seq<ExclusionRecord>)

  /** Why a task counts as committed: its chain lies between two positions of the run's trace, and ends in the
      recorded commit. */
  datatype Proof = Proof(from: nat, to: nat, ticket: Ticket, sha: Commit)

  /** The proof is about this task and this run: its chain lies in the run's own trace, after `start`; the row is
      committed at the recorded commit; and that commit with its whole history is on the base branch, as is the
      claimed commit if the merged tips held it. */
  ghost predicate Backed(p: Proof, key: Key, trace: seq<Event>, start: nat, T: map<Key, Task>, base: set<Commit>) {
    && start <= p.from <= p.to <= |trace| && p.ticket.key == key
    && CommitEvidence(trace[..p.to], p.from, p.ticket, p.sha)
    && key in T && T[key].status == Committed && RecordsSha(T[key], p.sha)
    && History(p.sha) <= base && (TipsHoldClaim(p.ticket) ==> p.ticket.claimed in base)
  }

  ghost predicate Proven(proofs: map<string, Proof>, trace: seq<Event>, start: nat, T: map<Key, Task>, run: string,
                         committed: seq<string>, base: set<Commit>)
  {
    forall s :: s in committed ==> s in proofs && Backed(proofs[s], Key(run, s), trace, start, T, base)
  }

  /** A chain recorded since `from` backs the task it ends with. */
  lemma ChainBacks(trace: seq<Event>, start: nat, from: nat, ticket: Ticket, sha: Commit,
                   T: map<Key, Task>, base: set<Commit>)
    requires start <= from && CommitEvidence(trace, from, ticket, sha) && History(sha) <= base
    requires ticket.key in T && T[ticket.key].status == Committed && RecordsSha(T[ticket.key], sha)
    ensures Backed(Proof(from, |trace|, ticket, sha), ticket.key, trace, start, T, base)
  {
    assert trace[..|trace|] == trace;
    ClaimReachesBase(trace, from, ticket, sha);
    hide EndsWith;
  }

  lemma BackedGrows(p: Proof, key: Key, trace: seq<Event>, trace': seq<Event>, start: nat,
                    T: map<Key, Task>, T': map<Key, Task>, base: set<Commit>, base': set<Commit>)
    requires Backed(p, key, trace, start, T, base) && trace <= trace' && base <= base' && key in T' && T'[key] == T[key]
    ensures Backed(p, key, trace', start, T', base')
  {
    hide CommitEvidence;
    assert trace'[..p.to] == trace[..p.to];
  }

  /** What has been proven stays so while another task of the run is processed. */
  lemma ProvenGrows(proofs: map<string, Proof>, trace: seq<Event>, trace': seq<Event>, start: nat,
                    T: map<Key, Task>, T': map<Key, Task>, run: string, committed: seq<string>,
                    base: set<Commit>, base': set<Commit>, key: Key)
    requires Proven(proofs, trace, start, T, run, committed, base) && trace <= trace' && base <= base'
    requires key in T && T[key].status == Queued
    requires Touched(T, T', key) || exists d :: Disposed(T, T', key, d)
    ensures Proven(proofs, trace', start, T', run, committed, base')
  {
    hide Touched, Disposed;
    forall s | s in committed ensures Backed(proofs[s], Key(run, s), trace', start, T', base') {
      var k := Key(run, s);
      assert T[k].status == Committed;
      CommittedStays(T, T', key, k);
      BackedGrows(proofs[s], k, trace, trace', start, T, T', base, base');
    }
  }

  lemma ProvenMore(proofs: map<string, Proof>, trace: seq<Event>, start: nat, T: map<Key, Task>, run: string,
                   committed: seq<string>, base: set<Commit>, slug: string, p: Proof)
    requires Proven(proofs, trace, start, T, run, committed, base) && Backed(p, Key(run, slug), trace, start, T, base)
    ensures Proven(proofs[slug := p], trace, start, T, run, committed + [slug], base)
  {
    hide Backed;
  }

  /** Every committed row of the run is one of `done`, and holds a commit that is on the base branch with its whole
      history. */
  ghost predicate CommittedOnBase(T: map<Key, Task>, run: string, done: seq<string>, base: set<Commit>) {
    forall k :: k in T && k.run == run && T[k].status == Committed ==>
      && k.slug in done
      && CommitSha in T[k].data && T[k].data[CommitSha].Sha? && History(T[k].data[CommitSha].commit) <= base
  }

  lemma ProvenOnBase(proofs: map<string, Proof>, trace: seq<Event>, start: nat, T: map<Key, Task>, run: string,
                     done: seq<string>, base: set<Commit>)
    requires Proven(proofs, trace, start, T, run, done, base) && CommittedListed(T, run, done)
    ensures CommittedOnBase(T, run, done, base)
  {
    hide CommitEvidence, History, TipsHoldClaim;
    forall k | k in T && k.run == run && T[k].status == Committed
      ensures k.slug in done && CommitSha in T[k].data && T[k].data[CommitSha].Sha?
              && History(T[k].data[CommitSha].commit) <= base
    {
      assert Backed(proofs[k.slug], Key(run, k.slug), trace, start, T, base);
    }
  }

  lemma CommitRow(T: map<Key, Task>, T': map<Key, Task>, key: Key, sha: Commit)
    requires Disposed(T, T', key, CommittedAt(sha))
    ensures key in T' && T'[key].status == Committed && RecordsSha(T'[key], sha)
  {
  }

  lemma OthersStayGuarded(T0: map<Key, Task>, T1: map<Key, Task>, T2: map<Key, Task>, run: string,
                          slugs: seq<string>, stale: Key -> bool, force: bool)
    requires RunGuards.OthersGuarded(T0, T1, slugs, stale, force) && OthersSame(T1, T2, run)
    requires forall k :: k in T0 ==> k.run != run
    ensures RunGuards.OthersGuarded(T0, T2, slugs, stale, force)
  {
  }

  lemma StartOfLoop(T: map<Key, Task>, run: string, trace: seq<Event>, base: set<Commit>)
    ensures OthersSame(T, T, run)
    ensures forall proofs, start :: Proven(proofs, trace, start, T, run, [], base)
  {
  }

  /** Intake of a build order under a fresh run id sets the loop up: the attestation gate makes independent rows
      dependency-free, positions follow the order, and nothing is finished yet. */
  lemma {:induction false} IntakeStarts(s: LedgerState, specs: map<string, Spec>, lint: bool, slugs: seq<string>,
                                        run: string,
                     order: seq<string>)
    requires Invariant(s) && BuildOrder(ValidGraph(specs, lint, slugs), order)
    requires forall k :: k in s.tasks ==> k.run != run
    ensures forall x :: x in order ==> x in specs
    ensures var T := Intake(s.tasks, specs, run, order);
            && Between(T, run, ValidGraph(specs, lint, slugs), order, [], [], [])
            && OthersSame(s.tasks, T, run) && Invariant(s.(tasks := T))
            && forall k :: k in T && k.run == run ==> T[k].status == Queued && !Truthy(T[k].data, CommitSha)
  {
    hide Invariant, IsBundle, Safe, Settled, Reported, OthersSame, Intake;
    IntakeKeeps(s, specs, run, order);
    IntakeRows(s.tasks, specs, run, order);
    FreshBundle(s.tasks, specs, lint, slugs, run, order);
    FreshIsSafe(Intake(s.tasks, specs, run, order), run);
    assert Slugs([]) == [];
  }

  lemma FreshBundle(T0: map<Key, Task>, specs: map<string, Spec>, lint: bool, slugs: seq<string>, run: string,
                    order: seq<string>)
    requires BuildOrder(ValidGraph(specs, lint, slugs), order) && forall k :: k in T0 ==> k.run != run
    ensures var T := Intake(T0, specs, run, order);
            && IsBundle(T, run, ValidGraph(specs, lint, slugs), order) && OthersSame(T0, T, run)
            && forall k :: k in T && k.run == run ==> T[k].status == Queued && !Truthy(T[k].data, CommitSha)
  {
    hide Intake, DepsFirst, NoDups;
    assert NoDups(order);
    IntakeRows(T0, specs, run, order);
    var T := Intake(T0, specs, run, order);
    forall k | k in T && k.run == run
      ensures T[k].status == Queued && !Truthy(T[k].data, CommitSha)
    {
      var i :| 0 <= i < |order| && order[i] == k.slug;
      assert Key(run, order[i]) == k;
    }
    forall i | 0 <= i < |order|
      ensures order[i] in ValidGraph(specs, lint, slugs) && Key(run, order[i]) in T
      ensures var t := T[Key(run, order[i])];
              t.buildOrder == i && t.dependsOn == ValidGraph(specs, lint, slugs)[order[i]]
              && (t.independent ==> t.dependsOn == [])
    {
      assert order[i] in order;
    }
  }

  lemma FreshIsSafe(T: map<Key, Task>, run: string)
    requires forall k :: k in T && k.run == run ==> T[k].status == Queued
    ensures Safe(T, run) && Settled(T, run) && Reported(T, run, [], [], [])
  {
  }

  lemma {:induction false} IntakeKeeps(s: LedgerState, specs: map<string, Spec>, run: string, order: seq<string>)
    requires Invariant(s) && forall x :: x in order ==> x in specs
    ensures Invariant(s.(tasks := Intake(s.tasks, specs, run, order)))
  {
    if order != [] {
      var n := |order| - 1;
      assert forall x :: x in order[..n] ==> x in order;
      IntakeKeeps(s, specs, run, order[..n]);
      CreateKeeps(s.(tasks := Intake(s.tasks, specs, run, order[..n])), Key(run, order[n]),
                  FreshTask(n, Deps(specs[order[n]].dependsOn), specs[order[n]].independent));
    } else {
      assert s.(tasks := s.tasks) == s;
    }
  }

  /** Recovery and reaping find nothing to do on rows that were all just queued. */
  lemma {:induction false} SweepsIdle(s: LedgerState, ks: seq<Key>, now: int, threshold: int, minutes: int)
    requires forall k :: k in ks ==> k in s.tasks && s.tasks[k].status == Queued && !Truthy(s.tasks[k].data, CommitSha)
    ensures Sweep(s, ks, Recovering(now, threshold)) == (s, [])
    ensures Sweep(s, ks, Reaping(now, minutes)) == (s, [])
  {
    SweepNothing(s, ks, Recovering(now, threshold));
    SweepNothing(s, ks, Reaping(now, minutes));
  }

  /** What polling returns may be claimed, and the bundle is finished when polling returns nothing. */
  lemma Polled(T: map<Key, Task>, run: string, g: Graph, order: seq<string>,
               committed: seq<string>, parked: seq<string>, halted: seq<HaltRecord>)
    requires Between(T, run, g, order, committed, parked, halted) && BuildOrder(g, order)
    ensures NoneQueued(T, run) ==> Partition(order, committed, parked, Slugs(halted))
    ensures forall key :: IsNext(T, run, key) ==>
              SafeClaim(RunSpec.Claim(key, T)) && DepsCommitted(T, g, key) && T[key].status == Queued
  {
    if NoneQueued(T, run) { FinishedIsPartition(T, run, g, order, committed, parked, Slugs(halted)); }
    forall key | IsNext(T, run, key) ensures SafeClaim(RunSpec.Claim(key, T)) && DepsCommitted(T, g, key) {
      NextIsSafe(T, run, g, order, key);
      NextDepsCommitted(T, run, g, order, key);
    }
  }

  /** Since position `from` of the log, every claim of the run is on a valid spec of the request, and each dependency
      the spec declares that is a valid spec of the request as well has been logged as committed before. */
  ghost predicate DeclaredClaims(log: seq<WriteEntry>, from: nat, run: string, specs: map<string, Spec>, lint: bool,
                                 slugs: seq<string>)
  {
    forall i :: from <= i < |log| && log[i].Claimed? ==>
      var s := log[i].key.slug;
      && log[i].key.run == run && s in slugs && Admissible(specs, lint, s)
      && forall d :: Declares(specs[s], d) && d in slugs && Admissible(specs, lint, d) ==>
           CommitLogged(log, from, i, Key(run, d))
  }

  lemma ClaimsAreDeclared(log: seq<WriteEntry>, from: nat, run: string, specs: map<string, Spec>, lint: bool,
                          slugs: seq<string>)
    requires ClaimsFollow(log, from, run, ValidGraph(specs, lint, slugs))
    ensures DeclaredClaims(log, from, run, specs, lint, slugs)
  {
    hide CommitLogged, Bundle.Gate, Deps, Declares, Admissible;
    var g := ValidGraph(specs, lint, slugs);
    forall s ensures s in g <==> s in slugs && Admissible(specs, lint, s) {
      GateMeans(specs, lint, s);
      AdmissibleExists(specs, lint, s);
    }
    forall s | s in specs ensures forall d :: d in Deps(specs[s].dependsOn) <==> Declares(specs[s], d) {
      DepsAre(specs[s]);
    }
    forall i | from <= i < |log| && log[i].Claimed?
      ensures log[i].key.run == run && log[i].key.slug in slugs && Admissible(specs, lint, log[i].key.slug)
      ensures log[i].key.slug in specs
              && forall d :: Declares(specs[log[i].key.slug], d) && d in slugs && Admissible(specs, lint, d) ==>
                   CommitLogged(log, from, i, Key(run, d))
    {
      assert ClaimFollows(log, from, i, run, g);
    }
  }

  class BundleRunner {
    const config: Config
    const ledger: InMemoryLedger
    const git: Git
    const answers: Answers
    var asked: nat
    ghost var trace: seq<Event>
    ghost var claims: seq<Claim>
    ghost var proofs: map<string, Proof>
    ghost var logBase: seq<WriteEntry>   // the write log when the main loop started
    ghost var bundle: Graph              // the bundle it works on

    constructor (config: Config, ledger: InMemoryLedger, git: Git, answers: Answers)
      ensures this.config == config && this.ledger == ledger && this.git == git && this.answers == answers
      ensures trace == [] && claims == [] && proofs == map[] && asked == 0 && logBase == [] && bundle == map[]
    {
      this.config, this.ledger, this.git, this.answers := config, ledger, git, answers;
      asked, trace, claims, proofs, logBase, bundle := 0, [], [], map[], [], map[];
    }

    ghost function Inputs(): Env { Env(config, answers, Named(git.baseRef), git.answers) }

    ghost function Here(): World reads this`asked, git { World(asked, git.repo, git.asked) }

    /** The task is the ledger's own row and belongs to the queue's run; both invariants hold; and the write log
        tells of every commit in the bundle, and of each claim only after the commits it needs. */
    ghost predicate Ready(queue: TaskQueue, task: TaskRow)
      reads this`logBase, this`bundle, ledger, ledger.Rows(), git
    {
      && queue.ledger == ledger && queue.runId == task.key.run
      && ledger.Valid() && ledger.Ordered() && ledger.Owns(task) && git.Valid() && Invariant(ledger.state)
      && Told(logBase, ledger.writeLog, ledger.state.tasks, queue.runId, bundle)
    }

    /** The ledger holds the task's row. */
    lemma ReadyRow(queue: TaskQueue, task: TaskRow)
      requires Ready(queue, task)
      ensures task.key in ledger.state.tasks && ledger.state.tasks[task.key] == task.View()
    {
      ledger.RowState(task);
    }

    /** Nothing but the oracle position changed. */
    method Ask() returns (a: Answer)
      modifies this`asked
      ensures a == answers(old(asked)) && asked == old(asked) + 1
    {
      a := answers(asked);
      asked := asked + 1;
    }

    ghost method Log(e: Event)
      modifies this`trace
      ensures trace == old(trace) + [e]
      ensures Builds(trace) == Builds(old(trace)) + if e.BuildCalled? then 1 else 0
      ensures Landed(trace) == Landed(old(trace)) + if e.BuildCalled? && e.produced.Some? then 1 else 0
      ensures Verifies(trace) == Verifies(old(trace)) + if e.VerifyCalled? then 1 else 0
    {
      CountSnoc(trace, e);
      trace := trace + [e];
    }

    /** The trace has grown, and no transport call was made. */
    twostate predicate NoCalls() reads this {
      && old(trace) <= trace
      && Builds(trace) == Builds(old(trace)) && Landed(trace) == Landed(old(trace))
      && Verifies(trace) == Verifies(old(trace))
    }

    // ------------------------------------------------------------------ ledger moves

    /** `queue.advance`, recorded with what it wrote when it succeeds. */
    method Move(queue: TaskQueue, task: TaskRow, status: TaskStatus, f: Fields) returns (o: Outcome)
      requires Ready(queue, task) && OwnVerdict(f)
      requires status == Committed ==> HasPass(ledger.state, task.key)
      modifies this`trace, ledger`brs, ledger`writeLog, ledger`state, ledger.Rows()
      ensures Ready(queue, task) && Touched(old(ledger.state.tasks), ledger.state.tasks, task.key) && NoCalls()
      ensures if CanMove(old(task.status), status)
              then o.Ok? && task.status == status && trace == old(trace) + [Advanced(task.key, status, f)]
                   && task.data == old(task.data) + f
              else o == Raise(InvalidTransition) && ledger.state == old(ledger.state) && trace == old(trace)
                   && task.status == old(task.status)
      ensures o.Ok? && (Carries(f, PASS) || old(HasPass(ledger.state, task.key))) ==>
                HasPass(ledger.state, task.key)
    {
      hide Told, Invariant, InMemoryLedger.Ordered, InMemoryLedger.Valid, Repo.Valid, Touched, QueueSpec.Advance,
        Carries, CanMove;
      ledger.RowState(task);
      AdvanceEffect(ledger.state, task.key, status, f);
      ghost var s, log := ledger.state, ledger.writeLog;
      o := queue.Advance(task, status, f);
      ledger.RowState(task);
      ToldMove(logBase, log, ledger.writeLog, s.tasks, ledger.state.tasks, queue.runId, bundle, task.key, status);
      if o.Ok? { Log(Advanced(task.key, status, f)); }
    }

    /** `queue.park` and the parked disposition. */
    method ParkTask(queue: TaskQueue, task: TaskRow, reason: string) returns (d: Disposition)
      requires Ready(queue, task) && !Terminal(task.status)
      modifies this`trace, ledger`brs, ledger`writeLog, ledger`state, ledger.Rows()
      ensures Ready(queue, task) && Disposed(old(ledger.state.tasks), ledger.state.tasks, task.key, d) && NoCalls()
      ensures d.ParkedFor? && d.reason == reason && trace == old(trace) + [ParkedTask(task.key, reason)]
    {
      hide Told, Invariant, InMemoryLedger.Valid, InMemoryLedger.Ordered, Repo.Valid, Disposed, QueueSpec.Park,
        ParkedTasks, HaltSet, Records, Carries, CanMove;
      ghost var s, log := ledger.state, ledger.writeLog;
      ledger.RowState(task);
      ledger.ClaimedAreLogged();
      var o, halts := queue.Park(task, reason);
      ParkEffect(s, task.key, reason, halts);
      ledger.ClaimedAreLogged();
      ToldPark(logBase, log, ledger.writeLog, s.tasks, ledger.state.tasks, queue.runId, bundle, task.key,
               ParkedFor(reason, halts));
      Log(ParkedTask(task.key, reason));
      d := ParkedFor(reason, halts);
    }

    // ------------------------------------------------------------------ transport calls

    /** One builder session; a commit it reports is followed by a best-effort sync of the workspace. */
    method Build(queue: TaskQueue, task: TaskRow, attempt: nat, fix: bool, branch: Ref) returns (a: Answer)
      requires Ready(queue, task)
      modifies this`asked, this`trace, git
      ensures Ready(queue, task) && old(git.BaseHistory()) <= git.BaseHistory()
      ensures a == answers(old(asked)) && asked == old(asked) + 1
      ensures trace == old(trace) + [BuildCalled(task.key, attempt, fix, a.commit)]
      ensures Builds(trace) == Builds(old(trace)) + 1 && Verifies(trace) == Verifies(old(trace))
      ensures Landed(trace) == Landed(old(trace)) + if a.commit.Some? then 1 else 0
      ensures Here() == AfterBuild(Inputs(), old(Here()), branch)
    {
      hide Told, Invariant, InMemoryLedger.Ordered, InMemoryLedger.Valid, Repo.Valid, Repo.Contains;
      a := Ask();
      Log(BuildCalled(task.key, attempt, fix, a.commit));
      if a.commit.Some? { git.SyncWorkspace(branch); }
      assert unchanged(ledger) && ledger.Rows() == old(ledger.Rows());
      assert forall row :: row in ledger.Rows() ==> unchanged(row);
    }

    /** Ask the cold verifier, at most three times while its output is unreadable. */
    method DispatchVerify(commit: Commit) returns (a: Option<Answer>, secs: nat, ghost malformed: nat)
      modifies this`asked, this`trace
      ensures asked >= old(asked) && (a, asked - old(asked)) == Verified(answers, old(asked))
      ensures secs == Elapsed(answers, old(asked), asked - old(asked))
      ensures a.Some? ==> a.value.verdict != Malformed && malformed <= 2
      ensures a.Some? ==>
                trace == old(trace) + Unreadable(commit, malformed) + [VerifyCalled(commit, a.value.verdict)]
      ensures a.None? ==> trace == old(trace) + Unreadable(commit, 3)
      ensures Builds(trace) == Builds(old(trace)) && Landed(trace) == Landed(old(trace))
      ensures Verifies(trace) <= Verifies(old(trace)) + 3
    {
      hide Reading, Elapsed, Builds, Landed, Verifies;
      ghost var from := asked;
      secs, malformed := 0, 0;
      assert Unreadable(commit, 0) == [];
      NoTime(answers, from);
      for retry := 0 to MAX_VERIFY_RETRIES + 1
        invariant malformed == retry && asked == from + retry && secs == Elapsed(answers, from, retry)
        invariant Verified(answers, from) == Skip(Reading(answers, asked, 3 - retry), retry)
        invariant trace == old(trace) + Unreadable(commit, malformed)
        invariant Builds(trace) == Builds(old(trace)) && Landed(trace) == Landed(old(trace))
        invariant Verifies(trace) == Verifies(old(trace)) + retry
      {
        ElapsedSnoc(answers, from, retry);
        ReadingNext(answers, asked, 3 - retry);
        var answer := Ask();
        secs := secs + answer.secs;
        Log(VerifyCalled(commit, answer.verdict));
        if answer.verdict != Malformed { return Some(answer), secs, malformed; }
        assert Unreadable(commit, malformed + 1) == Unreadable(commit, malformed) + [VerifyCalled(commit, Malformed)];
        malformed := malformed + 1;
      }
      ReadingNext(answers, asked, 0);
      return None, secs, malformed;
    }

    /** Ask one of the three commit gates. */
    method CheckGate(gate: Gate, commit: Commit) returns (failed: bool)
      modifies this`asked, this`trace
      ensures failed == answers(old(asked)).fails && asked == old(asked) + 1
      ensures trace == old(trace) + [GateChecked(gate, commit, failed)] && NoCalls()
    {
      var a := Ask();
      failed := a.fails;
      Log(GateChecked(gate, commit, failed));
    }

    // ------------------------------------------------------------------ after a PASS verdict

    /** Fast-forward the base branch and push it; a refusal or git error names the reason to park for. On
        success origin's base branch contains everything the recorded commit does. */
    method LandOnBase(branch: Ref)
      returns (o: Outcome, refusal: Option<string>, sha: Commit, ghost branchTip: Commit, ghost baseTip: Commit)
      requires git.Valid()
      modifies this`trace, git
      ensures git.Valid() && old(git.BaseHistory()) <= git.BaseHistory() && NoCalls()
      ensures o.Ok? || o == Raise(GitFailure)
      ensures o.Raise? ==> trace == old(trace) + [FastForwarded(branchTip, baseTip)]
      ensures o.Ok? && refusal.None? ==>
        && trace == old(trace) + [FastForwarded(branchTip, baseTip), SeenOnOrigin(sha)]
        && History(sha) == History(baseTip) + History(branchTip) && History(sha) <= git.BaseHistory()
      ensures var e := Landing(Inputs(), old(Here()), branch);
              && e.ending == (if o.Raise? then Raises(o.exn)
                              else if refusal.Some? then Parks(refusal.value) else Commits(sha))
              && (o.Ok? ==> Here() == e.world)
    {
      hide Repo.Valid, Repo.Contains, Builds, Landed, Verifies, BaseChecksOut, OneLine, LaterTip, PushTaken,
        SeenAfterPush, History, AfterPush;
      refusal, sha, branchTip, baseTip := None, Commit(0, []), Commit(0, []), Commit(0, []);
      if branch in git.repo.local && Named(git.baseRef) in git.repo.local {
        branchTip, baseTip := git.repo.local[branch], git.repo.local[Named(git.baseRef)];
      }
      var merge, merged := git.MergeIntoBase(branch);
      if merge.Raise? { return Ok, Some("ff-merge-error"), sha, branchTip, baseTip; }
      if !merged { return Ok, Some("ff-merge-failed"), sha, branchTip, baseTip; }
      Log(FastForwarded(branchTip, baseTip));
      var head;
      o, head := git.LocalSha();
      if o.Raise? { return o, refusal, sha, branchTip, baseTip; }
      sha := head;
      var push, seen := git.PushAndCheck(sha);
      if push.Raise? { return Ok, Some("push-error"), sha, branchTip, baseTip; }
      if !seen { return Ok, Some("post-push-ref-not-advanced"), sha, branchTip, baseTip; }
      Log(SeenOnOrigin(sha));
    }

    /** The last move: the row is committed and holds the commit. */
    method Conclude(queue: TaskQueue, task: TaskRow, sha: Commit)
      requires Ready(queue, task) && task.status == Merging && HasPass(ledger.state, task.key)
      modifies this`trace, ledger`brs, ledger`writeLog, ledger`state, ledger.Rows()
      ensures Ready(queue, task) && NoCalls()
      ensures trace == old(trace) + [Advanced(task.key, Committed, map[CommitSha := Sha(sha)])]
      ensures Disposed(old(ledger.state.tasks), ledger.state.tasks, task.key, CommittedAt(sha))
    {
      hide Ready, Told, Invariant, InMemoryLedger.Valid, InMemoryLedger.Ordered, Repo.Valid, HasPass, Touched,
        Disposed, Builds, Landed, Verifies;
      ghost var before := ledger.state.tasks;
      var move := Move(queue, task, Committed, map[CommitSha := Sha(sha)]);
      ReadyRow(queue, task);
      CommitDisposes(before, ledger.state.tasks, task.key, sha);
    }

    /** Merge and push a merging task: committed at what origin now contains, or parked. */
    method MergeAndPush(queue: TaskQueue, task: TaskRow, branch: Ref)
      returns (o: Outcome, d: Disposition, ghost branchTip: Commit, ghost baseTip: Commit)
      requires Ready(queue, task) && task.status == Merging && HasPass(ledger.state, task.key)
      modifies this`trace, ledger`brs, ledger`writeLog, ledger`state, ledger.Rows(), git
      ensures Ready(queue, task) && NoCalls() && old(git.BaseHistory()) <= git.BaseHistory()
      ensures o.Ok? ==> Disposed(old(ledger.state.tasks), ledger.state.tasks, task.key, d)
      ensures o.Raise? ==> o == Raise(GitFailure) && ledger.state == old(ledger.state) && task.status == Merging
      ensures o.Ok? && d.CommittedAt? ==>
        && trace == old(trace) + [FastForwarded(branchTip, baseTip), SeenOnOrigin(d.sha),
                                  Advanced(task.key, Committed, map[CommitSha := Sha(d.sha)])]
        && History(d.sha) == History(baseTip) + History(branchTip) && History(d.sha) <= git.BaseHistory()
      ensures Fits(o, d, Here(), Landing(Inputs(), old(Here()), branch))
    {
      hide Landing, Told, Invariant, Disposed, HasPass, InMemoryLedger.Ordered, Builds, Landed, Verifies, History,
        Touched, Repo.Valid, Repo.Contains, InMemoryLedger.Valid, Carries, CanMove;
      d := ParkedFor("", []);
      var refusal, sha;
      o, refusal, sha, branchTip, baseTip := LandOnBase(branch);
      if o.Raise? { return; }
      if refusal.Some? {
        d := ParkTask(queue, task, refusal.value);
        return;
      }
      Conclude(queue, task, sha);
      d := CommittedAt(sha);
    }

    /** Conformance, substance, live database and origin, in that order, stopping at the first refusal: which of the
        first three refuses is what their answers say. */
    method ClearGates(claimed: Commit, branch: Ref, base: Commit) returns (g: GateResult)
      requires git.Valid()
      modifies this`asked, this`trace, git
      ensures git.Valid() && old(git.BaseHistory()) <= git.BaseHistory() && NoCalls()
      ensures g == GateVerdict(Inputs(), old(Here()), claimed, branch, base)
      ensures Here() == AfterGates(Inputs(), old(Here()), branch, base)
      ensures g.Cleared? ==>
        && asked == old(asked) + 3
        && !g.origin.PhantomCompletion? && g.origin.sha == claimed
        && (g.origin.AlreadyContains? ==> claimed in History(base))
        && trace == old(trace) + [GateChecked(Conformance, claimed, false), GateChecked(Substance, claimed, false),
                                  GateChecked(LiveDb, claimed, false), OriginChecked(claimed, g.origin)]
    {
      hide Repo.Valid, Repo.Contains, Builds, Landed, Verifies, History, CheckFails, OriginHolds, AfterCheck,
        AfterChecking;
      var failed := CheckGate(Conformance, claimed);
      if failed { return ConformanceFailed; }
      failed := CheckGate(Substance, claimed);
      if failed { return Refused("substance-empty-delta"); }
      failed := CheckGate(LiveDb, claimed);
      if failed { return Refused("live-db-assert-failed"); }
      var o, origin := git.CheckOriginGroundTruth(branch, claimed, base);
      if o.Raise? { return Refused("r9-gate-error"); }
      Log(OriginChecked(claimed, origin));
      if origin.PhantomCompletion? { return Refused("phantom-completion"); }
      return Cleared(origin);
    }

    /** Past the gates: record PASS with the move to merging, then merge and push unless already contained. */
    method FinishPass(queue: TaskQueue, task: TaskRow, claimed: Commit, branch: Ref, base: Commit, origin: OriginCheck)
      returns (o: Outcome, d: Disposition, ghost branchTip: Commit, ghost baseTip: Commit)
      requires Ready(queue, task) && task.status == Verifying && !origin.PhantomCompletion? && origin.sha == claimed
      requires origin.AlreadyContains? ==> claimed in History(base) && History(base) <= git.BaseHistory()
      modifies this`trace, ledger`brs, ledger`writeLog, ledger`state, ledger.Rows(), git
      ensures Ready(queue, task) && NoCalls() && old(git.BaseHistory()) <= git.BaseHistory()
      ensures o.Ok? ==> Disposed(old(ledger.state.tasks), ledger.state.tasks, task.key, d)
      ensures o.Raise? ==> o == Raise(GitFailure) && Touched(old(ledger.state.tasks), ledger.state.tasks, task.key)
                           && task.status == Merging
      ensures o.Ok? && d.CommittedAt? ==> History(d.sha) <= git.BaseHistory()
      ensures o.Ok? && d.CommittedAt? && origin.AlreadyContains? ==>
        d.sha == claimed && trace == old(trace) + [MergingEvent(task.key, claimed, branch),
                                                   Advanced(task.key, Committed, map[CommitSha := Sha(claimed)])]
      ensures o.Ok? && d.CommittedAt? && !origin.AlreadyContains? ==>
        && trace == old(trace) + [MergingEvent(task.key, claimed, branch),
                                  FastForwarded(branchTip, baseTip), SeenOnOrigin(d.sha),
                                  Advanced(task.key, Committed, map[CommitSha := Sha(d.sha)])]
        && History(d.sha) == History(baseTip) + History(branchTip)
      ensures Fits(o, d, Here(), if origin.AlreadyContains? then End(Commits(claimed), old(Here()))
                                 else Landing(Inputs(), old(Here()), branch))
    {
      hide Landing, Told, Invariant, Disposed, Touched, HasPass, Builds, Landed, Verifies, History, Repo.Valid,
        Repo.Contains, InMemoryLedger.Valid, InMemoryLedger.Ordered;
      branchTip, baseTip, d := claimed, claimed, CommittedAt(claimed);
      ghost var T0 := ledger.state.tasks;
      o := Move(queue, task, Merging, PASSED + map[CommitSha := Sha(claimed), BranchName := Branch(branch)]);
      ghost var T1 := ledger.state.tasks;
      if origin.AlreadyContains? {
        HistoryTransitive(claimed, base);
        Conclude(queue, task, claimed);
      } else {
        o, d, branchTip, baseTip := MergeAndPush(queue, task, branch);
      }
      if o.Ok? { TouchedThenDisposed(T0, T1, ledger.state.tasks, task.key, d); }
    }

    /** Before a retry: the branch is copied aside and the task goes back to building, which a building task may
        not. */
    method PutAside(queue: TaskQueue, task: TaskRow, branch: Ref) returns (o: Outcome)
      requires Ready(queue, task) && task.status in {Verifying, Building} && branch.Build?
      modifies this`trace, ledger`brs, ledger`writeLog, ledger`state, ledger.Rows(), git
      ensures Ready(queue, task) && old(git.BaseHistory()) <= git.BaseHistory() && NoCalls()
      ensures Touched(old(ledger.state.tasks), ledger.state.tasks, task.key) && task.status == Building
      ensures if old(task.status) == Verifying then o.Ok? else o == Raise(InvalidTransition) && trace == old(trace)
      ensures Here() == AfterAside(Inputs(), old(Here()), branch)
    {
      hide AfterAside, Told, Invariant, Touched, Builds, Landed, Verifies, Repo.Valid, Repo.Contains,
        InMemoryLedger.Valid, InMemoryLedger.Ordered, History;
      PreserveTo(branch, branch.attempt);
      o := Move(queue, task, Building, map[AttemptNo := Number(1)]);
    }

    /** Everything after a PASS verdict on `claimed`. Only a conformance failure of a retryable attempt hands
        control back, with the task building again. */
    method PassChain(queue: TaskQueue, task: TaskRow, claimed: Commit, branch: Ref, base: Commit, retryable: bool,
                     ghost from: nat, ghost verified: Ticket)
      returns (o: Outcome, step: Step, ghost ticket: Ticket)
      requires Ready(queue, task) && task.status == Verifying && branch.Build?
      requires History(base) <= git.BaseHistory()
      requires verified.claimed == claimed && verified.key == task.key && verified.branch == branch
      requires verified.malformed <= 2 && EndsWith(trace, from, VerifiedEvents(verified))
      modifies this`asked, this`trace, ledger`brs, ledger`writeLog, ledger`state, ledger.Rows(), git
      ensures Ready(queue, task) && NoCalls() && old(git.BaseHistory()) <= git.BaseHistory()
      ensures o.Raise? ==> o == Raise(GitFailure) && Touched(old(ledger.state.tasks), ledger.state.tasks, task.key)
                           && task.status == Merging
      ensures o.Ok? && step.Done? ==> Disposed(old(ledger.state.tasks), ledger.state.tasks, task.key, step.d)
      ensures o.Ok? && step.Onward? ==>
                retryable && task.status == Building && Touched(old(ledger.state.tasks), ledger.state.tasks, task.key)
      ensures Handed(o, step) <==> retryable && answers(old(asked)).fails
      ensures Handed(o, step) ==> Here() == AfterAside(Inputs(), old(Here()).(at := old(asked) + 1), branch)
      ensures !Handed(o, step) ==> StepFits(o, step, Here(), PassEnding(Inputs(), old(Here()), claimed, branch, base))
      ensures o.Ok? && step.Done? && step.d.CommittedAt? ==>
                CommitEvidence(trace, from, ticket, step.d.sha) && ticket.key == task.key
                && History(step.d.sha) <= git.BaseHistory()
    {
      hide GateVerdict, Landing, AfterAside, AfterGates, Told, Invariant, Disposed, Touched, HasPass, Builds, Landed,
        Verifies, Repo.Valid, Repo.Contains, InMemoryLedger.Valid, InMemoryLedger.Ordered, CommitEvidence, EndsWith,
        VerifiedEvents, History, Carries, CanMove;
      ghost var t := trace;
      ticket := verified;
      step := Onward;
      GatesStart(Inputs(), Here(), claimed, branch, base);
      var g := ClearGates(claimed, branch, base);
      match g
      case ConformanceFailed =>
        if retryable {
          o := PutAside(queue, task, branch);
          return o, Onward, ticket;
        }
        var d := ParkTask(queue, task, "conformance-checklist-failed");
        return Ok, Done(d), ticket;
      case Refused(reason) =>
        var d := ParkTask(queue, task, reason);
        return Ok, Done(d), ticket;
      case Cleared(origin) =>
        ghost var branchTip, baseTip;
        var d;
        o, d, branchTip, baseTip := FinishPass(queue, task, claimed, branch, base, origin);
        ticket := verified.(origin := origin, branchTip := branchTip, baseTip := baseTip);
        if o.Ok? && d.CommittedAt? {
          EvidenceComplete(t, from, verified, ticket, d.sha);
          assert trace == t + GateEvents(ticket) + MergeEvents(ticket, d.sha);
        }
        return o, Done(d), ticket;
    }

    // ------------------------------------------------------------------ verifying a build, fixing it forward

    /** Write-ahead to verifying, then dispatch the verifier on that commit. */
    method Verify(queue: TaskQueue, task: TaskRow, attempt: nat, fix: bool, commit: Commit, branch: Ref)
      returns (a: Option<Answer>, secs: nat, ghost ticket: Ticket)
      requires Ready(queue, task) && task.status == Building
      requires |trace| > 0 && trace[|trace| - 1] == BuildCalled(task.key, attempt, fix, Some(commit))
      modifies this`asked, this`trace, ledger`brs, ledger`writeLog, ledger`state, ledger.Rows()
      ensures Ready(queue, task) && task.status == Verifying && git.repo == old(git.repo)
      ensures Touched(old(ledger.state.tasks), ledger.state.tasks, task.key)
      ensures asked >= old(asked) && (a, asked - old(asked)) == Verified(answers, old(asked))
      ensures secs == Elapsed(answers, old(asked), asked - old(asked))
      ensures old(trace) <= trace && Builds(trace) == Builds(old(trace)) && Landed(trace) == Landed(old(trace))
      ensures Verifies(trace) <= Verifies(old(trace)) + 3
      ensures a.Some? ==> a.value.verdict != Malformed
      ensures a.Some? && a.value.verdict == PassVerdict ==>
                ticket.claimed == commit && ticket.key == task.key && ticket.branch == branch && ticket.malformed <= 2
                && EndsWith(trace, |old(trace)| - 1, VerifiedEvents(ticket))
    {
      hide Ready, Told, Invariant, Touched, HasPass, Builds, Landed, Verifies, Repo.Valid, Repo.Contains,
        InMemoryLedger.Valid, InMemoryLedger.Ordered, EndsWith, VerifiedEvents, History, Verified, Elapsed;
      ghost var t := trace;
      var o := Move(queue, task, Verifying, map[CommitSha := Sha(commit)]);
      ghost var malformed;
      a, secs, malformed := DispatchVerify(commit);
      ticket := Ticket(task.key, attempt, fix, commit, branch, malformed, PhantomCompletion, commit, commit);
      if a.Some? && a.value.verdict == PassVerdict { VerifiedEnds(t, ticket); }
    }

    /** One fix pass: back to building, patch, verify, and on PASS the whole gate chain. Its outcome is what the
        answers of one build and one verification say. */
    method FixPass(queue: TaskQueue, task: TaskRow, attempt: nat, branch: Ref, base: Commit)
      returns (o: Outcome, r: FixResult, ghost ticket: Ticket)
      requires Ready(queue, task) && task.status == Verifying && branch.Build?
      requires History(base) <= git.BaseHistory()
      modifies this`asked, this`trace, ledger`brs, ledger`writeLog, ledger`state, ledger.Rows(), git
      ensures Ready(queue, task) && old(git.BaseHistory()) <= git.BaseHistory() && old(trace) <= trace
      ensures Builds(trace) == Builds(old(trace)) + 1
      ensures Verifies(trace) - Verifies(old(trace)) <= 3 * (Landed(trace) - Landed(old(trace)))
      ensures o.Raise? ==> o == Raise(GitFailure) && !Terminal(task.status)
                           && Touched(old(ledger.state.tasks), ledger.state.tasks, task.key)
      ensures o.Ok? && r.FixDone? ==> Disposed(old(ledger.state.tasks), ledger.state.tasks, task.key, r.d)
      ensures o.Ok? && r.FixDone? && r.d.CommittedAt? ==>
                CommitEvidence(trace, |old(trace)|, ticket, r.d.sha) && ticket.key == task.key
                && History(r.d.sha) <= git.BaseHistory()
      ensures o.Ok? && !r.FixDone? ==> Touched(old(ledger.state.tasks), ledger.state.tasks, task.key)
      ensures o.Ok? && r.FixNoCommit? ==> task.status == Building && EndsInEmptyFix(trace, task.key, attempt)
      ensures o.Ok? && (r.FixUnreadable? || r.FixFailed?) ==> task.status == Verifying
      ensures FixMatches(Inputs(), OneFix(Inputs(), old(Here()), branch, base), o, r, Here())
    {
      hide Ready, Told, Invariant, Disposed, Touched, HasPass, Builds, Landed, Verifies, Repo.Valid, Repo.Contains,
        InMemoryLedger.Valid, InMemoryLedger.Ordered, CommitEvidence, History, Verified, ReadFix, AfterBuild,
        EndingAt, OneFix, FixMatches, Carries;
      ghost var T0, start := ledger.state.tasks, |trace|;
      FirstBuildOfFix(Inputs(), Here(), branch, base);
      r := FixNoCommit;
      ticket := Ticket(task.key, attempt, true, base, branch, 0, PhantomCompletion, base, base);
      o := Move(queue, task, Building, map[AttemptNo := Number(attempt)]);
      ghost var T1 := ledger.state.tasks;
      var build := Build(queue, task, attempt, true, branch);
      if build.commit.None? { return Ok, FixNoCommit, ticket; }
      ghost var from := |trace| - 1;
      o, r, ticket := FixVerify(queue, task, attempt, branch, base, build.commit.value);
      if o.Ok? && r.FixDone? {
        TouchedThenDisposed(T0, T1, ledger.state.tasks, task.key, r.d);
        if r.d.CommittedAt? { EvidenceEarlier(trace, from, start, ticket, r.d.sha); }
      } else {
        TouchedTwice(T0, T1, ledger.state.tasks, task.key);
      }
    }

    /** The verification of a fix that landed, and on PASS the gate chain. */
    method FixVerify(queue: TaskQueue, task: TaskRow, attempt: nat, branch: Ref, base: Commit, fix: Commit)
      returns (o: Outcome, r: FixResult, ghost ticket: Ticket)
      requires Ready(queue, task) && task.status == Building && branch.Build?
      requires History(base) <= git.BaseHistory()
      requires |trace| > 0 && trace[|trace| - 1] == BuildCalled(task.key, attempt, true, Some(fix))
      modifies this`asked, this`trace, ledger`brs, ledger`writeLog, ledger`state, ledger.Rows(), git
      ensures Ready(queue, task) && old(git.BaseHistory()) <= git.BaseHistory() && old(trace) <= trace
      ensures Builds(trace) == Builds(old(trace)) && Landed(trace) == Landed(old(trace))
      ensures Verifies(trace) <= Verifies(old(trace)) + 3
      ensures o.Raise? ==> o == Raise(GitFailure) && task.status == Merging
                           && Touched(old(ledger.state.tasks), ledger.state.tasks, task.key)
      ensures o.Ok? && r.FixDone? ==> Disposed(old(ledger.state.tasks), ledger.state.tasks, task.key, r.d)
      ensures o.Ok? && r.FixDone? && r.d.CommittedAt? ==>
                CommitEvidence(trace, |old(trace)| - 1, ticket, r.d.sha) && ticket.key == task.key
                && History(r.d.sha) <= git.BaseHistory()
      ensures o.Ok? && !r.FixDone? ==> Touched(old(ledger.state.tasks), ledger.state.tasks, task.key)
      ensures o.Ok? ==> !r.FixNoCommit? && (!r.FixDone? ==> task.status == Verifying)
      ensures FixMatches(Inputs(), ReadFix(Inputs(), old(Here()), fix, branch, base), o, r, Here())
    {
      hide Ready, Told, Invariant, Disposed, Touched, HasPass, Builds, Landed, Verifies, Repo.Valid, Repo.Contains,
        InMemoryLedger.Valid, InMemoryLedger.Ordered, CommitEvidence, EndsWith, VerifiedEvents, History, Verified,
        Elapsed, PassEnding, Carries, CanMove;
      ghost var T0, from := ledger.state.tasks, |trace| - 1;
      o, r := Ok, FixUnreadable;
      var verdict, secs;
      verdict, secs, ticket := Verify(queue, task, attempt, true, fix, branch);
      ghost var T1 := ledger.state.tasks;
      if verdict.None? { return; }
      if verdict.value.verdict != PassVerdict { return Ok, FixFailed(verdict.value.findings), ticket; }
      var step;
      o, step, ticket := PassChain(queue, task, fix, branch, base, false, from, ticket);
      if o.Raise? {
        TouchedTwice(T0, T1, ledger.state.tasks, task.key);
        return;
      }
      r := FixDone(step.d);
      TouchedThenDisposed(T0, T1, ledger.state.tasks, task.key, step.d);
    }

    /** The fix-forward lane after a failed verdict with `findings`: fix passes while the findings are few and
        the budget lasts. Handing control back, the task is building exactly if the answers make the last pass an
        empty one. */
    method FixForward(queue: TaskQueue, task: TaskRow, attempt: nat, branch: Ref, base: Commit,
                      findings: nat, budget0: int)
      returns (o: Outcome, step: Step, budget: int, ghost ticket: Ticket)
      requires Ready(queue, task) && task.status == Verifying && branch.Build?
      requires History(base) <= git.BaseHistory()
      modifies this`asked, this`trace, ledger`brs, ledger`writeLog, ledger`state, ledger.Rows(), git
      ensures Ready(queue, task) && old(git.BaseHistory()) <= git.BaseHistory() && old(trace) <= trace
      ensures Builds(trace) - Builds(old(trace)) == budget0 - budget && (budget == budget0 || 0 <= budget <= budget0)
      ensures Verifies(trace) - Verifies(old(trace)) <= 3 * (Landed(trace) - Landed(old(trace)))
      ensures o.Raise? ==> o == Raise(GitFailure) && !Terminal(task.status)
                           && Touched(old(ledger.state.tasks), ledger.state.tasks, task.key)
      ensures o.Ok? && step.Done? ==> Disposed(old(ledger.state.tasks), ledger.state.tasks, task.key, step.d)
      ensures o.Ok? && step.Done? && step.d.CommittedAt? ==>
                CommitEvidence(trace, |old(trace)|, ticket, step.d.sha) && ticket.key == task.key
                && History(step.d.sha) <= git.BaseHistory()
      ensures o.Ok? && step.Onward? ==> Touched(old(ledger.state.tasks), ledger.state.tasks, task.key)
      ensures LaneMatches(Inputs(), FixLane(Inputs(), old(Here()), branch, base, findings, budget0), o, step, budget,
                          Here(), task.status)
      ensures Handed(o, step) && task.status == Building ==> EndsInEmptyFix(trace, task.key, attempt)
    {
      hide Ready, Told, Invariant, Disposed, Touched, HasPass, Builds, Landed, Verifies, Repo.Valid, Repo.Contains,
        InMemoryLedger.Valid, InMemoryLedger.Ordered, CommitEvidence, History, OneFix, LaterFixes, EndingAt,
        EndsInEmptyFix, Carries, FixLane, CanMove;
      FirstFix(Inputs(), Here(), branch, base, findings, budget0);
      o, step, budget := Ok, Onward, budget0;
      ticket := Ticket(task.key, attempt, true, base, branch, 0, PhantomCompletion, base, base);
      ghost var T0, start := ledger.state.tasks, |trace|;
      ReadyRow(queue, task);
      TouchedSelf(T0, task.key);
      if findings > config.fixForwardMax || budget <= 0 { return; }
      budget := budget - 1;
      var r;
      o, r, ticket := FixPass(queue, task, attempt, branch, base);
      if o.Raise? { return; }
      ghost var T1 := ledger.state.tasks;
      match r
      case FixDone(d) => step := Done(d);
      case FixNoCommit =>
      case FixUnreadable =>
        var d := ParkTask(queue, task, "verify-malformed");
        TouchedThenDisposed(T0, T1, ledger.state.tasks, task.key, d);
        step := Done(d);
      case FixFailed(more) =>
        if budget > 0 && more <= config.fixForwardMax {
          ghost var from := |trace|;
          o, step, budget, ticket := MoreFixes(queue, task, attempt, branch, base, budget);
          if o.Raise? || step.Onward? {
            TouchedTwice(T0, T1, ledger.state.tasks, task.key);
          } else {
            TouchedThenDisposed(T0, T1, ledger.state.tasks, task.key, step.d);
            if step.d.CommittedAt? { EvidenceEarlier(trace, from, start, ticket, step.d.sha); }
          }
        }
    }

    /** Later fix passes: until one is committed or parked, is empty or unreadable, or the budget is spent. */
    method MoreFixes(queue: TaskQueue, task: TaskRow, attempt: nat, branch: Ref, base: Commit, budget0: int)
      returns (o: Outcome, step: Step, budget: int, ghost ticket: Ticket)
      requires Ready(queue, task) && task.status == Verifying && branch.Build?
      requires History(base) <= git.BaseHistory()
      modifies this`asked, this`trace, ledger`brs, ledger`writeLog, ledger`state, ledger.Rows(), git
      ensures Ready(queue, task) && old(git.BaseHistory()) <= git.BaseHistory() && old(trace) <= trace
      ensures Builds(trace) - Builds(old(trace)) == budget0 - budget && (budget == budget0 || 0 <= budget <= budget0)
      ensures Verifies(trace) - Verifies(old(trace)) <= 3 * (Landed(trace) - Landed(old(trace)))
      ensures o.Raise? ==> o == Raise(GitFailure) && !Terminal(task.status)
                           && Touched(old(ledger.state.tasks), ledger.state.tasks, task.key)
      ensures o.Ok? && step.Done? ==> Disposed(old(ledger.state.tasks), ledger.state.tasks, task.key, step.d)
      ensures o.Ok? && step.Done? && step.d.CommittedAt? ==>
                CommitEvidence(trace, |old(trace)|, ticket, step.d.sha) && ticket.key == task.key
                && History(step.d.sha) <= git.BaseHistory()
      ensures o.Ok? && step.Onward? ==> Touched(old(ledger.state.tasks), ledger.state.tasks, task.key)
      ensures LaneMatches(Inputs(), LaterFixes(Inputs(), old(Here()), branch, base, budget0), o, step, budget, Here(),
                          task.status)
      ensures Handed(o, step) && task.status == Building ==> EndsInEmptyFix(trace, task.key, attempt)
    {
      hide Ready, Told, Invariant, Disposed, Touched, HasPass, Builds, Landed, Verifies, Repo.Valid, Repo.Contains,
        InMemoryLedger.Valid, InMemoryLedger.Ordered, CommitEvidence, History, OneFix, EndingAt, EndsInEmptyFix,
        LaterFixes, Carries, CanMove;
      o, step, budget := Ok, Onward, budget0;
      ticket := Ticket(task.key, attempt, true, base, branch, 0, PhantomCompletion, base, base);
      ghost var T0, start, env := ledger.state.tasks, |trace|, Inputs();
      ReadyRow(queue, task);
      TouchedSelf(T0, task.key);
      for fix := 0 to if budget0 > 0 then budget0 else 0
        invariant Ready(queue, task) && old(git.BaseHistory()) <= git.BaseHistory() && old(trace) <= trace
        invariant o.Ok? && step.Onward?
        invariant task.status == Verifying && Touched(T0, ledger.state.tasks, task.key)
        invariant budget == budget0 - fix
        invariant Builds(trace) - Builds(old(trace)) == fix
        invariant Verifies(trace) - Verifies(old(trace)) <= 3 * (Landed(trace) - Landed(old(trace)))
        invariant LaterFixes(env, old(Here()), branch, base, budget0) == LaterFixes(env, Here(), branch, base, budget)
      {
        if budget <= 0 { break; }
        NextOneFix(env, Here(), branch, base, budget);
        budget := budget - 1;
        ghost var T1, from := ledger.state.tasks, |trace|;
        var r;
        o, r, ticket := FixPass(queue, task, attempt, branch, base);
        if o.Raise? {
          TouchedTwice(T0, T1, ledger.state.tasks, task.key);
          return;
        }
        if r.FixDone? {
          TouchedThenDisposed(T0, T1, ledger.state.tasks, task.key, r.d);
          if r.d.CommittedAt? { EvidenceEarlier(trace, from, start, ticket, r.d.sha); }
          step := Done(r.d);
          return;
        }
        TouchedTwice(T0, T1, ledger.state.tasks, task.key);
        if r.FixNoCommit? || r.FixUnreadable? { return; }
      }
      NoMoreFixes(env, Here(), branch, base, budget);
    }

    // ------------------------------------------------------------------ one attempt, one task

    /** Read the live base and open the attempt's branch on it. */
    method OpenAttempt(branch: Ref) returns (o: Outcome, opens: bool, base: Commit)
      requires git.Valid() && branch != Named(git.baseRef)
      modifies git
      ensures git.Valid() && old(git.BaseHistory()) <= git.BaseHistory()
      ensures o.Ok? || o == Raise(GitFailure)
      ensures o.Ok? && opens <==> AttemptOpens(old(git.repo), git.answers, old(git.asked), Named(git.baseRef), branch)
      ensures o.Ok? ==> History(base) <= git.BaseHistory()
      ensures o.Ok? <==> LiveReads(old(git.repo), git.answers, old(git.asked), Named(git.baseRef))
      ensures o.Ok? ==> base == LiveBase(old(git.repo), git.answers, old(git.asked), Named(git.baseRef))
      ensures o.Ok? && opens ==>
        && git.repo == AfterOpening(old(git.repo), git.answers, old(git.asked), Named(git.baseRef), branch)
        && git.asked == old(git.asked) + 5
      ensures o.Ok? && !opens ==>
                (git.repo, git.asked - old(git.asked) - 2)
                == AfterFailedOpen(AfterLive(old(git.repo), git.answers, old(git.asked), Named(git.baseRef)),
                                   git.answers, old(git.asked) + 2, Named(git.baseRef), branch, base)
    {
      hide Repo.Valid, Repo.Contains, History, LiveReads, BranchOpens, AfterLive;
      opens := false;
      o, base := git.FetchLiveSha();
      if o.Ok? { opens := git.OpenBranch(branch, base); }
    }

    /** Ceiling, live base, branch, build, scaffolding guard and anti-slop lint: what comes out is what the inputs
        say, and a build comes out only if there is time, the branch opens, and it passes both guards. */
    method BuildStage(queue: TaskQueue, task: TaskRow, attempt: nat, secs0: nat)
      returns (o: Outcome, r: BuildStep, secs: nat)
      requires Ready(queue, task) && task.status == Building && attempt <= 1
      modifies this`asked, this`trace, ledger`brs, ledger`writeLog, ledger`state, ledger.Rows(), git
      ensures Ready(queue, task) && old(git.BaseHistory()) <= git.BaseHistory() && old(trace) <= trace
      ensures Builds(old(trace)) <= Builds(trace) <= Builds(old(trace)) + 1
      ensures Verifies(trace) == Verifies(old(trace)) && Landed(trace) >= Landed(old(trace))
      ensures o.Raise? ==> o == Raise(GitFailure) && ledger.state == old(ledger.state) && task.status == Building
      ensures o.Ok? && r.Stopped? ==>
                Disposed(old(ledger.state.tasks), ledger.state.tasks, task.key, r.d) && r.d.ParkedFor?
      ensures o.Ok? && !r.Stopped? ==> ledger.state == old(ledger.state) && task.status == Building
      ensures o.Ok? && r.RetryBuild? ==> attempt == 0
      ensures o.Ok? && r.Built? ==>
        && trace == old(trace) + [BuildCalled(task.key, attempt, false, Some(r.commit))]
        && Landed(trace) == Landed(old(trace)) + 1
        && r.branch.Build? && History(r.base) <= git.BaseHistory()
      ensures BuildMatches(BuildCourse(Inputs(), task.key, old(Here()), attempt, secs0), o, r,
                           AttemptBranch(task.key, attempt), secs, Here())
    {
      hide Told, Invariant, Disposed, Touched, HasPass, Builds, Landed, Verifies, Repo.Valid, Repo.Contains,
        InMemoryLedger.Valid, InMemoryLedger.Ordered, History, AttemptOpens, LiveReads, AfterOpening, LiveBase,
        AfterFailedOpen, AfterLive, BuiltCourse, Carries, CanMove;
      o, r, secs := Ok, RetryBuild, secs0;
      if secs >= config.ceiling {
        var d := ParkTask(queue, task, "spec-wallclock-ceiling-exceeded");
        return Ok, Stopped(d), secs;
      }
      var branch := AttemptBranch(task.key, attempt);
      var base, ready;
      o, ready, base := OpenAttempt(branch);
      if o.Raise? { return; }
      if !ready {
        var d := ParkTask(queue, task, "build-git-error");
        return Ok, Stopped(d), secs;
      }
      o, r, secs := BuildAndVet(queue, task, attempt, branch, base, secs);
    }

    /** The builder session on the open branch, judged before any verifier runs. */
    method BuildAndVet(queue: TaskQueue, task: TaskRow, attempt: nat, branch: Ref, base: Commit, secs0: nat)
      returns (o: Outcome, r: BuildStep, secs: nat)
      requires Ready(queue, task) && task.status == Building && branch == AttemptBranch(task.key, attempt)
      requires History(base) <= git.BaseHistory()
      modifies this`asked, this`trace, ledger`brs, ledger`writeLog, ledger`state, ledger.Rows(), git
      ensures Ready(queue, task) && old(git.BaseHistory()) <= git.BaseHistory() && old(trace) <= trace && o.Ok?
      ensures Builds(old(trace)) <= Builds(trace) <= Builds(old(trace)) + 1
      ensures Verifies(trace) == Verifies(old(trace)) && Landed(trace) >= Landed(old(trace))
      ensures r.Stopped? ==> Disposed(old(ledger.state.tasks), ledger.state.tasks, task.key, r.d) && r.d.ParkedFor?
      ensures !r.Stopped? ==> ledger.state == old(ledger.state) && task.status == Building
      ensures r.RetryBuild? ==> attempt == 0
      ensures r.Built? ==>
        && trace == old(trace) + [BuildCalled(task.key, attempt, false, Some(r.commit))]
        && Landed(trace) == Landed(old(trace)) + 1 && r.branch == branch && r.base == base
      ensures BuildMatches(BuiltCourse(Inputs(), old(Here()), attempt, branch, base, secs0), o, r, branch, secs, Here())
    {
      hide Told, Invariant, Disposed, Touched, HasPass, Builds, Landed, Verifies, Repo.Valid, Repo.Contains,
        InMemoryLedger.Valid, InMemoryLedger.Ordered, History, AfterBuild, AfterAside, Vets, Carries, CanMove;
      o := Ok;
      var build := Build(queue, task, attempt, false, branch);
      secs := secs0 + build.secs;
      VettingCases(build, answers, asked, attempt);
      var vet := VetBuild(build, attempt);
      match vet
      case Fine => return Ok, Built(build.commit.value, branch, base), secs;
      case Retry =>
        PreserveTo(branch, attempt);
        return Ok, RetryBuild, secs;
      case Unfit(reason) =>
        var d := ParkTask(queue, task, reason);
        return Ok, Stopped(d), secs;
    }

    /** The branch of an attempt is copied aside before the next one. */
    method PreserveTo(branch: Ref, attempt: nat)
      requires git.Valid() && branch.Build? && branch.attempt == attempt
      modifies git
      ensures git.Valid() && old(git.BaseHistory()) <= git.BaseHistory()
      ensures Here() == AfterAside(Inputs(), old(Here()), branch)
    {
      hide Repo.Valid, Repo.Contains, History, CopiedTip, QuietRename, TipKept, OnRef, GitOps.Renamed, AfterPreserve;
      var kept := git.PreserveBranch(branch, Wedged(branch.run, branch.slug, attempt));
    }

    /** Judge a finished build before any verifier runs: a first wedge or lint failure is retried. */
    method VetBuild(build: Answer, attempt: nat) returns (v: Vetting)
      modifies this`asked
      ensures (v, asked) == Vets(build, answers, old(asked), attempt)
    {
      if build.commit.None? {
        match build.error
        case BuilderWedged => return if attempt == 0 then Retry else Unfit("builder-wedged");
        case BuildApiError => return Unfit("build-api-error");
        case BuildPushFailed => return Unfit("build-push-failed");
        case BuildUnpushed => return Unfit("build-unpushed");
        case OtherError => return Unfit("build-no-commit");
      }
      var leak := Ask();
      if leak.fails { return Unfit("scaffolding-leak"); }
      var lint := Ask();
      if !lint.skipped && lint.fails { return if attempt == 0 then Retry else Unfit("antislop-lint-failed"); }
      return Fine;
    }

    /** A verdict other than PASS: fix forward, then the ceiling, then the last attempt, else back to building. That
        last move is refused exactly when the attempt is the first, its answers end the fix lane with an empty pass,
        and there is time left; without time the same answers park the task for the ceiling. */
    method FailChain(queue: TaskQueue, task: TaskRow, attempt: nat, branch: Ref, base: Commit,
                     findings: nat, secs: nat, budget0: int)
      returns (o: Outcome, step: Step, budget: int, ghost ticket: Ticket)
      requires Ready(queue, task) && task.status == Verifying && branch.Build? && attempt <= 1
      requires History(base) <= git.BaseHistory()
      modifies this`asked, this`trace, ledger`brs, ledger`writeLog, ledger`state, ledger.Rows(), git
      ensures Ready(queue, task) && old(git.BaseHistory()) <= git.BaseHistory() && old(trace) <= trace
      ensures Builds(trace) - Builds(old(trace)) == budget0 - budget && (budget == budget0 || 0 <= budget <= budget0)
      ensures Verifies(trace) - Verifies(old(trace)) <= 3 * (Landed(trace) - Landed(old(trace)))
      ensures o.Raise? ==> o in {Raise(GitFailure), Raise(InvalidTransition)} && !Terminal(task.status)
                           && Touched(old(ledger.state.tasks), ledger.state.tasks, task.key)
      ensures TurnMatches(Inputs(),
                          AfterLane(Inputs(), FixLane(Inputs(), old(Here()), branch, base, findings, budget0), attempt,
                                    branch, secs),
                          o, step, secs, budget, Here())
      ensures o == Raise(InvalidTransition) ==> task.status == Building && EndsInEmptyFix(trace, task.key, 0)
      ensures o.Ok? && step.Done? ==> Disposed(old(ledger.state.tasks), ledger.state.tasks, task.key, step.d)
      ensures o.Ok? && step.Done? && step.d.CommittedAt? ==>
                CommitEvidence(trace, |old(trace)|, ticket, step.d.sha) && ticket.key == task.key
                && History(step.d.sha) <= git.BaseHistory()
      ensures o.Ok? && step.Onward? ==>
                attempt == 0 && task.status == Building
                && Touched(old(ledger.state.tasks), ledger.state.tasks, task.key)
    {
      hide Ready, Told, Invariant, Disposed, Touched, HasPass, Builds, Landed, Verifies, Repo.Valid, Repo.Contains,
        InMemoryLedger.Valid, InMemoryLedger.Ordered, CommitEvidence, History, FixLane, FailCourse, EndingAt,
        EndsInEmptyFix, Carries, CanMove;
      ghost var T0 := ledger.state.tasks;
      o, step, budget, ticket := FixForward(queue, task, attempt, branch, base, findings, budget0);
      if o.Raise? || step.Done? { return; }
      ghost var T1 := ledger.state.tasks;
      o, step := AfterFixes(queue, task, attempt, branch, secs, budget);
      if o.Ok? && step.Done? { TouchedThenDisposed(T0, T1, ledger.state.tasks, task.key, step.d); }
      else { TouchedTwice(T0, T1, ledger.state.tasks, task.key); }
    }

    /** The ceiling, then the last attempt, else the branch is put aside and the task goes back to building. */
    method AfterFixes(queue: TaskQueue, task: TaskRow, attempt: nat, branch: Ref, secs: nat,
                      ghost left: int)
      returns (o: Outcome, step: Step)
      requires Ready(queue, task) && task.status in {Verifying, Building} && branch.Build? && attempt <= 1
      modifies this`trace, ledger`brs, ledger`writeLog, ledger`state, ledger.Rows(), git
      ensures Ready(queue, task) && old(git.BaseHistory()) <= git.BaseHistory() && NoCalls()
      ensures TurnMatches(Inputs(),
                          FailCourse(Inputs(), old(Here()), attempt, branch, secs, left, old(task.status) == Building),
                          o, step, secs, left, Here())
      ensures o.Raise? ==> o == Raise(InvalidTransition) && trace == old(trace) && attempt == 0
                           && old(task.status) == Building == task.status
      ensures Handed(o, step) ==> attempt == 0 && task.status == Building
      ensures o.Ok? && step.Done? ==> step.d.ParkedFor?
      ensures o.Ok? && step.Done? ==> Disposed(old(ledger.state.tasks), ledger.state.tasks, task.key, step.d)
      ensures !(o.Ok? && step.Done?) ==> Touched(old(ledger.state.tasks), ledger.state.tasks, task.key)
    {
      hide Ready, Told, Invariant, Disposed, Touched, HasPass, Builds, Landed, Verifies, Repo.Valid, Repo.Contains,
        InMemoryLedger.Valid, InMemoryLedger.Ordered, History, AfterAside, Carries, CanMove;
      o, step := Ok, Onward;
      if secs >= config.ceiling {
        var d := ParkTask(queue, task, "spec-wallclock-ceiling-exceeded");
        return Ok, Done(d);
      }
      if attempt == 1 {
        var d := ParkTask(queue, task, "verify-failed-retry");
        return Ok, Done(d);
      }
      o := PutAside(queue, task, branch);
    }

    /** One pass through the attempt loop. Control comes back only from attempt 0, with the task building. */
    method Attempt(queue: TaskQueue, task: TaskRow, attempt: nat, secs0: nat, budget0: int)
      returns (o: Outcome, step: Step, secs: nat, budget: int, ghost ticket: Ticket)
      requires Ready(queue, task) && task.status == Building && attempt <= 1
      modifies this`asked, this`trace, ledger`brs, ledger`writeLog, ledger`state, ledger.Rows(), git
      ensures Ready(queue, task) && old(git.BaseHistory()) <= git.BaseHistory() && old(trace) <= trace
      ensures Builds(trace) - Builds(old(trace)) <= 1 + (budget0 - budget)
      ensures budget == budget0 || 0 <= budget <= budget0
      ensures Verifies(trace) - Verifies(old(trace)) <= 3 * (Landed(trace) - Landed(old(trace)))
      ensures o.Raise? ==> o in {Raise(GitFailure), Raise(InvalidTransition)} && !Terminal(task.status)
                           && Touched(old(ledger.state.tasks), ledger.state.tasks, task.key)
      ensures TurnMatches(Inputs(), AttemptCourse(Inputs(), task.key, old(Here()), attempt, secs0, budget0),
                          o, step, secs, budget, Here())
      ensures o == Raise(InvalidTransition) ==> task.status == Building && EndsInEmptyFix(trace, task.key, 0)
      ensures o.Ok? && step.Done? ==> Disposed(old(ledger.state.tasks), ledger.state.tasks, task.key, step.d)
      ensures o.Ok? && step.Done? && step.d.CommittedAt? ==>
                CommitEvidence(trace, |old(trace)|, ticket, step.d.sha) && ticket.key == task.key
                && History(step.d.sha) <= git.BaseHistory()
      ensures o.Ok? && step.Onward? ==>
                attempt == 0 && task.status == Building
                && Touched(old(ledger.state.tasks), ledger.state.tasks, task.key)
    {
      hide Ready, Told, Invariant, Disposed, Touched, HasPass, Builds, Landed, Verifies, Repo.Valid, Repo.Contains,
        InMemoryLedger.Valid, InMemoryLedger.Ordered, CommitEvidence, History, BuildCourse, VerdictCourse, EndingAt,
        EndsInEmptyFix, Carries, CanMove;
      ghost var T0, start := ledger.state.tasks, |trace|;
      ReadyRow(queue, task);
      TouchedSelf(T0, task.key);
      budget, step := budget0, Onward;
      ticket := Ticket(task.key, attempt, false, Commit(0, []), AttemptBranch(task.key, attempt), 0, PhantomCompletion,
                       Commit(0, []), Commit(0, []));
      var b;
      o, b, secs := BuildStage(queue, task, attempt, secs0);
      if o.Raise? || b.RetryBuild? { return; }
      if b.Stopped? { return Ok, Done(b.d), secs, budget, ticket; }
      ghost var from := |trace| - 1;
      o, step, secs, budget, ticket := VerifyBuild(queue, task, attempt, b, secs, budget0);
      if o.Ok? && step.Done? && step.d.CommittedAt? { EvidenceEarlier(trace, from, start, ticket, step.d.sha); }
    }

    /** The verification of an attempt's build, and what its verdict leads to. */
    method VerifyBuild(queue: TaskQueue, task: TaskRow, attempt: nat, b: BuildStep, secs0: nat, budget0: int)
      returns (o: Outcome, step: Step, secs: nat, budget: int, ghost ticket: Ticket)
      requires Ready(queue, task) && task.status == Building && attempt <= 1
      requires b.Built? && b.branch.Build? && History(b.base) <= git.BaseHistory()
      requires |trace| > 0 && trace[|trace| - 1] == BuildCalled(task.key, attempt, false, Some(b.commit))
      modifies this`asked, this`trace, ledger`brs, ledger`writeLog, ledger`state, ledger.Rows(), git
      ensures Ready(queue, task) && old(git.BaseHistory()) <= git.BaseHistory() && old(trace) <= trace
      ensures Builds(trace) - Builds(old(trace)) == budget0 - budget && (budget == budget0 || 0 <= budget <= budget0)
      ensures Verifies(trace) - Verifies(old(trace)) <= 3 + 3 * (Landed(trace) - Landed(old(trace)))
      ensures o.Raise? ==> o in {Raise(GitFailure), Raise(InvalidTransition)} && !Terminal(task.status)
                           && Touched(old(ledger.state.tasks), ledger.state.tasks, task.key)
      ensures TurnMatches(Inputs(),
                          VerdictCourse(Inputs(), old(Here()), attempt, b.commit, b.branch, b.base, secs0, budget0),
                          o, step, secs, budget, Here())
      ensures o == Raise(InvalidTransition) ==> task.status == Building && EndsInEmptyFix(trace, task.key, 0)
      ensures o.Ok? && step.Done? ==> Disposed(old(ledger.state.tasks), ledger.state.tasks, task.key, step.d)
      ensures o.Ok? && step.Done? && step.d.CommittedAt? ==>
                CommitEvidence(trace, |old(trace)| - 1, ticket, step.d.sha) && ticket.key == task.key
                && History(step.d.sha) <= git.BaseHistory()
      ensures o.Ok? && step.Onward? ==>
                attempt == 0 && task.status == Building
                && Touched(old(ledger.state.tasks), ledger.state.tasks, task.key)
    {
      hide Ready, Told, Invariant, Disposed, Touched, HasPass, Builds, Landed, Verifies, Repo.Valid, Repo.Contains,
        InMemoryLedger.Valid, InMemoryLedger.Ordered, CommitEvidence, History, EndsWith, VerifiedEvents, Verified,
        Elapsed, JudgeCourse, EndingAt, EndsInEmptyFix, Carries, CanMove;
      ghost var T0, start := ledger.state.tasks, |trace| - 1;
      budget := budget0;
      var verdict, elapsed;
      verdict, elapsed, ticket := Verify(queue, task, attempt, false, b.commit, b.branch);
      ghost var T1 := ledger.state.tasks;
      secs := secs0 + elapsed;
      if verdict.None? {
        var d := ParkTask(queue, task, "verify-malformed");
        TouchedThenDisposed(T0, T1, ledger.state.tasks, task.key, d);
        return Ok, Done(d), secs, budget, ticket;
      }
      o, step, budget, ticket := Judge(queue, task, attempt, b, verdict.value, secs, budget0, start, ticket);
      if o.Ok? && step.Done? { TouchedThenDisposed(T0, T1, ledger.state.tasks, task.key, step.d); }
      else { TouchedTwice(T0, T1, ledger.state.tasks, task.key); }
    }

    /** Act on a readable verdict about the build of this attempt. */
    method Judge(queue: TaskQueue, task: TaskRow, attempt: nat, built: BuildStep, a: Answer, secs: nat, budget0: int,
                 ghost from: nat, ghost verified: Ticket)
      returns (o: Outcome, step: Step, budget: int, ghost ticket: Ticket)
      requires Ready(queue, task) && task.status == Verifying && attempt <= 1 && a.verdict != Malformed
      requires built.Built? && built.branch.Build? && History(built.base) <= git.BaseHistory() && from <= |trace|
      requires a.verdict == PassVerdict ==>
                 verified.claimed == built.commit && verified.key == task.key && verified.branch == built.branch
                 && verified.malformed <= 2 && EndsWith(trace, from, VerifiedEvents(verified))
      modifies this`asked, this`trace, ledger`brs, ledger`writeLog, ledger`state, ledger.Rows(), git
      ensures Ready(queue, task) && old(git.BaseHistory()) <= git.BaseHistory() && old(trace) <= trace
      ensures Builds(trace) - Builds(old(trace)) == budget0 - budget && (budget == budget0 || 0 <= budget <= budget0)
      ensures Verifies(trace) - Verifies(old(trace)) <= 3 * (Landed(trace) - Landed(old(trace)))
      ensures o.Raise? ==> o in {Raise(GitFailure), Raise(InvalidTransition)} && !Terminal(task.status)
                           && Touched(old(ledger.state.tasks), ledger.state.tasks, task.key)
      ensures TurnMatches(Inputs(),
                          JudgeCourse(Inputs(), old(Here()), attempt, built.commit, built.branch, built.base, a, secs,
                                      budget0),
                          o, step, secs, budget, Here())
      ensures o == Raise(InvalidTransition) ==> task.status == Building && EndsInEmptyFix(trace, task.key, 0)
      ensures o.Ok? && step.Done? ==> Disposed(old(ledger.state.tasks), ledger.state.tasks, task.key, step.d)
      ensures o.Ok? && step.Done? && step.d.CommittedAt? ==>
                CommitEvidence(trace, from, ticket, step.d.sha) && ticket.key == task.key
                && History(step.d.sha) <= git.BaseHistory()
      ensures o.Ok? && step.Onward? ==>
                attempt == 0 && task.status == Building
                && Touched(old(ledger.state.tasks), ledger.state.tasks, task.key)
    {
      hide Ready, Told, Invariant, Disposed, Touched, HasPass, Builds, Landed, Verifies, Repo.Valid, Repo.Contains,
        InMemoryLedger.Valid, InMemoryLedger.Ordered, CommitEvidence, History, EndsWith, VerifiedEvents, FixLane,
        AfterLane, PassEnding, AfterAside, EndsInEmptyFix, Carries, CanMove;
      budget := budget0;
      if a.verdict == PassVerdict {
        o, step, ticket :=
          PassChain(queue, task, built.commit, built.branch, built.base, attempt == 0, from, verified);
      } else {
        ghost var later := |trace|;
        o, step, budget, ticket :=
          FailChain(queue, task, attempt, built.branch, built.base, a.findings, secs, budget0);
        if o.Ok? && step.Done? && step.d.CommittedAt? { EvidenceEarlier(trace, later, from, ticket, step.d.sha); }
      }
    }

    /** `_run_task`, for a task just claimed. At most two attempts plus the fix budget reach the builder, and at
        most three verifier calls follow each build that produced a commit. It returns with the task disposed
        of, by a chain recorded since the call if it is committed; or an unguarded git read raises; or, exactly for
        the inputs of `LeftBuilding`, the move back to building raises and the task is left building. */
    method RunTask(queue: TaskQueue, task: TaskRow) returns (o: Outcome, d: Disposition, ghost ticket: Ticket)
      requires Ready(queue, task) && task.status == Building
      modifies this`asked, this`trace, ledger`brs, ledger`writeLog, ledger`state, ledger.Rows(), git
      ensures Ready(queue, task) && old(git.BaseHistory()) <= git.BaseHistory() && old(trace) <= trace
      ensures Builds(trace) - Builds(old(trace)) <= 2 + if config.fixBudget > 0 then config.fixBudget else 0
      ensures Verifies(trace) - Verifies(old(trace)) <= 3 * (Landed(trace) - Landed(old(trace)))
      ensures o.Ok? ==> Disposed(old(ledger.state.tasks), ledger.state.tasks, task.key, d)
      ensures o.Ok? && d.CommittedAt? ==>
                CommitEvidence(trace, |old(trace)|, ticket, d.sha) && ticket.key == task.key
                && History(d.sha) <= git.BaseHistory()
      ensures o.Raise? ==> o in {Raise(GitFailure), Raise(InvalidTransition)} && !Terminal(task.status)
                           && Touched(old(ledger.state.tasks), ledger.state.tasks, task.key)
      ensures Fits(o, d, Here(), TaskEnd(Inputs(), task.key, old(Here())))
      ensures o.Ok? && d.CommittedAt? <==> WinsThrough(Inputs(), task.key, old(Here()))
      ensures o == Raise(InvalidTransition) <==>
        && AttemptOpens(old(git.repo), git.answers, old(git.asked), Named(git.baseRef), AttemptBranch(task.key, 0))
        && LeftBuilding(config, answers, old(asked), 0, config.fixBudget)
      ensures o == Raise(InvalidTransition) ==> task.status == Building && EndsInEmptyFix(trace, task.key, 0)
    {
      hide Ready, Told, Invariant, Disposed, Touched, HasPass, Builds, Landed, Verifies, Repo.Valid, Repo.Contains,
        InMemoryLedger.Valid, InMemoryLedger.Ordered, CommitEvidence, History, LeftBuilding, AttemptOpens,
        AttemptCourse, PassEnding, EndsInEmptyFix, WinsThrough, Carries, CanMove;
      var secs, budget := 0, config.fixBudget;
      o, d := Ok, ParkedFor("unexpected-loop-exit", []);
      ticket := Ticket(task.key, 0, false, Commit(0, []), AttemptBranch(task.key, 0), 0, PhantomCompletion,
                       Commit(0, []), Commit(0, []));
      ghost var T0, start, env, here := ledger.state.tasks, |trace|, Inputs(), Here();
      RaisesExactly(env, task.key, here);
      CommitsExactly(env, task.key, here);
      ReadyRow(queue, task);
      TouchedSelf(T0, task.key);
      var attempt: nat := 0;
      while attempt < 2
        invariant attempt <= 1
        invariant Ready(queue, task) && task.status == Building
        invariant old(git.BaseHistory()) <= git.BaseHistory() && Touched(T0, ledger.state.tasks, task.key)
        invariant old(trace) <= trace
        invariant budget == config.fixBudget || 0 <= budget <= config.fixBudget
        invariant Builds(trace) - Builds(old(trace)) <= attempt + (config.fixBudget - budget)
        invariant Verifies(trace) - Verifies(old(trace)) <= 3 * (Landed(trace) - Landed(old(trace)))
        invariant if attempt == 0
                  then Here() == here && secs == 0 && budget == config.fixBudget
                  else AttemptCourse(env, task.key, here, 0, 0, config.fixBudget) == HandsOn(Here(), secs, budget)
        decreases 2 - attempt
      {
        ghost var T1, from := ledger.state.tasks, |trace|;
        var step;
        o, step, secs, budget, ticket := Attempt(queue, task, attempt, secs, budget);
        if o.Raise? {
          TouchedTwice(T0, T1, ledger.state.tasks, task.key);
          return;
        }
        if step.Done? {
          TouchedThenDisposed(T0, T1, ledger.state.tasks, task.key, step.d);
          if step.d.CommittedAt? { EvidenceEarlier(trace, from, start, ticket, step.d.sha); }
          return Ok, step.d, ticket;
        }
        TouchedTwice(T0, T1, ledger.state.tasks, task.key);
        attempt := attempt + 1;
      }
      assert false;   // the second attempt always returns or raises: the source's unexpected-loop-exit is dead
    }

    // ------------------------------------------------------------------ the main loop

    /** The gates before a claim: model precondition, write invariant, spec body, manifest lint. */
    method PreClaim() returns (refusal: Option<string>)
      modifies this`asked
      ensures refusal == RefusedBefore(answers, old(asked))
      ensures asked == old(asked) + AskedBefore(answers, old(asked))
    {
      var model := Ask();
      if model.fails {
        return Some(if model.skipped then "model-precondition-unreachable" else "model-precondition-failed");
      }
      var invariantGate := Ask();
      if invariantGate.fails {
        return Some(if invariantGate.skipped then "db-invariant-unreachable" else "db-invariant-violated");
      }
      var body := Ask();
      if body.fails { return Some("spec-body-unavailable"); }
      var lint := Ask();
      if lint.fails { return Some("manifest-lint-failed"); }
      return None;
    }

    /** Claim the task and record the claim. */
    method Take(queue: TaskQueue, task: TaskRow, now: int)
      requires Ready(queue, task) && task.status == Queued && DepsCommitted(ledger.state.tasks, bundle, task.key)
      modifies this`claims, ledger`brs, ledger`writeLog, ledger`claimed, ledger`state, ledger.Rows()
      ensures Ready(queue, task) && task.status == Building
      ensures Touched(old(ledger.state.tasks), ledger.state.tasks, task.key)
      ensures claims == old(claims) + [Claim(task.key, old(ledger.state.tasks))]
      ensures ledger.claimed == old(ledger.claimed) + [task.key]
    {
      hide Told, Invariant, Touched, HasPass, Repo.Valid, Repo.Contains, InMemoryLedger.Valid, InMemoryLedger.Ordered,
        DepsCommitted, Ledger.Claim, Carries, CanMove;
      ghost var T0, log := ledger.state.tasks, ledger.writeLog;
      ledger.RowState(task);
      ClaimSucceeds(ledger.state, task.key, queue.sessionId, now);
      claims := claims + [RunSpec.Claim(task.key, T0)];
      var ok := queue.Claim(task, now);
      ledger.RowState(task);
      ToldClaim(logBase, log, T0, ledger.state.tasks, bundle, task.key);
    }

    /** One queued task, from the gates before its claim to its disposition. The claim record grows exactly when the
        ledger logs a claim, by that claim on the rows as they were. */
    method Process(queue: TaskQueue, task: TaskRow, now: int)
      returns (o: Outcome, d: Disposition, ghost ticket: Ticket)
      requires Ready(queue, task) && task.status == Queued && DepsCommitted(ledger.state.tasks, bundle, task.key)
      modifies this`asked, this`trace, this`claims, ledger`brs, ledger`writeLog, ledger`claimed, ledger`state,
        ledger.Rows(), git
      ensures Ready(queue, task) && old(git.BaseHistory()) <= git.BaseHistory() && old(trace) <= trace
      ensures if RefusedBefore(answers, old(asked)).Some?
              then claims == old(claims) && ledger.claimed == old(ledger.claimed)
              else claims == old(claims) + [Claim(task.key, old(ledger.state.tasks))]
                   && ledger.claimed == old(ledger.claimed) + [task.key]
      ensures Fits(o, d, Here(), QueuedEnd(Inputs(), task.key, old(Here())))
      ensures o.Ok? ==> Disposed(old(ledger.state.tasks), ledger.state.tasks, task.key, d)
      ensures o.Ok? && d.CommittedAt? ==>
                CommitEvidence(trace, |old(trace)|, ticket, d.sha) && ticket.key == task.key
                && History(d.sha) <= git.BaseHistory()
      ensures o.Raise? ==> o in {Raise(GitFailure), Raise(InvalidTransition)} && !Terminal(task.status)
                           && Touched(old(ledger.state.tasks), ledger.state.tasks, task.key)
    {
      hide ClaimedEnd, RefusedBefore, Told, Invariant, Disposed, Touched, HasPass, Builds, Landed, Verifies,
        Repo.Valid, Repo.Contains, InMemoryLedger.Valid, InMemoryLedger.Ordered, CommitEvidence, History, Carries,
        CanMove;
      AllAsked(answers, asked);
      hide AskedBefore;
      o := Ok;
      ticket := Ticket(task.key, 0, false, Commit(0, []), AttemptBranch(task.key, 0), 0, PhantomCompletion,
                       Commit(0, []), Commit(0, []));
      var refusal := PreClaim();
      if refusal.Some? {
        d := ParkTask(queue, task, refusal.value);
        return;
      }
      ghost var T0 := ledger.state.tasks;
      Take(queue, task, now);
      ghost var T1 := ledger.state.tasks;
      o, d, ticket := RunClaimed(queue, task);
      if o.Raise? { TouchedTwice(T0, T1, ledger.state.tasks, task.key); }
      else { TouchedThenDisposed(T0, T1, ledger.state.tasks, task.key, d); }
    }

    /** A claimed task: the circuit breaker, then the task itself. */
    method RunClaimed(queue: TaskQueue, task: TaskRow)
      returns (o: Outcome, d: Disposition, ghost ticket: Ticket)
      requires Ready(queue, task) && task.status == Building
      modifies this`asked, this`trace, ledger`brs, ledger`writeLog, ledger`state, ledger.Rows(), git
      ensures Ready(queue, task) && old(git.BaseHistory()) <= git.BaseHistory() && old(trace) <= trace
      ensures Fits(o, d, Here(), ClaimedEnd(Inputs(), task.key, old(Here())))
      ensures o.Ok? ==> Disposed(old(ledger.state.tasks), ledger.state.tasks, task.key, d)
      ensures o.Ok? && d.CommittedAt? ==>
                CommitEvidence(trace, |old(trace)|, ticket, d.sha) && ticket.key == task.key
                && History(d.sha) <= git.BaseHistory()
      ensures o.Raise? ==> o in {Raise(GitFailure), Raise(InvalidTransition)} && !Terminal(task.status)
                           && Touched(old(ledger.state.tasks), ledger.state.tasks, task.key)
    {
      hide TaskEnd, WinsThrough, Told, Invariant, Disposed, Touched, HasPass, Builds, Landed, Verifies, Repo.Valid,
        Repo.Contains, InMemoryLedger.Valid, InMemoryLedger.Ordered, CommitEvidence, History, AttemptOpens,
        LeftBuilding, Carries, CanMove;
      o := Ok;
      ticket := Ticket(task.key, 0, false, Commit(0, []), AttemptBranch(task.key, 0), 0, PhantomCompletion,
                       Commit(0, []), Commit(0, []));
      var breaker := Ask();
      if breaker.fails {
        d := ParkTask(queue, task, "circuit-break-repeat-failure");
      } else {
        o, d, ticket := RunTask(queue, task);
      }
    }

    /** Poll, process, report, until nothing is queued. Each round disposes of one task, so the queued rows run
        out. The write log only grows, and every claim logged since is on a task of the bundle, each of whose
        dependencies in the bundle has been logged as committed in between. */
    method MainLoop(queue: TaskQueue, now: int, ghost g: Graph, ghost order: seq<string>, ghost start: nat)
      returns (o: Outcome, committed: seq<string>, parked: seq<string>, halted: seq<HaltRecord>, ghost turns: seq<Turn>)
      requires queue.ledger == ledger && ledger.Valid() && ledger.Ordered() && git.Valid() && Invariant(ledger.state)
      requires Between(ledger.state.tasks, queue.runId, g, order, [], [], []) && BuildOrder(g, order)
      requires claims == [] && start <= |trace|
      modifies this`asked, this`trace, this`claims, this`proofs, this`logBase, this`bundle, ledger`brs, ledger`writeLog,
        ledger`claimed, ledger`state, ledger.Rows(), git
      ensures ledger.Valid() && ledger.Ordered() && git.Valid() && Invariant(ledger.state)
      ensures old(git.BaseHistory()) <= git.BaseHistory() && old(trace) <= trace
      ensures OthersSame(old(ledger.state.tasks), ledger.state.tasks, queue.runId)
      ensures forall c :: c in claims ==> SafeClaim(c)
      ensures ledger.claimed == old(ledger.claimed) + ClaimedKeys(claims)
      ensures old(ledger.writeLog) <= ledger.writeLog
      ensures ClaimsFollow(ledger.writeLog, |old(ledger.writeLog)|, queue.runId, g)
      ensures Proven(proofs, trace, start, ledger.state.tasks, queue.runId, committed, git.BaseHistory())
      ensures CommittedListed(ledger.state.tasks, queue.runId, committed)
      ensures o.Ok? ==> Partition(order, committed, parked, Slugs(halted))
      ensures o.Ok? ==> Between(ledger.state.tasks, queue.runId, g, order, committed, parked, halted)
      ensures o.Raise? ==> o in {Raise(GitFailure), Raise(InvalidTransition)}
      ensures o.Ok? ==>
        && Played(Inputs(), queue.runId, turns, old(ledger.state.tasks), old(Here()), ledger.state.tasks, Here())
        && NoneQueued(ledger.state.tasks, queue.runId)
        && committed == CommitsIn(turns) && parked == ParksIn(turns) && halted == HaltsIn(turns)
      ensures o.Raise? ==>
                RaisedAfter(Inputs(), queue.runId, turns, old(ledger.state.tasks), old(Here()), o.exn)
    {
      hide Played, Plays, RaisedAfter, CommitsIn, ParksIn, HaltsIn, QueuedEnd, Disposed, Told, Invariant, Repo.Valid,
        Repo.Contains, InMemoryLedger.Valid, InMemoryLedger.Ordered, CommitEvidence, History, Between, SafeClaim,
        Partition, OthersSame, QueuedKeys, BuildOrder, Slugs, Proven, IsNext, NoneQueued, ClaimedKeys,
        CommittedListed, DepsCommitted, Carries, CanMove, ClaimsFollow, CommitLogged;
      o, committed, parked, halted := Ok, [], [], [];
      turns := [];
      ghost var T0, w0, env := ledger.state.tasks, Here(), Inputs();
      NothingPlayed(env, queue.runId, T0, w0);
      logBase, bundle := ledger.writeLog, g;
      BetweenLists(ledger.state.tasks, queue.runId, g, order, [], [], []);
      ToldAtStart(logBase, ledger.state.tasks, queue.runId, g);
      StartOfLoop(ledger.state.tasks, queue.runId, trace, git.BaseHistory());
      NoClaims();
      while true
        invariant ledger.Valid() && ledger.Ordered() && git.Valid() && Invariant(ledger.state)
        invariant o.Ok? && old(git.BaseHistory()) <= git.BaseHistory() && old(trace) <= trace
        invariant Between(ledger.state.tasks, queue.runId, g, order, committed, parked, halted)
        invariant OthersSame(old(ledger.state.tasks), ledger.state.tasks, queue.runId)
        invariant forall c :: c in claims ==> SafeClaim(c)
        invariant ledger.claimed == old(ledger.claimed) + ClaimedKeys(claims)
        invariant logBase == old(ledger.writeLog) && bundle == g
        invariant Played(env, queue.runId, turns, T0, w0, ledger.state.tasks, Here())
        invariant committed == CommitsIn(turns) && parked == ParksIn(turns) && halted == HaltsIn(turns)
        invariant Told(logBase, ledger.writeLog, ledger.state.tasks, queue.runId, g)
        invariant Proven(proofs, trace, start, ledger.state.tasks, queue.runId, committed, git.BaseHistory())
        decreases QueuedKeys(ledger.state.tasks, queue.runId)
      {
        ghost var T, made := ledger.state.tasks, claims;
        Polled(T, queue.runId, g, order, committed, parked, halted);
        BetweenLists(T, queue.runId, g, order, committed, parked, halted);
        ToldMeans(logBase, ledger.writeLog, T, queue.runId, g);
        var task := queue.NextQueued();
        if task == null { break; }
        ghost var w := Here();
        var d;
        o, d, committed, parked, halted := Round(queue, task, now, g, order, start, committed, parked, halted);
        OthersSameTwice(old(ledger.state.tasks), T, ledger.state.tasks, queue.runId);
        ToldMeans(logBase, ledger.writeLog, ledger.state.tasks, queue.runId, g);
        ClaimedKeysMore(made, Claim(task.key, T));
        if o.Raise? {
          RaisesNext(env, queue.runId, turns, T0, w0, T, w, task.key, o.exn);
          return;
        }
        ghost var turn := Turn(task.key, T, w, d);
        TurnPlays(env, queue.runId, turn, ledger.state.tasks, Here());
        OneTurnMore(env, queue.runId, turns, T0, w0, turn, ledger.state.tasks, Here());
        turns := turns + [turn];
      }
    }

    /** One round: the polled task is processed and reported. */
    method Round(queue: TaskQueue, task: TaskRow, now: int, ghost g: Graph, ghost order: seq<string>, ghost start: nat,
                 committed: seq<string>, parked: seq<string>, halted: seq<HaltRecord>)
      returns (o: Outcome, d: Disposition, committed': seq<string>, parked': seq<string>, halted': seq<HaltRecord>)
      requires Ready(queue, task) && IsNext(ledger.state.tasks, queue.runId, task.key)
      requires Between(ledger.state.tasks, queue.runId, g, order, committed, parked, halted) && BuildOrder(g, order)
      requires start <= |trace| && bundle == g && forall c :: c in claims ==> SafeClaim(c)
      requires Proven(proofs, trace, start, ledger.state.tasks, queue.runId, committed, git.BaseHistory())
      modifies this`asked, this`trace, this`claims, this`proofs, ledger`brs, ledger`writeLog, ledger`claimed,
        ledger`state, ledger.Rows(), git
      ensures Ready(queue, task) && old(git.BaseHistory()) <= git.BaseHistory() && old(trace) <= trace
      ensures OthersSame(old(ledger.state.tasks), ledger.state.tasks, queue.runId)
      ensures forall c :: c in claims ==> SafeClaim(c)
      ensures (claims == old(claims) && ledger.claimed == old(ledger.claimed))
              || (claims == old(claims) + [Claim(task.key, old(ledger.state.tasks))]
                  && ledger.claimed == old(ledger.claimed) + [task.key])
      ensures Proven(proofs, trace, start, ledger.state.tasks, queue.runId, committed', git.BaseHistory())
      ensures CommittedListed(ledger.state.tasks, queue.runId, committed')
      ensures o.Ok? ==> Between(ledger.state.tasks, queue.runId, g, order, committed', parked', halted')
      ensures o.Ok? ==> QueuedKeys(ledger.state.tasks, queue.runId) < QueuedKeys(old(ledger.state.tasks), queue.runId)
      ensures o.Raise? ==> o in {Raise(GitFailure), Raise(InvalidTransition)}
      ensures Fits(o, d, Here(), QueuedEnd(Inputs(), task.key, old(Here())))
      ensures o.Ok? ==>
        && Disposed(old(ledger.state.tasks), ledger.state.tasks, task.key, d)
        && committed' == committed + (if d.CommittedAt? then [task.key.slug] else [])
        && parked' == parked + (if d.ParkedFor? then [task.key.slug] else [])
        && halted' == halted + if d.ParkedFor? then d.halts else []
    {
      hide TaskEnd, QueuedEnd, RefusedBefore, AskedBefore, WinsThrough, Told, Invariant, Disposed, Touched,
        Repo.Valid, Repo.Contains, InMemoryLedger.Valid, InMemoryLedger.Ordered, CommitEvidence, History, Between,
        SafeClaim, Partition, OthersSame, QueuedKeys, BuildOrder, Slugs, Proven, IsNext, NoneQueued, ClaimedKeys,
        CommittedListed, DepsCommitted, Carries, CanMove, ClaimsFollow, CommitLogged;
      committed', parked', halted' := committed, parked, halted;
      ghost var T, t, base := ledger.state.tasks, trace, git.BaseHistory();
      Polled(T, queue.runId, g, order, committed, parked, halted);
      BetweenLists(T, queue.runId, g, order, committed, parked, halted);
      ledger.RowState(task);
      ghost var ticket;
      o, d, ticket := Process(queue, task, now);
      ledger.RowState(task);
      ProvenGrows(proofs, t, trace, start, T, ledger.state.tasks, queue.runId, committed, base, git.BaseHistory(),
                  task.key);
      if o.Raise? {
        TouchedSamesOthers(T, ledger.state.tasks, task.key);
        TouchedLists(T, ledger.state.tasks, queue.runId, committed, task.key);
        return;
      }
      DisposeKeeps(T, ledger.state.tasks, queue.runId, g, order, committed, parked, halted, task.key, d);
      if d.CommittedAt? {
        CommitRow(T, ledger.state.tasks, task.key, d.sha);
        ChainBacks(trace, start, |t|, ticket, d.sha, ledger.state.tasks, git.BaseHistory());
        ghost var p := Proof(|t|, |trace|, ticket, d.sha);
        ProvenMore(proofs, trace, start, ledger.state.tasks, queue.runId, committed, git.BaseHistory(), task.key.slug,
                   p);
        proofs := proofs[task.key.slug := p];
        committed' := committed + [task.key.slug];
      } else {
        parked' := parked + [task.key.slug];
        halted' := halted + d.halts;
      }
      BetweenLists(ledger.state.tasks, queue.runId, g, order, committed', parked', halted');
    }

    /** Queue the resolved bundle under its fresh run id; recovery and reaping then find nothing to do. */
    method Begin(intake: BundleIntake, queue: TaskQueue, slugs: seq<string>, order: seq<string>,
                 now: int, threshold: int, minutes: int)
      requires ledger.Valid() && ledger.Ordered() && Invariant(ledger.state) && queue.ledger == ledger
      requires forall k :: k in ledger.state.tasks ==> k.run != queue.runId
      requires BuildOrder(intake.Valid(slugs), order)
      modifies ledger, ledger.Rows()
      ensures ledger.Valid() && ledger.Ordered() && Invariant(ledger.state) && ledger.claimed == old(ledger.claimed)
      ensures old(ledger.writeLog) <= ledger.writeLog
      ensures fresh(ledger.Rows() - old(ledger.Rows()))
      ensures Between(ledger.state.tasks, queue.runId, intake.Valid(slugs), order, [], [], [])
      ensures OthersSame(old(ledger.state.tasks), ledger.state.tasks, queue.runId)
    {
      hide Ready, Told, Invariant, InMemoryLedger.Valid, InMemoryLedger.Ordered, Between, OthersSame, BuildOrder,
        ValidGraph, Truthy, Sweep, NoDups, Carries, CanMove;
      IntakeStarts(ledger.state, intake.specs, intake.manifestLint, slugs, queue.runId, order);
      intake.CommitIntake(ledger, queue.runId, order);
      ledger.OrderedRows();
      SweepsIdle(ledger.state, RunKeys(ledger.order, queue.runId), now, threshold, minutes);
      var recovered := queue.RecoverStale(now, threshold);
      var reaped := queue.ReapOrphans(now, minutes);
    }

    /** From resolution to the report, once the guard has let the run pass. */
    method RunResolved(intake: BundleIntake, runId: string, sessionId: string, slugs: seq<string>, now: int,
                       threshold: int, minutes: int)
      returns (o: Outcome, report: Option<Report>, ghost done: seq<string>, ghost rows: map<Key, Task>,
               ghost turns: seq<Turn>)
      requires ledger.Valid() && ledger.Ordered() && git.Valid() && Invariant(ledger.state)
      requires forall k :: k in ledger.state.tasks ==> k.run != runId
      requires NoDups(Roots(intake.Valid(slugs), slugs))
      requires claims == []
      modifies this`asked, this`trace, this`claims, this`proofs, this`logBase, this`bundle, ledger, ledger.Rows(), git
      ensures ledger.Valid() && ledger.Ordered() && git.Valid() && Invariant(ledger.state)
      ensures o.Ok? ==> (report.None? <==> exists s :: s in intake.Valid(slugs) && OnCycle(intake.Valid(slugs), s))
      ensures o.Ok? && report.Some? ==>
        && report.value.excluded == Excluded(intake.specs, intake.manifestLint, slugs)
        && ExcludesExactly(intake.specs, intake.manifestLint, slugs, report.value.excluded)
        && SharesOut(slugs, report.value.committed + report.value.parked + Slugs(report.value.halted),
                     report.value.excluded)
        && NoDups(report.value.committed + report.value.parked + Slugs(report.value.halted))
        && forall s :: s in report.value.committed + report.value.parked + Slugs(report.value.halted)
                       <==> s in intake.Valid(slugs)
      ensures o.Ok? && report.Some? ==> done == report.value.committed
      ensures o.Ok? && report.Some? ==>
        && FreshRows(rows, runId, intake.specs, intake.manifestLint, slugs)
        && Played(Inputs(), runId, turns, rows, old(Here()), ledger.state.tasks, Here())
        && NoneQueued(ledger.state.tasks, runId)
        && report.value.committed == CommitsIn(turns) && report.value.parked == ParksIn(turns)
        && report.value.halted == HaltsIn(turns)
      ensures o.Raise? ==>
        && FreshRows(rows, runId, intake.specs, intake.manifestLint, slugs)
        && RaisedAfter(Inputs(), runId, turns, rows, old(Here()), o.exn)
      ensures o.Raise? ==> report.None? && o in {Raise(GitFailure), Raise(InvalidTransition)}
      ensures Proven(proofs, trace, |old(trace)|, ledger.state.tasks, runId, done, git.BaseHistory())
      ensures CommittedListed(ledger.state.tasks, runId, done)
      ensures forall c :: c in claims ==> SafeClaim(c)
      ensures ledger.claimed == old(ledger.claimed) + ClaimedKeys(claims)
      ensures old(ledger.writeLog) <= ledger.writeLog
      ensures ClaimsFollow(ledger.writeLog, |old(ledger.writeLog)|, runId, intake.Valid(slugs))
      ensures DeclaredClaims(ledger.writeLog, |old(ledger.writeLog)|, runId, intake.specs, intake.manifestLint, slugs)
      ensures old(git.BaseHistory()) <= git.BaseHistory() && old(trace) <= trace
      ensures OthersSame(old(ledger.state.tasks), ledger.state.tasks, runId)
    {
      hide Played, Plays, RaisedAfter, CommitsIn, ParksIn, HaltsIn, FreshRows, BuildOrder, Told, ClaimsFollow,
        DeclaredClaims, DeclaredFirst, Admissible, ClaimLog, Invariant, Repo.Valid, Repo.Contains,
        InMemoryLedger.Valid, InMemoryLedger.Ordered, CommitEvidence, History, Between, SafeClaim, OthersSame, Proven,
        OnCycle, Excluded, ExcludesExactly, SharesOut, Roots, ValidGraph, DepsFirst, NoDups, Slugs, ClaimedKeys,
        CommittedListed, Carries, CanMove;
      o, report, done, rows, turns := Ok, None, [], ledger.state.tasks, [];
      ghost var T0, start, log := ledger.state.tasks, |trace|, ledger.writeLog;
      StartOfLoop(T0, runId, trace, git.BaseHistory());
      NothingListed(T0, runId);
      NoClaims();
      NothingFollows(log, log, runId, intake.Valid(slugs));
      ClaimsAreDeclared(log, |log|, runId, intake.specs, intake.manifestLint, slugs);
      ledger.ClaimedAreLogged();
      var resolution := intake.Resolve(slugs);
      if resolution.CycleError? { return; }
      var queue := new TaskQueue(ledger, runId, sessionId);
      Begin(intake, queue, slugs, resolution.ordered, now, threshold, minutes);
      ghost var T1, base := ledger.state.tasks, ledger.writeLog;
      ledger.ClaimedAreLogged();
      StartIsFresh(T1, runId, intake.specs, intake.manifestLint, slugs, resolution.ordered);
      rows := T1;
      var committed, parked, halted;
      o, committed, parked, halted, turns := MainLoop(queue, now, intake.Valid(slugs), resolution.ordered, start);
      OthersSameTwice(T0, T1, ledger.state.tasks, runId);
      ClaimsFollowEarlier(log, base, ledger.writeLog, runId, intake.Valid(slugs));
      ClaimsAreDeclared(ledger.writeLog, |log|, runId, intake.specs, intake.manifestLint, slugs);
      done := committed;
      if o.Ok? {
        SharesOutSame(slugs, resolution.ordered, committed + parked + Slugs(halted), resolution.excluded);
        report := Some(Report(committed, parked, halted, resolution.excluded));
      }
    }

    /** A fresh run, end to end. It is locked out exactly if it is not forced and a requested spec has a fresh row in
        flight. Otherwise it ends without a report exactly when the dependency graph of the valid specs has a cycle,
        else with one whose lists partition the valid specs and whose exclusions are the other requested ones; or an
        unguarded git read or a refused transition escapes. In every case: the write log only grows, and every claim
        in what is new is on a valid spec of this run, each of whose dependencies in the bundle has been logged as
        committed before; every committed row of the run is backed by a chain of the run's own trace and holds a
        commit that is on origin's base branch with its history; and a row of another run is as it was, or was stale
        and has been put back to queued. */
    method Run(intake: BundleIntake, runId: string, sessionId: string, slugs: seq<string>, force: bool,
               stale: Key -> bool, now: int, threshold: int, minutes: int)
      returns (o: Outcome, report: Option<Report>, ghost done: seq<string>, ghost rows: map<Key, Task>,
               ghost turns: seq<Turn>)
      requires ledger.Valid() && ledger.Ordered() && git.Valid() && Invariant(ledger.state)
      requires forall k :: k in ledger.state.tasks ==> k.run != runId
      requires NoDups(Roots(intake.Valid(slugs), slugs))
      requires claims == []
      modifies this`asked, this`trace, this`claims, this`proofs, this`logBase, this`bundle, ledger, ledger.Rows(), git
      ensures ledger.Valid() && ledger.Ordered() && git.Valid() && Invariant(ledger.state)
      ensures o == Raise(RunLocked) <==>
                !force && exists k :: RunGuards.Blocks(old(ledger.state.tasks), slugs, stale, k)
      ensures o.Ok? ==> (report.None? <==> exists s :: s in intake.Valid(slugs) && OnCycle(intake.Valid(slugs), s))
      ensures o.Ok? && report.Some? ==>
        && report.value.excluded == Excluded(intake.specs, intake.manifestLint, slugs)
        && ExcludesExactly(intake.specs, intake.manifestLint, slugs, report.value.excluded)
        && SharesOut(slugs, report.value.committed + report.value.parked + Slugs(report.value.halted),
                     report.value.excluded)
        && NoDups(report.value.committed + report.value.parked + Slugs(report.value.halted))
        && forall s :: s in report.value.committed + report.value.parked + Slugs(report.value.halted)
                       <==> s in intake.Valid(slugs)
      ensures o.Ok? && report.Some? ==> done == report.value.committed
      ensures o.Ok? && report.Some? ==>
        && FreshRows(rows, runId, intake.specs, intake.manifestLint, slugs)
        && Played(Inputs(), runId, turns, rows, old(Here()), ledger.state.tasks, Here())
        && NoneQueued(ledger.state.tasks, runId)
        && report.value.committed == CommitsIn(turns) && report.value.parked == ParksIn(turns)
        && report.value.halted == HaltsIn(turns)
      ensures o.Raise? && o != Raise(RunLocked) ==>
        && FreshRows(rows, runId, intake.specs, intake.manifestLint, slugs)
        && RaisedAfter(Inputs(), runId, turns, rows, old(Here()), o.exn)
      ensures o.Raise? ==> report.None? && o in {Raise(RunLocked), Raise(GitFailure), Raise(InvalidTransition)}
      ensures Proven(proofs, trace, |old(trace)|, ledger.state.tasks, runId, done, git.BaseHistory())
      ensures CommittedOnBase(ledger.state.tasks, runId, done, git.BaseHistory())
      ensures forall c :: c in claims ==> SafeClaim(c)
      ensures ClaimLog(ledger.writeLog) == ClaimLog(old(ledger.writeLog)) + ClaimedKeys(claims)
      ensures old(ledger.writeLog) <= ledger.writeLog
      ensures ClaimsFollow(ledger.writeLog, |old(ledger.writeLog)|, runId, intake.Valid(slugs))
      ensures DeclaredClaims(ledger.writeLog, |old(ledger.writeLog)|, runId, intake.specs, intake.manifestLint, slugs)
      ensures old(git.BaseHistory()) <= git.BaseHistory() && old(trace) <= trace
      ensures RunGuards.OthersGuarded(old(ledger.state.tasks), ledger.state.tasks, slugs, stale, force)
      ensures o == Raise(RunLocked) ==> trace == old(trace) && claims == []
    {
      hide Played, Plays, RaisedAfter, CommitsIn, ParksIn, HaltsIn, FreshRows, Told, ClaimsFollow, DeclaredClaims,
        DeclaredFirst, Admissible, ClaimLog, Invariant, Repo.Valid, Repo.Contains, InMemoryLedger.Ordered,
        CommitEvidence, History, SafeClaim, OthersSame, Proven, OnCycle, Excluded, ExcludesExactly, SharesOut, Roots,
        ValidGraph, NoDups, Slugs, ClaimedKeys, CommittedListed, CommittedOnBase, RunGuards.Blocks,
        RunGuards.OthersGuarded, Carries, CanMove;
      o, report, done, rows, turns := Ok, None, [], ledger.state.tasks, [];
      ghost var s0, start, log := ledger.state, |trace|, ledger.writeLog;
      assert ledger.claimed == ClaimLog(ledger.writeLog);
      var locked := PassGuard(slugs, force, stale);
      ghost var T1, base := ledger.state.tasks, ledger.writeLog;
      ledger.ClaimedAreLogged();
      if locked {
        NothingFollows(log, base, runId, intake.Valid(slugs));
        ClaimsAreDeclared(base, |log|, runId, intake.specs, intake.manifestLint, slugs);
        StartOfLoop(T1, runId, trace, git.BaseHistory());
        NothingListed(T1, runId);
        NoClaims();
        ProvenOnBase(proofs, trace, start, T1, runId, [], git.BaseHistory());
        return Raise(RunLocked), None, [], rows, turns;
      }
      o, report, done, rows, turns := RunResolved(intake, runId, sessionId, slugs, now, threshold, minutes);
      ClaimsFollowEarlier(log, base, ledger.writeLog, runId, intake.Valid(slugs));
      ClaimsAreDeclared(ledger.writeLog, |log|, runId, intake.specs, intake.manifestLint, slugs);
      OthersStayGuarded(s0.tasks, T1, ledger.state.tasks, runId, slugs, stale, force);
      ProvenOnBase(proofs, trace, start, ledger.state.tasks, runId, done, git.BaseHistory());
    }

    /** The single-flight guard, unless the run is forced. */
    method PassGuard(slugs: seq<string>, force: bool, stale: Key -> bool) returns (locked: bool)
      requires ledger.Valid() && ledger.Ordered() && Invariant(ledger.state)
      modifies ledger`brs, ledger`writeLog, ledger`state, ledger.Rows()
      ensures ledger.Valid() && ledger.Ordered() && Invariant(ledger.state)
      ensures old(ledger.writeLog) <= ledger.writeLog
      ensures ledger.state.tasks.Keys == old(ledger.state.tasks).Keys
      ensures locked <==> !force && exists k :: RunGuards.Blocks(old(ledger.state.tasks), slugs, stale, k)
      ensures RunGuards.OthersGuarded(old(ledger.state.tasks), ledger.state.tasks, slugs, stale, force)
    {
      hide Ready, Told, ClaimsFollow, DeclaredClaims, DeclaredFirst, Admissible, ClaimLog, Invariant,
        InMemoryLedger.Valid, RunGuards.OthersGuarded, RunGuards.Blocks, Sweep, Carries, CanMove;
      ghost var s := ledger.state;
      ledger.OrderedKeys();
      RunGuards.Unguarded(s.tasks, slugs, stale);
      locked := false;
      if !force {
        var blocking;
        locked, blocking := RunGuards.CheckSingleFlight(ledger, slugs, stale);
        RunGuards.GuardRows(s, ledger.order, slugs, stale);
        if locked { assert blocking[0] in blocking; }
      }
    }
  }
}
