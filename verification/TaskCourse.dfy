/** The course of one task as a function of its inputs: what the answers of builder, verifier, gates and git decide,
    from the state in which the task starts. */
module TaskCourse {
  import opened Models
  import opened GitOps
  import opened Ledger
  import opened Trace
  import opened TaskInputs

  /** What stays the same during a task: its settings, and everything the outside world will answer. */
  datatype Env = Env(config: Config, answers: Answers, base: Ref, git: nat -> GitAnswer)

  /** What changes: the next answer to be used, and the clone with its own next answer. */
  datatype World = World(at: nat, repo: Repo, asked: nat)

  datatype Ending = Commits(sha: Commit) | Parks(reason: string) | Raises(exn: Exn)

  /** An ending, and what has been used and changed by then; after a raise the run is over, and that is left open. */
  datatype End = End(ending: Ending, world: World)

  function AttemptBranch(key: Key, attempt: nat): Ref { Ref.Build(key.run, key.slug, attempt) }

  /** No two attempts of any tasks share a branch. */
  lemma OwnBranch(key: Key, attempt: nat, other: Key, later: nat)
    ensures AttemptBranch(key, attempt).Build?
    ensures AttemptBranch(key, attempt) == AttemptBranch(other, later) <==> key == other && attempt == later
  {
  }

  // ------------------------------------------------------------------ before the claim

  /** Why the gates before a claim refuse the task, if they do: the first that fails, in this order. */
  function RefusedBefore(answers: Answers, at: nat): Option<string> {
    var (model, rule, body, lint) := (answers(at), answers(at + 1), answers(at + 2), answers(at + 3));
    if model.fails then Some(if model.skipped then "model-precondition-unreachable" else "model-precondition-failed")
    else if rule.fails then Some(if rule.skipped then "db-invariant-unreachable" else "db-invariant-violated")
    else if body.fails then Some("spec-body-unavailable")
    else if lint.fails then Some("manifest-lint-failed")
    else None
  }

  /** How many of the four gates are asked. */
  function AskedBefore(answers: Answers, at: nat): nat {
    if answers(at).fails then 1 else if answers(at + 1).fails then 2 else if answers(at + 2).fails then 3 else 4
  }

  lemma AllAsked(answers: Answers, at: nat)
    ensures RefusedBefore(answers, at).None? ==> AskedBefore(answers, at) == 4
  {
  }

  /** A task is refused exactly if one of the four answers fails. */
  lemma RefusedExactly(answers: Answers, at: nat)
    ensures RefusedBefore(answers, at).Some? <==> exists i :: at <= i < at + 4 && answers(i).fails
  {
    if i :| at <= i < at + 4 && answers(i).fails { assert i in {at, at + 1, at + 2, at + 3}; }
  }

  // ------------------------------------------------------------------ building

  datatype BuildTurn =
    | BuildOk(commit: Commit, from: Commit, world: World, secs: nat)
    | BuildAgain(world: World, secs: nat)
    | BuildEnds(end: End)

  function ErrorReason(e: BuildError): string {
    match e
    case BuilderWedged => "builder-wedged"
    case BuildApiError => "build-api-error"
    case BuildPushFailed => "build-push-failed"
    case BuildUnpushed => "build-unpushed"
    case OtherError => "build-no-commit"
  }

  /** One builder session; a commit it reports is followed by a sync of the workspace. */
  function AfterBuild(env: Env, w: World, branch: Ref): World {
    if env.answers(w.at).commit.None? then w.(at := w.at + 1)
    else World(w.at + 1, AfterSync(w.repo, env.git(w.asked), env.base, branch), w.asked + 1)
  }

  /** The branch put aside before a retry. */
  function AfterAside(env: Env, w: World, branch: Ref): World
    requires branch.Build?
  {
    var (r, n) := AfterPreserve(w.repo, env.git, w.asked, env.base, branch,
                                Wedged(branch.run, branch.slug, branch.attempt));
    World(w.at, r, w.asked + n)
  }

  /** Judging a finished build: its commit, the scaffolding guard, the lint. A first wedge or lint failure is
      retried. `None` means the build is fine. */
  datatype Vetting = Fine | Retry | Unfit(reason: string)

  function Vets(build: Answer, answers: Answers, at: nat, attempt: nat): (Vetting, nat) {
    if build.commit.None? then
      (if build.error.BuilderWedged? && attempt == 0 then Retry else Unfit(ErrorReason(build.error)), at)
    else if answers(at).fails then (Unfit("scaffolding-leak"), at + 1)
    else if !answers(at + 1).skipped && answers(at + 1).fails then
      (if attempt == 0 then Retry else Unfit("antislop-lint-failed"), at + 2)
    else (Fine, at + 2)
  }

  lemma VettingCases(build: Answer, answers: Answers, at: nat, attempt: nat)
    ensures Vets(build, answers, at, attempt).0.Fine? ==> build.commit.Some?
    ensures Vets(build, answers, at, attempt).0.Retry? ==> attempt == 0
  {
  }

  function BuildCourse(env: Env, key: Key, w: World, attempt: nat, secs: nat): BuildTurn {
    var branch := AttemptBranch(key, attempt);
    if secs >= env.config.ceiling then BuildEnds(End(Parks("spec-wallclock-ceiling-exceeded"), w))
    else if !LiveReads(w.repo, env.git, w.asked, env.base) then BuildEnds(End(Raises(GitFailure), w))
    else if !AttemptOpens(w.repo, env.git, w.asked, env.base, branch) then
      var live := AfterLive(w.repo, env.git, w.asked, env.base);
      var (r, n) := AfterFailedOpen(live, env.git, w.asked + 2, env.base, branch,
                                    LiveBase(w.repo, env.git, w.asked, env.base));
      BuildEnds(End(Parks("build-git-error"), World(w.at, r, w.asked + 2 + n)))
    else
      BuiltCourse(env, World(w.at, AfterOpening(w.repo, env.git, w.asked, env.base, branch), w.asked + 5), attempt,
                  branch, LiveBase(w.repo, env.git, w.asked, env.base), secs)
  }

  /** The builder session on an open branch, and what becomes of its result. */
  function BuiltCourse(env: Env, w: World, attempt: nat, branch: Ref, from: Commit, secs: nat): BuildTurn
    requires branch.Build?
  {
    var built := AfterBuild(env, w, branch);
    var spent := secs + env.answers(w.at).secs;
    var (v, next) := Vets(env.answers(w.at), env.answers, built.at, attempt);
    match v
    case Fine => BuildOk(env.answers(w.at).commit.value, from, built.(at := next), spent)
    case Retry => BuildAgain(AfterAside(env, built.(at := next), branch), spent)
    case Unfit(reason) => BuildEnds(End(Parks(reason), built.(at := next)))
  }

  // ------------------------------------------------------------------ after a PASS verdict

  datatype GateResult = Cleared(origin: OriginCheck) | ConformanceFailed | Refused(reason: string)

  /** Conformance, substance, live database, origin: the first that refuses. */
  function GateVerdict(env: Env, w: World, claimed: Commit, branch: Ref, from: Commit): GateResult {
    if env.answers(w.at).fails then ConformanceFailed
    else if env.answers(w.at + 1).fails then Refused("substance-empty-delta")
    else if env.answers(w.at + 2).fails then Refused("live-db-assert-failed")
    else if CheckFails(w.repo, env.git, w.asked, env.base, branch, from) then Refused("r9-gate-error")
    else if !OriginHolds(w.repo, env.git, w.asked, env.base, branch, from, claimed) then Refused("phantom-completion")
    else if AfterCheck(w.repo, env.git, w.asked, env.base, branch).IsAncestor(claimed, from)
    then Cleared(AlreadyContains(claimed))
    else Cleared(Confirmed(claimed))
  }

  lemma GatesStart(env: Env, w: World, claimed: Commit, branch: Ref, from: Commit)
    ensures GateVerdict(env, w, claimed, branch, from).ConformanceFailed? <==> env.answers(w.at).fails
    ensures env.answers(w.at).fails ==> AfterGates(env, w, branch, from) == w.(at := w.at + 1)
    ensures GateVerdict(env, w, claimed, branch, from).Cleared? ==>
              !GateVerdict(env, w, claimed, branch, from).origin.PhantomCompletion?
  {
  }

  /** What the gates have used by then. */
  function AfterGates(env: Env, w: World, branch: Ref, from: Commit): World {
    if env.answers(w.at).fails then w.(at := w.at + 1)
    else if env.answers(w.at + 1).fails then w.(at := w.at + 2)
    else if env.answers(w.at + 2).fails then w.(at := w.at + 3)
    else
      var (r, n) := AfterChecking(w.repo, env.git, w.asked, env.base, branch, from);
      World(w.at + 3, r, w.asked + n)
  }

  /** Check out, merge, read HEAD, push, and look: what is recorded, or the first step that stops it. */
  function Landing(env: Env, w: World, branch: Ref): End {
    var merged := AfterMerging(w.repo, env.git(w.asked), env.base, branch);
    if !BaseChecksOut(w.repo, env.git(w.asked), env.base) then
      End(Parks("ff-merge-error"), World(w.at, merged, w.asked + 1))
    else if !OneLine(w.repo, env.base, branch) then End(Parks("ff-merge-failed"), World(w.at, merged, w.asked + 1))
    else if env.git(w.asked + 1).fails then End(Raises(GitFailure), w)
    else
      var tip := LaterTip(w.repo, env.base, branch);
      var (r, n) := AfterPush(merged, env.git, w.asked + 2, env.base, tip);
      var next := World(w.at, r, w.asked + 2 + n);
      if !PushTaken(merged, env.git, w.asked + 2, env.base, tip) || env.git(w.asked + 3).fails
      then End(Parks("push-error"), next)
      else if !SeenAfterPush(merged, env.git, w.asked + 2, env.base, tip)
      then End(Parks("post-push-ref-not-advanced"), next)
      else End(Commits(tip), next)
  }

  /** What follows a PASS verdict on `claimed` that is not handed back. */
  function PassEnding(env: Env, w: World, claimed: Commit, branch: Ref, from: Commit): End {
    var next := AfterGates(env, w, branch, from);
    match GateVerdict(env, w, claimed, branch, from)
    case ConformanceFailed => End(Parks("conformance-checklist-failed"), next)
    case Refused(reason) => End(Parks(reason), next)
    case Cleared(origin) => if origin.AlreadyContains? then End(Commits(claimed), next) else Landing(env, next, branch)
  }

  // ------------------------------------------------------------------ the course as a whole

  /** A PASS verdict that decides the task: the commit it is about, its branch and where that branch started. */
  datatype Pass = Pass(world: World, claimed: Commit, branch: Ref, from: Commit)

  datatype FixTurn = FixPassed(pass: Pass) | FixEmpty(world: World) | FixUnread(world: World)
                   | FixFails(world: World, findings: nat)

  /** One fix pass: a build on the branch, and if it lands a verification. */
  function OneFix(env: Env, w: World, branch: Ref, from: Commit): FixTurn {
    var built := AfterBuild(env, w, branch);
    var commit := env.answers(w.at).commit;
    if commit.None? then FixEmpty(built) else ReadFix(env, built, commit.value, branch, from)
  }

  function ReadFix(env: Env, w: World, commit: Commit, branch: Ref, from: Commit): FixTurn {
    var (v, n) := Verified(env.answers, w.at);
    var read := w.(at := w.at + n);
    if v.None? then FixUnread(read)
    else if v.value.verdict == PassVerdict then FixPassed(Pass(read, commit, branch, from))
    else FixFails(read, v.value.findings)
  }

  /** How the fix lane ends: decided by a PASS, stopped, or handed on with what is left of the budget; `empty` says
      that the last pass came back without a commit. */
  datatype LaneTurn = LanePassed(pass: Pass) | LaneStops(end: End) | LaneEnds(world: World, budget: int, empty: bool)

  function LaterFixes(env: Env, w: World, branch: Ref, from: Commit, budget: int): (turn: LaneTurn)
    ensures !turn.LaneStops?
    decreases if budget > 0 then budget else 0
  {
    if budget <= 0 then LaneEnds(w, budget, false)
    else
      match OneFix(env, w, branch, from)
      case FixPassed(p) => LanePassed(p)
      case FixEmpty(next) => LaneEnds(next, budget - 1, true)
      case FixUnread(next) => LaneEnds(next, budget - 1, false)
      case FixFails(next, _) => LaterFixes(env, next, branch, from, budget - 1)
  }

  function FixLane(env: Env, w: World, branch: Ref, from: Commit, findings: nat, budget: int): (turn: LaneTurn)
    ensures turn.LaneStops? ==> turn.end.ending == Parks("verify-malformed")
  {
    if findings > env.config.fixForwardMax || budget <= 0 then LaneEnds(w, budget, false)
    else
      match OneFix(env, w, branch, from)
      case FixPassed(p) => LanePassed(p)
      case FixEmpty(next) => LaneEnds(next, budget - 1, true)
      case FixUnread(next) => LaneStops(End(Parks("verify-malformed"), next))
      case FixFails(next, more) =>
        if budget > 1 && more <= env.config.fixForwardMax then LaterFixes(env, next, branch, from, budget - 1)
        else LaneEnds(next, budget - 1, false)
  }

  /** How an attempt ends: decided by a PASS, ended without one, or handed on to the next attempt. */
  datatype AttemptTurn = Passed(pass: Pass) | Stops(end: End) | HandsOn(world: World, secs: nat, budget: int)

  /** After a failed verdict and the fix lane: the ceiling, the last attempt, or back to building, which a task that is
      building already may not. */
  function FailCourse(env: Env, w: World, attempt: nat, branch: Ref, secs: nat, budget: int, empty: bool): AttemptTurn
    requires branch.Build?
  {
    if secs >= env.config.ceiling then Stops(End(Parks("spec-wallclock-ceiling-exceeded"), w))
    else if attempt == 1 then Stops(End(Parks("verify-failed-retry"), w))
    else if empty then Stops(End(Raises(InvalidTransition), w))
    else HandsOn(AfterAside(env, w, branch), secs, budget)
  }

  /** After a readable verdict. A conformance failure of attempt 0 is handed on. */
  function JudgeCourse(env: Env, w: World, attempt: nat, commit: Commit, branch: Ref, from: Commit, a: Answer,
                       secs: nat, budget: int): AttemptTurn
    requires branch.Build?
  {
    if a.verdict == PassVerdict then
      if attempt == 0 && env.answers(w.at).fails then HandsOn(AfterAside(env, w.(at := w.at + 1), branch), secs, budget)
      else Passed(Pass(w, commit, branch, from))
    else
      AfterLane(env, FixLane(env, w, branch, from, a.findings, budget), attempt, branch, secs)
  }

  function AfterLane(env: Env, lane: LaneTurn, attempt: nat, branch: Ref, secs: nat): AttemptTurn
    requires branch.Build?
  {
    match lane
    case LanePassed(p) => Passed(p)
    case LaneStops(end) => Stops(end)
    case LaneEnds(next, left, empty) => FailCourse(env, next, attempt, branch, secs, left, empty)
  }

  function AttemptCourse(env: Env, key: Key, w: World, attempt: nat, secs: nat, budget: int): AttemptTurn {
    match BuildCourse(env, key, w, attempt, secs)
    case BuildEnds(end) => Stops(end)
    case BuildAgain(next, spent) => HandsOn(next, spent, budget)
    case BuildOk(commit, from, next, spent) =>
      VerdictCourse(env, next, attempt, commit, AttemptBranch(key, attempt), from, spent, budget)
  }

  /** The verification of a build, and what its verdict leads to. */
  function VerdictCourse(env: Env, w: World, attempt: nat, commit: Commit, branch: Ref, from: Commit, secs: nat,
                         budget: int): AttemptTurn
    requires branch.Build?
  {
    var (v, n) := Verified(env.answers, w.at);
    var read := w.(at := w.at + n);
    if v.None? then Stops(End(Parks("verify-malformed"), read))
    else JudgeCourse(env, read, attempt, commit, branch, from, v.value, secs + Elapsed(env.answers, w.at, n), budget)
  }

  /** What decides the task, over both attempts. */
  function Course(env: Env, key: Key, w: World): AttemptTurn {
    match AttemptCourse(env, key, w, 0, 0, env.config.fixBudget)
    case HandsOn(next, secs, budget) => AttemptCourse(env, key, next, 1, secs, budget)
    case turn => turn
  }

  function EndingAt(env: Env, p: Pass): End { PassEnding(env, p.world, p.claimed, p.branch, p.from) }

  function EndOf(env: Env, turn: AttemptTurn): End {
    match turn
    case Passed(p) => EndingAt(env, p)
    case Stops(end) => end
    case HandsOn(w, _, _) => End(Parks("unexpected-loop-exit"), w)
  }

  function TaskEnd(env: Env, key: Key, w: World): End { EndOf(env, Course(env, key, w)) }

  /** One queued task: the gates before the claim, the circuit breaker after it, then the task itself. */
  function QueuedEnd(env: Env, key: Key, w: World): End {
    var refusal := RefusedBefore(env.answers, w.at);
    if refusal.Some? then End(Parks(refusal.value), w.(at := w.at + AskedBefore(env.answers, w.at)))
    else ClaimedEnd(env, key, w.(at := w.at + 4))
  }

  function ClaimedEnd(env: Env, key: Key, w: World): End {
    if env.answers(w.at).fails then End(Parks("circuit-break-repeat-failure"), w.(at := w.at + 1))
    else TaskEnd(env, key, w.(at := w.at + 1))
  }

  lemma NextOneFix(env: Env, w: World, branch: Ref, from: Commit, budget: int)
    requires budget > 0
    ensures LaterFixes(env, w, branch, from, budget) ==
            match OneFix(env, w, branch, from)
            case FixPassed(p) => LanePassed(p)
            case FixEmpty(next) => LaneEnds(next, budget - 1, true)
            case FixUnread(next) => LaneEnds(next, budget - 1, false)
            case FixFails(next, _) => LaterFixes(env, next, branch, from, budget - 1)
  {
    hide OneFix;
  }

  lemma FirstFix(env: Env, w: World, branch: Ref, from: Commit, findings: nat, budget: int)
    ensures FixLane(env, w, branch, from, findings, budget) ==
            if findings > env.config.fixForwardMax || budget <= 0 then LaneEnds(w, budget, false)
            else
              match OneFix(env, w, branch, from)
              case FixPassed(p) => LanePassed(p)
              case FixEmpty(next) => LaneEnds(next, budget - 1, true)
              case FixUnread(next) => LaneStops(End(Parks("verify-malformed"), next))
              case FixFails(next, more) =>
                if budget > 1 && more <= env.config.fixForwardMax then LaterFixes(env, next, branch, from, budget - 1)
                else LaneEnds(next, budget - 1, false)
  {
    hide OneFix, LaterFixes;
  }

  lemma NoMoreFixes(env: Env, w: World, branch: Ref, from: Commit, budget: int)
    ensures budget <= 0 ==> LaterFixes(env, w, branch, from, budget) == LaneEnds(w, budget, false)
  {
  }

  // ------------------------------------------------------------------ when the task is committed

  /** None of the three gates fails, the check of origin can be made, and origin holds the claimed commit. */
  predicate GatesPass(env: Env, p: Pass) {
    && (forall i :: p.world.at <= i < p.world.at + 3 ==> !env.answers(i).fails)
    && !CheckFails(p.world.repo, env.git, p.world.asked, env.base, p.branch, p.from)
    && OriginHolds(p.world.repo, env.git, p.world.asked, env.base, p.branch, p.from, p.claimed)
  }

  /** The base branch checks out, its tip and the branch's are on one line, HEAD can be read, origin takes the push and
      afterwards lists it. */
  predicate Lands(env: Env, w: World, branch: Ref) {
    && BaseChecksOut(w.repo, env.git(w.asked), env.base) && OneLine(w.repo, env.base, branch)
    && !env.git(w.asked + 1).fails
    && var (tip, merged) := (LaterTip(w.repo, env.base, branch), AfterMerge(w.repo, env.base, branch));
       && PushTaken(merged, env.git, w.asked + 2, env.base, tip) && !env.git(w.asked + 3).fails
       && SeenAfterPush(merged, env.git, w.asked + 2, env.base, tip)
  }

  /** The claim was in the history of the commit the branch started from. */
  predicate WasContained(env: Env, p: Pass) {
    AfterCheck(p.world.repo, env.git, p.world.asked, env.base, p.branch).IsAncestor(p.claimed, p.from)
  }

  /** A deciding PASS leads to a commit exactly if the gates pass and the claim was contained already or lands. What
      is recorded is the claim, or the later of the two merged tips, whose history is both histories. */
  lemma PassCommitsExactly(env: Env, p: Pass)
    ensures EndingAt(env, p).ending.Commits? <==>
              && GatesPass(env, p)
              && (WasContained(env, p) || Lands(env, AfterGates(env, p.world, p.branch, p.from), p.branch))
    ensures EndingAt(env, p).ending.Commits? && WasContained(env, p) ==>
              EndingAt(env, p).ending == Commits(p.claimed)
    ensures EndingAt(env, p).ending.Commits? && !WasContained(env, p) ==>
              var r := AfterGates(env, p.world, p.branch, p.from).repo;
              && OneLine(r, env.base, p.branch)
              && History(EndingAt(env, p).ending.sha) == History(r.local[env.base]) + History(r.local[p.branch])
  {
    hide BaseChecksOut, CheckFails, OriginHolds, PushTaken, SeenAfterPush, AfterCheck, History, LaterTip, AfterMerge,
      OneLine;
    var w := AfterGates(env, p.world, p.branch, p.from);
    if !WasContained(env, p) && Lands(env, w, p.branch) { LaterTipHolds(w.repo, env.base, p.branch); }
    assert env.answers(p.world.at + 0).fails <==> env.answers(p.world.at).fails;
    assert (forall i :: p.world.at <= i < p.world.at + 3 ==> !env.answers(i).fails) <==>
           !env.answers(p.world.at).fails && !env.answers(p.world.at + 1).fails && !env.answers(p.world.at + 2).fails;
  }

  lemma LaterTipHolds(repo: Repo, base: Ref, branch: Ref)
    requires OneLine(repo, base, branch)
    ensures History(LaterTip(repo, base, branch)) == History(repo.local[base]) + History(repo.local[branch])
  {
    if repo.local[branch] in History(repo.local[base]) { HistoryTransitive(repo.local[branch], repo.local[base]); }
    else { HistoryTransitive(repo.local[base], repo.local[branch]); }
  }

  /** The course of the task is decided by a PASS verdict whose gates pass and whose claim was contained already or
      lands. */
  predicate WinsThrough(env: Env, key: Key, w: World) {
    var c := Course(env, key, w);
    && c.Passed? && GatesPass(env, c.pass)
    && (WasContained(env, c.pass)
        || Lands(env, AfterGates(env, c.pass.world, c.pass.branch, c.pass.from), c.pass.branch))
  }

  /** The theorem: a task is committed exactly for those inputs. */
  lemma CommitsExactly(env: Env, key: Key, w: World)
    ensures TaskEnd(env, key, w).ending.Commits? <==> WinsThrough(env, key, w)
  {
    hide AttemptCourse, PassEnding, GatesPass, WasContained, Lands, AfterGates;
    var c := Course(env, key, w);
    if c.Passed? { PassCommitsExactly(env, c.pass); }
    NothingElseCommits(env, key, w);
  }

  lemma AttemptStops(env: Env, key: Key, w: World, attempt: nat, secs: nat, budget: int)
    ensures var c := AttemptCourse(env, key, w, attempt, secs, budget);
            && (c.Stops? ==> !c.end.ending.Commits?)
            && (c.HandsOn? ==> attempt == 0 || attempt > 1)
  {
    hide AttemptOpens, LiveReads, AfterOpening, AfterPreserve, AfterBuild, Verified, FixLane, Elapsed, LiveBase;
  }

  lemma NothingElseCommits(env: Env, key: Key, w: World)
    ensures Course(env, key, w).Stops? ==> !Course(env, key, w).end.ending.Commits?
    ensures !Course(env, key, w).HandsOn?
  {
    hide AttemptCourse;
    AttemptStops(env, key, w, 0, 0, env.config.fixBudget);
    match AttemptCourse(env, key, w, 0, 0, env.config.fixBudget)
    case HandsOn(next, secs, budget) => AttemptStops(env, key, next, 1, secs, budget);
    case _ =>
  }

  // ------------------------------------------------------------------ what a deciding PASS is about

  /** A builder session reported the commit, and the last answer used before the gates is the verdict PASS. */
  ghost predicate WasVerified(env: Env, at: nat, p: Pass) {
    && p.world.at >= 1 && env.answers(p.world.at - 1).verdict == PassVerdict
    && exists i :: at <= i < p.world.at && env.answers(i).commit == Some(p.claimed)
  }

  lemma {:induction false} ReadingEnds(answers: Answers, at: nat, tries: nat)
    ensures var (a, n) := Reading(answers, at, tries);
            n <= tries && (a.Some? ==> n >= 1 && a.value == answers(at + n - 1))
    decreases tries
  {
    if tries > 0 && answers(at).verdict == Malformed { ReadingEnds(answers, at + 1, tries - 1); }
  }

  lemma OneFixVerified(env: Env, w: World, branch: Ref, from: Commit)
    ensures var turn := OneFix(env, w, branch, from);
            && (turn.FixPassed? ==> WasVerified(env, w.at, turn.pass))
            && (turn.FixEmpty? || turn.FixUnread? || turn.FixFails? ==> turn.world.at >= w.at)
  {
    hide AfterSync, Reading;
    var built := AfterBuild(env, w, branch);
    ReadingEnds(env.answers, built.at, 3);
    var (v, n) := Verified(env.answers, built.at);
    if env.answers(w.at).commit.Some? {
      assert OneFix(env, w, branch, from) == ReadFix(env, built, env.answers(w.at).commit.value, branch, from);
    }
  }

  lemma {:induction false} LaterFixesVerified(env: Env, w: World, branch: Ref, from: Commit, budget: int)
    ensures var turn := LaterFixes(env, w, branch, from, budget);
            turn.LanePassed? ==> WasVerified(env, w.at, turn.pass)
    decreases if budget > 0 then budget else 0
  {
    hide OneFix;
    if budget > 0 {
      OneFixVerified(env, w, branch, from);
      match OneFix(env, w, branch, from)
      case FixFails(next, _) => LaterFixesVerified(env, next, branch, from, budget - 1);
      case _ =>
    }
  }

  lemma FixLaneVerified(env: Env, w: World, branch: Ref, from: Commit, findings: nat, budget: int)
    ensures var turn := FixLane(env, w, branch, from, findings, budget);
            turn.LanePassed? ==> WasVerified(env, w.at, turn.pass)
  {
    hide OneFix, LaterFixes;
    OneFixVerified(env, w, branch, from);
    match OneFix(env, w, branch, from)
    case FixFails(next, _) => LaterFixesVerified(env, next, branch, from, budget - 1);
    case _ =>
  }

  lemma {:induction false} AttemptVerified(env: Env, key: Key, w: World, attempt: nat, secs: nat, budget: int)
    ensures var turn := AttemptCourse(env, key, w, attempt, secs, budget);
            && (turn.Passed? ==> WasVerified(env, w.at, turn.pass))
            && (turn.HandsOn? ==> turn.world.at >= w.at)
  {
    hide AttemptOpens, LiveReads, AfterOpening, AfterPreserve, AfterSync, LiveBase, Reading, FixLane, Elapsed, OneFix;
    var b := BuildCourse(env, key, w, attempt, secs);
    if b.BuildOk? {
      var (v, n) := Verified(env.answers, b.world.at);
      ReadingEnds(env.answers, b.world.at, 3);
      var next := b.world.(at := b.world.at + n);
      if v.Some? && v.value.verdict != PassVerdict {
        FixLaneVerified(env, next, AttemptBranch(key, attempt), b.from, v.value.findings, budget);
        LaneGrows(env, next, AttemptBranch(key, attempt), b.from, v.value.findings, budget);
      }
    }
  }

  lemma {:induction false} LaterGrow(env: Env, w: World, branch: Ref, from: Commit, budget: int)
    ensures var turn := LaterFixes(env, w, branch, from, budget);
            turn.LaneEnds? ==> turn.world.at >= w.at
    decreases if budget > 0 then budget else 0
  {
    hide OneFix;
    if budget > 0 {
      OneFixVerified(env, w, branch, from);
      match OneFix(env, w, branch, from)
      case FixFails(next, _) => LaterGrow(env, next, branch, from, budget - 1);
      case _ =>
    }
  }

  lemma LaneGrows(env: Env, w: World, branch: Ref, from: Commit, findings: nat, budget: int)
    ensures var turn := FixLane(env, w, branch, from, findings, budget);
            turn.LaneEnds? ==> turn.world.at >= w.at
  {
    hide OneFix, LaterFixes;
    OneFixVerified(env, w, branch, from);
    match OneFix(env, w, branch, from)
    case FixFails(next, _) => LaterGrow(env, next, branch, from, budget - 1);
    case _ =>
  }

  /** What decides a task was built and verified during it. */
  lemma DecidedByVerdict(env: Env, key: Key, w: World)
    ensures Course(env, key, w).Passed? ==> WasVerified(env, w.at, Course(env, key, w).pass)
  {
    hide AttemptCourse;
    AttemptVerified(env, key, w, 0, 0, env.config.fixBudget);
    match AttemptCourse(env, key, w, 0, 0, env.config.fixBudget)
    case HandsOn(next, secs, budget) => AttemptVerified(env, key, next, 1, secs, budget);
    case _ =>
  }

  // ------------------------------------------------------------------ the refused move

  lemma {:induction false} LaterEmpty(env: Env, w: World, branch: Ref, from: Commit, budget: int)
    ensures var turn := LaterFixes(env, w, branch, from, budget);
            turn.LaneEnds? && turn.empty <==> LaterFixEmpty(env.answers, w.at, budget)
    decreases if budget > 0 then budget else 0
  {
    hide AfterSync, Verified, LaterFixEmpty;
    if budget > 0 {
      NextFix(env.answers, w.at, budget);
      NextOneFix(env, w, branch, from, budget);
      VerdictReadable(env.answers, w.at + 1);
      match OneFix(env, w, branch, from)
      case FixFails(next, _) => LaterEmpty(env, next, branch, from, budget - 1);
      case _ =>
    } else {
      SpentLane(env.answers, w.at, budget);
    }
  }

  lemma VerdictReadable(answers: Answers, at: nat)
    ensures Verified(answers, at).0.Some? ==> Verified(answers, at).0.value.verdict != Malformed
  {
    ReadingEndsReadable(answers, at, 3);
  }

  lemma {:induction false} ReadingEndsReadable(answers: Answers, at: nat, tries: nat)
    ensures Reading(answers, at, tries).0.Some? ==> Reading(answers, at, tries).0.value.verdict != Malformed
    decreases tries
  {
    if tries > 0 && answers(at).verdict == Malformed { ReadingEndsReadable(answers, at + 1, tries - 1); }
  }

  lemma LaneEmpty(env: Env, w: World, branch: Ref, from: Commit, findings: nat, budget: int)
    ensures var turn := FixLane(env, w, branch, from, findings, budget);
            turn.LaneEnds? && turn.empty <==> FixLaneEmpty(env.config, env.answers, w.at, findings, budget)
  {
    hide AfterSync, Verified, LaterFixEmpty, LaterFixes;
    VerdictReadable(env.answers, w.at + 1);
    SpentLane(env.answers, w.at + 1 + Verified(env.answers, w.at + 1).1, budget - 1);
    match OneFix(env, w, branch, from)
    case FixFails(next, _) => LaterEmpty(env, next, branch, from, budget - 1);
    case _ =>
  }

  lemma {:induction false} AttemptRaises(env: Env, key: Key, w: World, attempt: nat, secs: nat, budget: int)
    requires attempt <= 1
    ensures var turn := AttemptCourse(env, key, w, attempt, secs, budget);
            turn.Stops? && turn.end.ending == Raises(InvalidTransition) <==>
            && attempt == 0
            && AttemptOpens(w.repo, env.git, w.asked, env.base, AttemptBranch(key, 0))
            && LeftBuilding(env.config, env.answers, w.at, secs, budget)
  {
    hide AttemptOpens, LiveReads, AfterOpening, AfterPreserve, AfterSync, LiveBase, Verified, FixLane, Elapsed,
      FixLaneEmpty;
    OpensReads(w.repo, env.git, w.asked, env.base, AttemptBranch(key, 0));
    var b := BuildCourse(env, key, w, attempt, secs);
    if b.BuildOk? {
      var (v, n) := Verified(env.answers, b.world.at);
      VerdictReadable(env.answers, b.world.at);
      var next := b.world.(at := b.world.at + n);
      if v.Some? && v.value.verdict != PassVerdict {
        LaneEmpty(env, next, AttemptBranch(key, attempt), b.from, v.value.findings, budget);
      }
    }
  }

  lemma OpensReads(repo: Repo, answers: nat -> GitAnswer, at: nat, base: Ref, branch: Ref)
    ensures AttemptOpens(repo, answers, at, base, branch) ==> LiveReads(repo, answers, at, base)
  {
  }

  lemma PassNeverRefused(env: Env, p: Pass)
    ensures EndingAt(env, p).ending != Raises(InvalidTransition)
  {
    hide BaseChecksOut, CheckFails, OriginHolds, PushTaken, SeenAfterPush, AfterCheck, LaterTip, AfterMerge, OneLine;
  }

  /** The task ends in the refused move back to building exactly for the inputs of `LeftBuilding`. */
  lemma RaisesExactly(env: Env, key: Key, w: World)
    ensures TaskEnd(env, key, w).ending == Raises(InvalidTransition) <==>
            && AttemptOpens(w.repo, env.git, w.asked, env.base, AttemptBranch(key, 0))
            && LeftBuilding(env.config, env.answers, w.at, 0, env.config.fixBudget)
  {
    hide AttemptCourse, LeftBuilding, AttemptOpens, PassEnding;
    AttemptRaises(env, key, w, 0, 0, env.config.fixBudget);
    var c := Course(env, key, w);
    if c.Passed? { PassNeverRefused(env, c.pass); }
    match AttemptCourse(env, key, w, 0, 0, env.config.fixBudget)
    case HandsOn(next, secs, budget) => AttemptRaises(env, key, next, 1, secs, budget);
    case _ =>
  }
}
