/** What a task's course depends on: the answers of builder, verifier and gates, and what can be read off them. */
module TaskInputs {
  import opened Models
  import opened GitOps
  import opened Trace

  datatype BuildError = BuilderWedged | BuildApiError | BuildPushFailed | BuildUnpushed | OtherError

  /** One answer of the outside world: a builder, verifier, gate or clock reads the parts it needs. */
  datatype Answer = Answer(
    commit: Option<Commit>, error: BuildError, verdict: Verdict, findings: nat, fails: bool, skipped: bool, secs: nat)

  type Answers = nat -> Answer

  datatype Config = Config(fixForwardMax: int, fixBudget: int, ceiling: int)

  const MAX_VERIFY_RETRIES := 2

  /** The first readable answer among `tries` verifier calls, and how many calls that took. */
  function Reading(answers: Answers, at: nat, tries: nat): (Option<Answer>, nat)
    decreases tries
  {
    if tries == 0 then (None, 0)
    else if answers(at).verdict != Malformed then (Some(answers(at)), 1)
    else var (a, n) := Reading(answers, at + 1, tries - 1); (a, n + 1)
  }

  /** A reading that starts `n` calls in. */
  function Skip(r: (Option<Answer>, nat), n: nat): (Option<Answer>, nat) { (r.0, r.1 + n) }

  lemma ReadingNext(answers: Answers, at: nat, tries: nat)
    ensures Reading(answers, at, tries) ==
            if tries == 0 then (None, 0)
            else if answers(at).verdict != Malformed then (Some(answers(at)), 1)
            else Skip(Reading(answers, at + 1, tries - 1), 1)
  {
  }

  /** What the verifier says about one commit. */
  function Verified(answers: Answers, at: nat): (Option<Answer>, nat) { Reading(answers, at, 3) }

  function Elapsed(answers: Answers, at: nat, n: nat): nat
    decreases n
  {
    if n == 0 then 0 else answers(at).secs + Elapsed(answers, at + 1, n - 1)
  }

  lemma NoTime(answers: Answers, at: nat)
    ensures Elapsed(answers, at, 0) == 0
  {
  }

  lemma {:induction false} ElapsedSnoc(answers: Answers, at: nat, n: nat)
    ensures Elapsed(answers, at, n + 1) == Elapsed(answers, at, n) + answers(at + n).secs
    decreases n
  {
    if n > 0 { ElapsedSnoc(answers, at + 1, n - 1); }
  }

  /** The verifier read a commit and failed it. */
  predicate FailedVerdict(a: Option<Answer>) { a.Some? && a.value.verdict == FailVerdict }

  /** Of the fix passes after the first, each with the answers of one build and one verification, an empty one comes
      before a readable PASS, an unreadable verdict, and the end of the budget. */
  predicate LaterFixEmpty(answers: Answers, at: nat, budget: int)
    decreases if budget > 0 then budget else 0
  {
    && budget > 0
    && (answers(at).commit.None?
        || (var (a, n) := Verified(answers, at + 1);
            FailedVerdict(a) && LaterFixEmpty(answers, at + 1 + n, budget - 1)))
  }

  /** Without budget there is no further pass. */
  lemma SpentLane(answers: Answers, at: nat, budget: int)
    ensures budget <= 0 ==> !LaterFixEmpty(answers, at, budget)
  {
  }

  lemma NextFix(answers: Answers, at: nat, budget: int)
    requires budget > 0
    ensures var (a, n) := Verified(answers, at + 1);
            LaterFixEmpty(answers, at, budget) <==>
            answers(at).commit.None? || (FailedVerdict(a) && LaterFixEmpty(answers, at + 1 + n, budget - 1))
  {
    hide Verified;
  }

  /** The fix-forward lane that follows a verdict with `findings` ends in a fix pass without a commit. */
  predicate FixLaneEmpty(config: Config, answers: Answers, at: nat, findings: nat, budget: int) {
    && findings <= config.fixForwardMax && budget > 0
    && (answers(at).commit.None?
        || (var (a, n) := Verified(answers, at + 1);
            FailedVerdict(a) && a.value.findings <= config.fixForwardMax
            && LaterFixEmpty(answers, at + 1 + n, budget - 1)))
  }

  /** The scaffolding guard finds nothing, and the lint is skipped or passes. */
  predicate GuardsPass(answers: Answers, at: nat) {
    !answers(at).fails && (answers(at + 1).skipped || !answers(at + 1).fails)
  }

  predicate VetsClean(answers: Answers, at: nat) { answers(at).commit.Some? && GuardsPass(answers, at + 1) }

  /** The answers with which an attempt-0 build is vetted, verified and failed in time, and then fixed with a pass
      that yields no commit. */
  predicate LeftBuilding(config: Config, answers: Answers, at: nat, secs: nat, budget: int) {
    && secs < config.ceiling && VetsClean(answers, at)
    && var (a, n) := Verified(answers, at + 3);
       && FailedVerdict(a)
       && secs + answers(at).secs + Elapsed(answers, at + 3, n) < config.ceiling
       && FixLaneEmpty(config, answers, at + 3 + n, a.value.findings, budget)
  }

  /** The same, case by case. */
  lemma Outlook(config: Config, answers: Answers, at: nat, secs: nat, budget: int)
    ensures !(secs < config.ceiling && VetsClean(answers, at)) ==> !LeftBuilding(config, answers, at, secs, budget)
    ensures var (a, n) := Verified(answers, at + 3);
            if a.None? || a.value.verdict != FailVerdict then !LeftBuilding(config, answers, at, secs, budget)
            else secs < config.ceiling && VetsClean(answers, at) ==>
              (LeftBuilding(config, answers, at, secs, budget) <==>
                secs + answers(at).secs + Elapsed(answers, at + 3, n) < config.ceiling
                && FixLaneEmpty(config, answers, at + 3 + n, a.value.findings, budget))
  {
  }

  /** Such inputs exist: a build that passes its guards, one failed verdict with one finding, and a fix session that
      comes back without a commit, on a clone whose origin holds the base branch. */
  lemma SomeTaskIsLeftBuilding(branch: Ref)
    returns (config: Config, answers: Answers, repo: Repo, git: nat -> GitAnswer)
    requires branch != Named("main")
    ensures LeftBuilding(config, answers, 0, 0, config.fixBudget)
    ensures repo.Valid() && AttemptOpens(repo, git, 0, Named("main"), branch)
  {
    var base := Commit(0, []);
    var landed := Answer(Some(Commit(1, [base])), OtherError, FailVerdict, 1, false, false, 10);
    config := Config(3, 2, 3600);
    answers := i => if i == 4 then landed.(commit := None) else landed;
    assert Reading(answers, 3, 3) == (Some(landed), 1);
    assert Elapsed(answers, 3, 1) == 10 + Elapsed(answers, 4, 0);
    repo := Repo(map[Named("main") := base], map[Named("main") := base], Named("main"), {base});
    var quiet := GitAnswer(false, false, map[Named("main") := base], true, None);
    git := i => quiet;
    assert History(base) == {base};
  }
}
