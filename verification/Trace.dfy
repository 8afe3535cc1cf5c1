/** What a run records about itself, and what a committed task's record must look like. */
module Trace {
  import opened Models
  import opened GitOps
  import opened Ledger
  import opened QueueSpec

  datatype Verdict = PassVerdict | FailVerdict | Malformed

  datatype Gate = Conformance | Substance | LiveDb

  /** What happens to a task. Builds, status moves and parks name it; an advance holds the fields it wrote. */
  datatype Event =
    | BuildCalled(key: Key, attempt: nat, fix: bool, produced: Option<Commit>)
    | VerifyCalled(commit: Commit, verdict: Verdict)
    | GateChecked(gate: Gate, commit: Commit, failed: bool)
    | OriginChecked(commit: Commit, outcome: OriginCheck)
    | Advanced(key: Key, status: TaskStatus, fields: Fields)
    | FastForwarded(branchTip: Commit, baseTip: Commit)
    | SeenOnOrigin(commit: Commit)
    | ParkedTask(key: Key, reason: string)

  datatype Disposition = CommittedAt(sha: Commit) | ParkedFor(reason: string, halts: seq<HaltRecord>)

  // ------------------------------------------------------------------ counting transport calls

  function Builds(t: seq<Event>): nat {
    if t == [] then 0 else Builds(t[..|t| - 1]) + if t[|t| - 1].BuildCalled? then 1 else 0
  }

  function Landed(t: seq<Event>): nat {
    if t == [] then 0
    else Landed(t[..|t| - 1]) + if t[|t| - 1].BuildCalled? && t[|t| - 1].produced.Some? then 1 else 0
  }

  function Verifies(t: seq<Event>): nat {
    if t == [] then 0 else Verifies(t[..|t| - 1]) + if t[|t| - 1].VerifyCalled? then 1 else 0
  }

  lemma CountSnoc(t: seq<Event>, e: Event)
    ensures Builds(t + [e]) == Builds(t) + if e.BuildCalled? then 1 else 0
    ensures Landed(t + [e]) == Landed(t) + if e.BuildCalled? && e.produced.Some? then 1 else 0
    ensures Verifies(t + [e]) == Verifies(t) + if e.VerifyCalled? then 1 else 0
  {
    assert (t + [e])[..|t|] == t;
  }

  // ------------------------------------------------------------------ commit evidence

  /** The facts behind one commit of the task `key`: the build that claimed it and its branch, how often the
      verifier was unreadable first, what origin said, and the two tips that were merged. */
  datatype Ticket = Ticket(key: Key, attempt: nat, fix: bool, claimed: Commit, branch: Ref, malformed: nat,
                           origin: OriginCheck, branchTip: Commit, baseTip: Commit)

  function Unreadable(c: Commit, n: nat): seq<Event> { seq(n, i => VerifyCalled(c, Malformed)) }

  /** From the build that produced the commit to the verdict PASS on that same commit. */
  function VerifiedEvents(k: Ticket): seq<Event> {
    [BuildCalled(k.key, k.attempt, k.fix, Some(k.claimed)),
     Advanced(k.key, Verifying, map[CommitSha := Sha(k.claimed)])]
    + Unreadable(k.claimed, k.malformed) + [VerifyCalled(k.claimed, PassVerdict)]
  }

  /** Every gate on that commit, in order, none of them failing. */
  function GateEvents(k: Ticket): seq<Event> {
    [GateChecked(Conformance, k.claimed, false), GateChecked(Substance, k.claimed, false),
     GateChecked(LiveDb, k.claimed, false), OriginChecked(k.claimed, k.origin)]
  }

  const PASSED: Fields := map[VerifyResult := PASS]

  /** PASS is written together with the move to merging. */
  function MergingEvent(key: Key, claimed: Commit, branch: Ref): Event {
    Advanced(key, Merging, PASSED + map[CommitSha := Sha(claimed), BranchName := Branch(branch)])
  }

  /** PASS written with the move to merging, then merge and push unless already contained, then committed. */
  function MergeEvents(k: Ticket, recorded: Commit): seq<Event> {
    [MergingEvent(k.key, k.claimed, k.branch)]
    + (if k.origin.AlreadyContains? then [] else [FastForwarded(k.branchTip, k.baseTip), SeenOnOrigin(recorded)])
    + [Advanced(k.key, Committed, map[CommitSha := Sha(recorded)])]
  }

  /** `t` ends with `s`, and all of `s` lies at or after position `from`. */
  ghost predicate EndsWith(t: seq<Event>, from: nat, s: seq<Event>) {
    from + |s| <= |t| && t[|t| - |s|..] == s
  }

  /** From position `from` on the trace ends with a complete, failure-free chain for one claimed commit of one
      task, and the recorded commit is that commit itself, or exactly the merge of the two tips. */
  ghost predicate CommitEvidence(t: seq<Event>, from: nat, k: Ticket, recorded: Commit) {
    && EndsWith(t, from, VerifiedEvents(k) + GateEvents(k) + MergeEvents(k, recorded))
    && k.malformed <= 2
    && !k.origin.PhantomCompletion?
    && (k.origin.AlreadyContains? ==> recorded == k.claimed)
    && (k.origin.Confirmed? ==> History(recorded) == History(k.baseTip) + History(k.branchTip))
  }

  lemma EvidenceEarlier(t: seq<Event>, from: nat, earlier: nat, k: Ticket, recorded: Commit)
    requires CommitEvidence(t, from, k, recorded) && earlier <= from
    ensures CommitEvidence(t, earlier, k, recorded)
  {
  }

  lemma {:induction false} LandedGrows(t: seq<Event>, n: nat)
    requires n <= |t|
    ensures Landed(t[..n]) <= Landed(t)
    decreases |t| - n
  {
    if n == |t| {
      assert t[..n] == t;
    } else {
      assert t[..n + 1] == t[..n] + [t[n]];
      CountSnoc(t[..n], t[n]);
      LandedGrows(t, n + 1);
    }
  }

  /** Behind every commit there is a build that landed, recorded since `from`. */
  lemma EvidenceLanded(t: seq<Event>, from: nat, k: Ticket, recorded: Commit)
    requires CommitEvidence(t, from, k, recorded)
    ensures Landed(t) > Landed(t[..from])
  {
    var chain := VerifiedEvents(k) + GateEvents(k) + MergeEvents(k, recorded);
    var at := |t| - |chain|;
    assert t[at..][0] == t[at] == BuildCalled(k.key, k.attempt, k.fix, Some(k.claimed));
    assert t[..at + 1] == t[..at] + [t[at]];
    CountSnoc(t[..at], t[at]);
    LandedGrows(t[..at], from);
    assert t[..at][..from] == t[..from];
    LandedGrows(t, at + 1);
  }

  /** The last thing recorded is a fix pass of this attempt that produced no commit. */
  ghost predicate EndsInEmptyFix(t: seq<Event>, key: Key, attempt: nat) {
    |t| > 0 && t[|t| - 1] == BuildCalled(key, attempt, true, None)
  }

  lemma VerifiedEnds(t: seq<Event>, k: Ticket)
    requires |t| > 0 && t[|t| - 1] == BuildCalled(k.key, k.attempt, k.fix, Some(k.claimed))
    ensures EndsWith(t + [Advanced(k.key, Verifying, map[CommitSha := Sha(k.claimed)])]
                     + Unreadable(k.claimed, k.malformed) + [VerifyCalled(k.claimed, PassVerdict)],
                     |t| - 1, VerifiedEvents(k))
  {
    var e := t[|t| - 1];
    assert t == t[..|t| - 1] + [e];
    var full := t + [Advanced(k.key, Verifying, map[CommitSha := Sha(k.claimed)])]
                + Unreadable(k.claimed, k.malformed) + [VerifyCalled(k.claimed, PassVerdict)];
    assert full == t[..|t| - 1] + VerifiedEvents(k);
  }

  lemma EvidenceComplete(t: seq<Event>, from: nat, v: Ticket, k: Ticket, recorded: Commit)
    requires EndsWith(t, from, VerifiedEvents(v)) && v.malformed <= 2
    requires k == v.(origin := k.origin, branchTip := k.branchTip, baseTip := k.baseTip)
    requires !k.origin.PhantomCompletion? && (k.origin.AlreadyContains? ==> recorded == k.claimed)
    requires k.origin.Confirmed? ==> History(recorded) == History(k.baseTip) + History(k.branchTip)
    ensures CommitEvidence(t + GateEvents(k) + MergeEvents(k, recorded), from, k, recorded)
    ensures recorded in History(recorded)
  {
    assert VerifiedEvents(k) == VerifiedEvents(v);
    EndsWithAppend(t, from, VerifiedEvents(k), GateEvents(k));
    EndsWithAppend(t + GateEvents(k), from, VerifiedEvents(k) + GateEvents(k), MergeEvents(k, recorded));
  }

  lemma EndsWithAppend(t: seq<Event>, from: nat, a: seq<Event>, b: seq<Event>)
    requires EndsWith(t, from, a)
    ensures EndsWith(t + b, from, a + b)
  {
    assert (t + b)[|t + b| - |a + b|..] == t[|t| - |a|..] + b;
  }

  /** The claimed commit was on origin already, or one of the merged local tips holds it. */
  predicate TipsHoldClaim(k: Ticket) {
    k.origin.AlreadyContains? || k.claimed in History(k.baseTip) || k.claimed in History(k.branchTip)
  }

  /** The claimed commit itself reaches the base branch exactly when the local tips contained it. */
  lemma ClaimReachesBase(t: seq<Event>, from: nat, k: Ticket, recorded: Commit)
    requires CommitEvidence(t, from, k, recorded)
    ensures k.claimed in History(recorded) <==> TipsHoldClaim(k)
  {
  }

  /** With a stale local branch every check passes and the claimed commit is still left behind: origin's build
      branch holds `claimed`, the local branch is still at the base, so the merge is a no-op. */
  lemma StaleBranchLeavesClaimBehind(branch: Ref) returns (repo: Repo, base: Commit, claimed: Commit)
    requires branch != Named("main")
    ensures repo.Valid() && branch in repo.origin && branch in repo.local && repo.head == Named("main")
    ensures repo.origin[branch] != base && repo.IsAncestor(claimed, repo.origin[branch])
    ensures !repo.IsAncestor(claimed, base)
    ensures repo.FfMerge(branch).1 && repo.FfMerge(branch).0.PushHead(Named("main")).1
    ensures claimed !in repo.FfMerge(branch).0.PushHead(Named("main")).0.Contains(Named("main"))
  {
    base := Commit(0, []);
    claimed := Commit(1, [base]);
    repo := Repo(map[Named("main") := base, branch := claimed], map[Named("main") := base, branch := base],
                 Named("main"), {base, claimed});
    assert History(base) == {base};
    assert claimed.parents[0] == base;
    assert forall a :: a in History(claimed) <==> a == claimed || a in History(base);
    assert History(claimed) == {claimed, base};
  }

  // ------------------------------------------------------------------ what one task does to the queue

  ghost predicate SameShape(a: Task, b: Task) {
    a.buildOrder == b.buildOrder && a.dependsOn == b.dependsOn && a.independent == b.independent
  }

  /** Only the row of `key` differs, and only in its status and data. */
  ghost predicate Touched(T0: map<Key, Task>, T1: map<Key, Task>, key: Key) {
    && key in T0 && key in T1 && SameShape(T0[key], T1[key])
    && T1 == T0[key := T1[key]]
  }

  /** The row's `commit_sha`. */
  predicate RecordsSha(t: Task, sha: Commit) { CommitSha in t.data && t.data[CommitSha] == Sha(sha) }

  /** The row's `park_reason`. */
  predicate RecordsReason(t: Task, reason: string) { ParkReason in t.data && t.data[ParkReason] == Text(reason) }

  /** The task is committed at that commit and nothing else moved, or it is parked and exactly its dependents are
      halted. */
  ghost predicate Disposed(T0: map<Key, Task>, T1: map<Key, Task>, key: Key, d: Disposition) {
    match d
    case CommittedAt(sha) => Touched(T0, T1, key) && T1[key].status == Committed && RecordsSha(T1[key], sha)
    case ParkedFor(reason, halts) =>
      && key in T0 && key in T1 && SameShape(T0[key], T1[key])
      && T1[key].status == Parked && RecordsReason(T1[key], reason)
      && var T := T0[key := T1[key]];
         && T1 == MarkHalted(T, HaltSet(T, key.run, key.slug))
         && Records(T, key.run, key.slug, halts, HaltSet(T, key.run, key.slug))
  }

  lemma CommitDisposes(T0: map<Key, Task>, T1: map<Key, Task>, key: Key, sha: Commit)
    requires Touched(T0, T1, key) && T1[key].status == Committed && RecordsSha(T1[key], sha)
    ensures Disposed(T0, T1, key, CommittedAt(sha))
  {
  }

  lemma {:induction false} TouchedThenDisposed(T0: map<Key, Task>, T1: map<Key, Task>, T2: map<Key, Task>, key: Key,
                                               d: Disposition)
    requires Touched(T0, T1, key) && Disposed(T1, T2, key, d)
    ensures Disposed(T0, T2, key, d)
  {
    assert T1[key := T2[key]] == T0[key := T2[key]];
  }

  lemma TouchedSelf(T: map<Key, Task>, key: Key)
    requires key in T
    ensures Touched(T, T, key)
  {
    assert T[key := T[key]] == T;
  }

  lemma TouchedTwice(T0: map<Key, Task>, T1: map<Key, Task>, T2: map<Key, Task>, key: Key)
    requires Touched(T0, T1, key) && Touched(T1, T2, key)
    ensures Touched(T0, T2, key)
  {
    assert T1[key := T2[key]] == T0[key := T2[key]];
  }

  /** No other committed row changes when a task is touched or disposed of. */
  lemma CommittedStays(T0: map<Key, Task>, T1: map<Key, Task>, key: Key, k: Key)
    requires k in T0 && k != key && T0[k].status == Committed
    requires Touched(T0, T1, key) || exists d :: Disposed(T0, T1, key, d)
    ensures k in T1 && T1[k] == T0[k]
  {
    if !Touched(T0, T1, key) {
      var d :| Disposed(T0, T1, key, d);
      var T := T0[key := T1[key]];
      if k in HaltSet(T, key.run, key.slug) { HaltSetMembers(T, key.run, key.slug, k); }
    }
  }

  /** A legal, PASS-backed advance succeeds, touches one row and keeps the invariants; an illegal one changes
      nothing. */
  lemma AdvanceEffect(s: LedgerState, key: Key, status: TaskStatus, f: Fields)
    requires Invariant(s) && key in s.tasks && OwnVerdict(f)
    requires status == Committed ==> HasPass(s, key)
    ensures var (r, o) := Advance(s, key, status, f);
            && Invariant(r) && Touched(s.tasks, r.tasks, key)
            && (if CanMove(s.tasks[key].status, status)
                then o.Ok? && r.tasks[key].status == status && r.tasks[key].data == s.tasks[key].data + f
                else o == Raise(InvalidTransition) && r == s)
            && (o.Ok? && (Carries(f, PASS) || HasPass(s, key)) ==> HasPass(r, key))
  {
    AdvanceKeeps(s, key, status, f);
    assert s.tasks[key := s.tasks[key]] == s.tasks;
    if CanMove(s.tasks[key].status, status) {
      AdvanceWrites(s, key, status, f);
      WriteEffect(s, key, status, f);
    }
  }

  /** Claiming a queued row always succeeds where queued rows are unclaimed, and moves only that row, to building. */
  lemma ClaimSucceeds(s: LedgerState, key: Key, session: string, now: int)
    requires Invariant(s) && key in s.tasks && s.tasks[key].status == Queued
    ensures var (r, ok) := Claim(s, key, session, now);
            ok && Invariant(r) && Touched(s.tasks, r.tasks, key) && r.tasks[key].status == Building
  {
    ClaimKeeps(s, key, session, now);
    ClaimEffect(s, key, session, now);
  }

  /** Parking disposes of the task and keeps the invariants. */
  lemma ParkEffect(s: LedgerState, key: Key, reason: string, halts: seq<HaltRecord>)
    requires Invariant(s) && key in s.tasks
    requires Records(ParkedTasks(s, key, reason), key.run, key.slug, halts,
                     HaltSet(ParkedTasks(s, key, reason), key.run, key.slug))
    ensures Invariant(Park(s, key, reason))
    ensures Disposed(s.tasks, Park(s, key, reason).tasks, key, ParkedFor(reason, halts))
  {
    ParkKeeps(s, key, reason);
    var T := ParkedTasks(s, key, reason);
    var h := HaltSet(T, key.run, key.slug);
    if key in h { HaltSetMembers(T, key.run, key.slug, key); }
    var T1 := Park(s, key, reason).tasks;
    assert T1[key] == T[key];
    assert s.tasks[key := T1[key]] == T;
  }
}
