/** Commits, refs and the git commands of git_ops.py, over an origin that others push to as well. */
module GitOps {
  import opened Models

  /** A commit is identified with its content: its own payload and its parents. */
  datatype Commit = Commit(id: nat, parents: seq<Commit>)

  /** Branch names: the configured base ref and other named refs, and the two name families the runner mints. */
  datatype Ref =
    | Named(name: string)
    | Build(run: string, slug: string, attempt: nat)
    | Wedged(run: string, slug: string, attempt: nat)

  /** Every ancestor-or-equal of `c`. */
  function History(c: Commit): (h: set<Commit>)
    ensures c in h
  {
    {c} + set i, a | 0 <= i < |c.parents| && a in History(c.parents[i]) :: a
  }

  lemma {:induction false} HistoryTransitive(a: Commit, d: Commit)
    requires a in History(d)
    ensures History(a) <= History(d)
  {
    if a != d {
      var i :| 0 <= i < |d.parents| && a in History(d.parents[i]);
      HistoryTransitive(a, d.parents[i]);
    }
  }

  function Size(c: Commit): nat {
    1 + SizeAll(c.parents)
  }

  function SizeAll(cs: seq<Commit>): nat {
    if cs == [] then 0 else Size(cs[0]) + SizeAll(cs[1..])
  }

  lemma {:induction false} ParentSmaller(cs: seq<Commit>, i: nat)
    requires i < |cs|
    ensures Size(cs[i]) <= SizeAll(cs)
  {
    if i > 0 { ParentSmaller(cs[1..], i - 1); }
  }

  lemma {:induction false} AncestorSmaller(a: Commit, d: Commit)
    requires a in History(d)
    ensures a == d || Size(a) < Size(d)
  {
    if a != d {
      var i :| 0 <= i < |d.parents| && a in History(d.parents[i]);
      AncestorSmaller(a, d.parents[i]);
      ParentSmaller(d.parents, i);
    }
  }

  /** Ancestry is a partial order: no two different commits lie in each other's history. */
  lemma HistoryAntisymmetric(a: Commit, b: Commit)
    requires a in History(b) && b in History(a)
    ensures a == b
  {
    AncestorSmaller(a, b);
    AncestorSmaller(b, a);
  }

  /** Local and remote refs, the checked-out branch, and the commits present in the local object store. */
  datatype Repo = Repo(origin: map<Ref, Commit>, local: map<Ref, Commit>, head: Ref, store: set<Commit>) {
    ghost predicate Valid() {
      && head in local
      && (forall r :: r in local ==> local[r] in store)
      && (forall c :: c in store ==> History(c) <= store)
    }

    /** `git merge-base --is-ancestor` needs the objects locally; a missing one is an error, read as false. */
    predicate IsAncestor(a: Commit, d: Commit) { d in store && a in History(d) }

    function Fetched(r: Ref): Repo {
      if r in origin then this.(store := store + History(origin[r])) else this
    }

    /** `git merge --ff-only r` into HEAD: already up to date, moved forward, or refused. */
    function FfMerge(r: Ref): (Repo, bool)
      requires head in local
    {
      if r !in local then (this, false)
      else if local[r] in History(local[head]) then (this, true)
      else if local[head] in History(local[r]) then (this.(local := local[head := local[r]]), true)
      else (this, false)
    }

    /** `git push HEAD:r` without force: the remote accepts only a fast-forward. */
    function PushHead(r: Ref): (Repo, bool)
      requires head in local
    {
      if r in origin && origin[r] !in History(local[head]) then (this, false)
      else (this.(origin := origin[r := local[head]]), true)
    }

    function Contains(r: Ref): set<Commit> {
      if r in origin then History(origin[r]) else {}
    }
  }

  lemma FetchedValid(repo: Repo, r: Ref)
    requires repo.Valid()
    ensures repo.Fetched(r).Valid()
  {
    if r in repo.origin {
      forall c | c in History(repo.origin[r]) ensures History(c) <= History(repo.origin[r]) {
        HistoryTransitive(c, repo.origin[r]);
      }
    }
  }

  /** What a merge leaves in HEAD, exactly: the two histories together and nothing else. */
  lemma FfMergeContents(repo: Repo, r: Ref)
    requires repo.Valid() && r in repo.local && repo.FfMerge(r).1
    ensures var after := repo.FfMerge(r).0;
            && after.Valid()
            && History(after.local[repo.head]) == History(repo.local[repo.head]) + History(repo.local[r])
  {
    if repo.local[r] in History(repo.local[repo.head]) {
      HistoryTransitive(repo.local[r], repo.local[repo.head]);
    } else {
      HistoryTransitive(repo.local[repo.head], repo.local[r]);
    }
  }

  /** An accepted push never removes a commit from the remote branch. */
  lemma PushKeepsHistory(repo: Repo, r: Ref)
    requires repo.Valid()
    ensures repo.Contains(r) <= repo.PushHead(r).0.Contains(r)
    ensures repo.PushHead(r).1 ==> repo.local[repo.head] in repo.PushHead(r).0.Contains(r)
  {
    if r in repo.origin && repo.origin[r] in History(repo.local[repo.head]) {
      HistoryTransitive(repo.origin[r], repo.local[repo.head]);
    }
  }

  datatype OriginCheck = Confirmed(sha: Commit) | PhantomCompletion | AlreadyContains(sha: Commit)

  /** What the outside world does before a remote command: it may move remote refs, and the command may exit with
      an error (`fails`) or run into the hard timeout (`timesOut`). `syncs` says whether the post-build fetch of the
      workspace succeeds, `tracked` what the remote-tracking ref of the build branch resolves to. */
  datatype GitAnswer = GitAnswer(
    fails: bool, timesOut: bool, pushes: map<Ref, Commit>, syncs: bool, tracked: Option<Commit>)

  /** Others change origin at will, except that the base branch only moves forward. */
  function AfterOthers(repo: Repo, answer: GitAnswer, base: Ref): Repo {
    if base !in repo.origin || (base in answer.pushes && repo.origin[base] in History(answer.pushes[base]))
    then repo.(origin := answer.pushes) else repo
  }

  // ------------------------------------------------------------------ opening a branch, seen from the inputs

  /** The clone after the live base has been read with the answers from `at` on, and whether that read succeeds. */
  function AfterLive(repo: Repo, answers: nat -> GitAnswer, at: nat, base: Ref): Repo {
    var r := AfterOthers(repo, answers(at), base);
    AfterOthers(if answers(at).fails then r else r.Fetched(base), answers(at + 1), base)
  }

  predicate LiveReads(repo: Repo, answers: nat -> GitAnswer, at: nat, base: Ref) {
    !answers(at).timesOut && !answers(at + 1).fails && base in AfterLive(repo, answers, at, base).origin
  }

  /** The clone with the new branch created and checked out, just before it is pushed. */
  function BranchedOff(repo: Repo, answers: nat -> GitAnswer, at: nat, base: Ref, branch: Ref, tip: Commit): (r: Repo)
    ensures r.head == branch && branch in r.local
  {
    var created := AfterOthers(repo, answers(at), base);
    var checked := AfterOthers(created.(local := created.local[branch := tip]), answers(at + 1), base);
    AfterOthers(checked.(head := branch), answers(at + 2), base)
  }

  /** Create, check out and push all succeed with the answers from `at` on. */
  predicate BranchOpens(repo: Repo, answers: nat -> GitAnswer, at: nat, base: Ref, branch: Ref, tip: Commit) {
    && !answers(at).fails && branch !in repo.local && tip in repo.store
    && !answers(at + 1).fails && !answers(at + 2).fails
    && BranchedOff(repo, answers, at, base, branch, tip).PushHead(branch).1
  }

  /** An attempt gets as far as its builder session: the live base reads, and the branch opens on it. */
  predicate AttemptOpens(repo: Repo, answers: nat -> GitAnswer, at: nat, base: Ref, branch: Ref) {
    && LiveReads(repo, answers, at, base)
    && var live := AfterLive(repo, answers, at, base);
       BranchOpens(live, answers, at + 2, base, branch, live.origin[base])
  }

  /** The commit the attempt starts from, and the clone once its branch is open: five commands later. */
  function LiveBase(repo: Repo, answers: nat -> GitAnswer, at: nat, base: Ref): Commit
    requires LiveReads(repo, answers, at, base)
  {
    AfterLive(repo, answers, at, base).origin[base]
  }

  function AfterOpening(repo: Repo, answers: nat -> GitAnswer, at: nat, base: Ref, branch: Ref): Repo
    requires LiveReads(repo, answers, at, base)
  {
    var live := AfterLive(repo, answers, at, base);
    BranchedOff(live, answers, at + 2, base, branch, live.origin[base]).PushHead(branch).0
  }

  /** The clone when the branch does not open, and how many of the three commands were sent. */
  function AfterFailedOpen(repo: Repo, answers: nat -> GitAnswer, at: nat, base: Ref, branch: Ref, tip: Commit)
    : (Repo, nat)
  {
    var create := AfterOthers(repo, answers(at), base);
    if answers(at).fails || branch in repo.local || tip !in repo.store then (create, 1)
    else if answers(at + 1).fails then
      (AfterOthers(create.(local := create.local[branch := tip]), answers(at + 1), base), 2)
    else (BranchedOff(repo, answers, at, base, branch, tip), 3)
  }

  /** The clone after the workspace has been synced to a build, best effort. */
  function AfterSync(repo: Repo, answer: GitAnswer, base: Ref, branch: Ref): Repo {
    var seen := AfterOthers(repo, answer, base);
    if !answer.syncs || branch !in seen.origin then seen
    else
      var fetched := seen.Fetched(branch);
      if fetched.head in fetched.local && fetched.local[fetched.head] in History(fetched.origin[branch])
      then fetched.(local := fetched.local[fetched.head := fetched.origin[branch]]) else fetched
  }

  // ------------------------------------------------------------------ origin and landing, seen from the inputs

  /** What origin lists for the branch. */
  function Listed(repo: Repo, answers: nat -> GitAnswer, at: nat, base: Ref, branch: Ref): Option<Commit> {
    var seen := AfterOthers(repo, answers(at), base);
    if branch in seen.origin then Some(seen.origin[branch]) else None
  }

  /** The clone once the branch has been listed and fetched. */
  function AfterCheck(repo: Repo, answers: nat -> GitAnswer, at: nat, base: Ref, branch: Ref): Repo {
    AfterOthers(AfterOthers(repo, answers(at), base), answers(at + 1), base).Fetched(branch)
  }

  /** Origin lists a tip of the branch that is not the commit the branch started from. */
  predicate TipMoved(repo: Repo, answers: nat -> GitAnswer, at: nat, base: Ref, branch: Ref, from: Commit) {
    Listed(repo, answers, at, base, branch).Some? && Listed(repo, answers, at, base, branch).value != from
  }

  /** The ground-truth check cannot be made: the listing fails, or after an advance the fetch does. */
  predicate CheckFails(repo: Repo, answers: nat -> GitAnswer, at: nat, base: Ref, branch: Ref, from: Commit) {
    answers(at).fails || (TipMoved(repo, answers, at, base, branch, from) && answers(at + 1).fails)
  }

  /** The clone after the check, however it ends, and how many commands were sent. */
  function AfterChecking(repo: Repo, answers: nat -> GitAnswer, at: nat, base: Ref, branch: Ref, from: Commit)
    : (Repo, nat)
  {
    var seen := AfterOthers(repo, answers(at), base);
    if answers(at).fails || !TipMoved(repo, answers, at, base, branch, from) then (seen, 1)
    else if answers(at + 1).fails then (AfterOthers(seen, answers(at + 1), base), 2)
    else (AfterCheck(repo, answers, at, base, branch), 2)
  }

  /** The listed tip is an advance, is in the object store after the fetch, and holds the claimed commit. */
  predicate OriginHolds(repo: Repo, answers: nat -> GitAnswer, at: nat, base: Ref, branch: Ref, from: Commit,
                        claimed: Commit)
  {
    && TipMoved(repo, answers, at, base, branch, from)
    && AfterCheck(repo, answers, at, base, branch).IsAncestor(claimed, Listed(repo, answers, at, base, branch).value)
  }

  /** The base branch can be checked out. */
  predicate BaseChecksOut(repo: Repo, answer: GitAnswer, base: Ref) { !answer.fails && base in repo.local }

  /** The tips of the two local branches are on one line, so a fast-forward merge of one into the other is possible. */
  predicate OneLine(repo: Repo, base: Ref, branch: Ref) {
    && base in repo.local && branch in repo.local
    && (repo.local[branch] in History(repo.local[base]) || repo.local[base] in History(repo.local[branch]))
  }

  /** The later of two tips on one line. */
  function LaterTip(repo: Repo, base: Ref, branch: Ref): Commit
    requires OneLine(repo, base, branch)
  {
    if repo.local[branch] in History(repo.local[base]) then repo.local[base] else repo.local[branch]
  }

  /** The clone with the base branch checked out and forwarded to the later tip. */
  function AfterMerge(repo: Repo, base: Ref, branch: Ref): (r: Repo)
    requires OneLine(repo, base, branch)
    ensures r.head == base && base in r.local
  {
    repo.(head := base, local := repo.local[base := LaterTip(repo, base, branch)])
  }

  /** The clone after the merge command, however it ends. */
  function AfterMerging(repo: Repo, answer: GitAnswer, base: Ref, branch: Ref): Repo {
    if !BaseChecksOut(repo, answer, base) then repo
    else if OneLine(repo, base, branch) then AfterMerge(repo, base, branch)
    else repo.(head := base)
  }

  /** The merge command does exactly that. */
  lemma MergeIs(repo: Repo, base: Ref, branch: Ref)
    requires base in repo.local
    ensures repo.(head := base).FfMerge(branch).1 <==> OneLine(repo, base, branch)
    ensures OneLine(repo, base, branch) ==> repo.(head := base).FfMerge(branch).0 == AfterMerge(repo, base, branch)
    ensures !OneLine(repo, base, branch) ==> repo.(head := base).FfMerge(branch).0 == repo.(head := base)
  {
    hide History;
    assert repo.local[base := repo.local[base]] == repo.local;
  }

  /** The push of the base branch is sent, and origin takes it: its tip there lies in the history of what is pushed. */
  predicate PushTaken(repo: Repo, answers: nat -> GitAnswer, at: nat, base: Ref, tip: Commit) {
    && !answers(at).fails
    && var seen := AfterOthers(repo, answers(at), base);
       base in seen.origin ==> seen.origin[base] in History(tip)
  }

  /** After the push, others may move origin's base branch on; the listed tip is then the pushed one, or it is in the
      object store and holds the pushed one. */
  predicate SeenAfterPush(repo: Repo, answers: nat -> GitAnswer, at: nat, base: Ref, tip: Commit) {
    var pushed := AfterOthers(repo, answers(at), base);
    var seen := AfterOthers(pushed.(origin := pushed.origin[base := tip]), answers(at + 1), base);
    base in seen.origin && (seen.origin[base] == tip || seen.IsAncestor(tip, seen.origin[base]))
  }

  /** The clone after the push and what follows it, and how many commands were sent. */
  function AfterPush(repo: Repo, answers: nat -> GitAnswer, at: nat, base: Ref, tip: Commit): (Repo, nat) {
    var sent := AfterOthers(repo, answers(at), base);
    if !PushTaken(repo, answers, at, base, tip) then (sent, 1)
    else (AfterOthers(sent.(origin := sent.origin[base := tip]), answers(at + 1), base), 2)
  }

  // ------------------------------------------------------------------ copying a build branch aside

  /** Origin after `_preserve_remote_branch` has pushed `copied` aside, if it pushed anything, and deleted the
      branch, if that push was accepted. */
  function Renamed(origin: map<Ref, Commit>, branch: Ref, aside: Ref, copied: Option<Commit>, deleted: bool)
    : map<Ref, Commit>
  {
    var o := if copied.Some? then origin[aside := copied.value] else origin;
    if deleted then o - {branch} else o
  }

  function OnRef(origin: map<Ref, Commit>, r: Ref): set<Commit> { if r in origin then History(origin[r]) else {} }

  /** A push without force: the new name accepts a commit only if it holds none or moves forward. */
  function Accepted(origin: map<Ref, Commit>, r: Ref, tip: Option<Commit>): Option<Commit> {
    if tip.Some? && (r !in origin || origin[r] in History(tip.value)) then tip else None
  }

  /** The copying push, with the answers from `at` on: whether the branch is then deleted, what reached the new name,
      and how many commands were sent. After a timeout the branch is fetched and pushed again. */
  function CopiedTip(origin: map<Ref, Commit>, answers: nat -> GitAnswer, at: nat, branch: Ref, aside: Ref)
    : (bool, Option<Commit>, nat)
  {
    var push, fetch, again := answers(at), answers(at + 1), answers(at + 2);
    if !push.timesOut then (true, if push.fails then None else Accepted(origin, aside, push.tracked), 1)
    else if fetch.timesOut then (false, None, 2)
    else if again.timesOut then (false, None, 3)
    else
      var tip := if fetch.fails then fetch.tracked else if branch in origin then Some(origin[branch]) else None;
      (true, if again.fails then None else Accepted(origin, aside, tip), 3)
  }

  /** The same while others may move origin, with the clone as the copying leaves it. */
  function Copying(repo: Repo, answers: nat -> GitAnswer, at: nat, base: Ref, branch: Ref, aside: Ref)
    : (bool, Option<Commit>, nat, Repo)
  {
    var (push, fetch, again) := (answers(at), answers(at + 1), answers(at + 2));
    var r1 := AfterOthers(repo, push, base);
    if !push.timesOut then (true, if push.fails then None else Accepted(r1.origin, aside, push.tracked), 1, r1)
    else
      var r2 := AfterOthers(r1, fetch, base);
      if fetch.timesOut then (false, None, 2, r2)
      else
        var r3 := AfterOthers(r2, again, base);
        if again.timesOut then (false, None, 3, r3)
        else
          var tip :=
            if fetch.fails then fetch.tracked else if branch in r2.origin then Some(r2.origin[branch]) else None;
          (true, if again.fails then None else Accepted(r3.origin, aside, tip), 3, r3)
  }

  lemma QuietCopying(repo: Repo, answers: nat -> GitAnswer, at: nat, base: Ref, branch: Ref, aside: Ref)
    ensures var (drop, copied, n) := CopiedTip(repo.origin, answers, at, branch, aside);
            Quiet(repo, answers, at, n, base) ==>
              Copying(repo, answers, at, base, branch, aside) == (drop, copied, n, repo)
    ensures var (drop, copied, n) := CopiedTip(repo.origin, answers, at, branch, aside);
            var c := Copying(repo, answers, at, base, branch, aside);
            drop == c.0 && n == c.2
  {
    hide AfterOthers, Accepted;
    var (drop, copied, n) := CopiedTip(repo.origin, answers, at, branch, aside);
    if Quiet(repo, answers, at, n, base) {
      assert AfterOthers(repo, answers(at), base) == repo;
      assert n >= 2 ==> AfterOthers(repo, answers(at + 1), base) == repo;
      assert n >= 3 ==> AfterOthers(repo, answers(at + 2), base) == repo;
    }
  }

  /** The clone after a whole rename, and how many commands were sent. */
  function AfterPreserve(repo: Repo, answers: nat -> GitAnswer, at: nat, base: Ref, branch: Ref, aside: Ref)
    : (Repo, nat)
  {
    var (drop, copied, n, r) := Copying(repo, answers, at, base, branch, aside);
    if !drop then (r, n)
    else
      var moved := r.(origin := Renamed(r.origin, branch, aside, copied, false));
      var seen := AfterOthers(moved, answers(at + n), base);
      (seen.(origin := Renamed(seen.origin, branch, aside, None, Drops(answers(at + n)))), n + 1)
  }

  lemma QuietPreserve(repo: Repo, answers: nat -> GitAnswer, at: nat, base: Ref, branch: Ref, aside: Ref)
    ensures var (drop, copied, n) := CopiedTip(repo.origin, answers, at, branch, aside);
            QuietRename(repo, answers, at, branch, aside, base) ==>
              AfterPreserve(repo, answers, at, base, branch, aside).0.origin
              == Renamed(repo.origin, branch, aside, copied, drop && Drops(answers(at + n)))
  {
    hide AfterOthers, Renamed, CopiedTip, Copying;
    var (drop, copied, n) := CopiedTip(repo.origin, answers, at, branch, aside);
    QuietCopying(repo, answers, at, base, branch, aside);
    if drop { RenamedTwice(repo.origin, branch, aside, copied, Drops(answers(at + n))); }
    else { NotDropped(repo.origin, answers, at, branch, aside); }
  }

  lemma PreserveSteps(repo: Repo, answers: nat -> GitAnswer, at: nat, base: Ref, branch: Ref, aside: Ref,
                      drop: bool, copied: Option<Commit>, n: nat, r: Repo)
    requires Copying(repo, answers, at, base, branch, aside) == (drop, copied, n, r)
    ensures !drop ==> AfterPreserve(repo, answers, at, base, branch, aside) == (r, n)
    ensures var kept := r.(origin := Renamed(r.origin, branch, aside, copied, false));
            var seen := AfterOthers(kept, answers(at + n), base);
            drop ==> AfterPreserve(repo, answers, at, base, branch, aside)
                     == (seen.(origin := Renamed(seen.origin, branch, aside, None, Drops(answers(at + n)))), n + 1)
  {
    hide AfterOthers, Renamed, Copying;
  }

  lemma NotDropped(origin: map<Ref, Commit>, answers: nat -> GitAnswer, at: nat, branch: Ref, aside: Ref)
    ensures var (drop, copied, n) := CopiedTip(origin, answers, at, branch, aside);
            !drop ==> Renamed(origin, branch, aside, copied, false) == origin
  {
  }

  predicate Drops(a: GitAnswer) { !a.fails && !a.timesOut }

  /** Others leave origin alone before each of the next commands. */
  ghost predicate Quiet(repo: Repo, answers: nat -> GitAnswer, at: nat, n: nat, base: Ref) {
    forall i :: at <= i < at + n ==> AfterOthers(repo, answers(i), base) == repo
  }

  /** The same for all the commands of one rename: the copying ones, and the deletion that follows them. */
  ghost predicate QuietRename(repo: Repo, answers: nat -> GitAnswer, at: nat, branch: Ref, aside: Ref, base: Ref) {
    var (drop, copied, n) := CopiedTip(repo.origin, answers, at, branch, aside);
    && Quiet(repo, answers, at, n, base)
    && (drop ==> Quiet(repo.(origin := Renamed(repo.origin, branch, aside, copied, false)), answers, at + n, 1, base))
  }

  /** From the answers: the branch is not deleted, or its tip is under the new name already, or a commit containing
      it is what was copied there. */
  predicate TipKept(origin: map<Ref, Commit>, answers: nat -> GitAnswer, at: nat, branch: Ref, aside: Ref)
    requires branch in origin
  {
    var (drop, copied, n) := CopiedTip(origin, answers, at, branch, aside);
    !drop || !Drops(answers(at + n)) || origin[branch] in OnRef(origin, aside)
    || (copied.Some? && origin[branch] in History(copied.value))
  }

  /** The tip of the branch is on one of the two refs afterwards exactly if the branch was not deleted, or the new
      name held the tip before, or what was copied there holds it. */
  lemma TipSurvives(origin: map<Ref, Commit>, branch: Ref, aside: Ref, tip: Option<Commit>, deleted: bool)
    requires branch in origin && branch != aside
    ensures var copied := Accepted(origin, aside, tip);
            var after := Renamed(origin, branch, aside, copied, deleted);
            origin[branch] in OnRef(after, branch) + OnRef(after, aside) <==>
            !deleted || origin[branch] in OnRef(origin, aside)
            || (copied.Some? && origin[branch] in History(copied.value))
  {
    assert origin[branch] in History(origin[branch]);
    if Accepted(origin, aside, tip).Some? && aside in origin { HistoryTransitive(origin[aside], tip.value); }
    hide History;
  }

  lemma KeptExactly(origin: map<Ref, Commit>, answers: nat -> GitAnswer, at: nat, branch: Ref, aside: Ref)
    requires branch in origin && branch != aside
    ensures var (drop, copied, n) := CopiedTip(origin, answers, at, branch, aside);
            var after := Renamed(origin, branch, aside, copied, drop && Drops(answers(at + n)));
            origin[branch] in OnRef(after, branch) + OnRef(after, aside) <==>
            TipKept(origin, answers, at, branch, aside)
  {
    hide History, OnRef, Renamed;
    var (drop, copied, n) := CopiedTip(origin, answers, at, branch, aside);
    assert Accepted(origin, aside, copied) == copied;
    TipSurvives(origin, branch, aside, copied, drop && Drops(answers(at + n)));
  }

  lemma RenamedTwice(origin: map<Ref, Commit>, branch: Ref, aside: Ref, copied: Option<Commit>, deleted: bool)
    ensures Renamed(Renamed(origin, branch, aside, copied, false), branch, aside, None, deleted)
            == Renamed(origin, branch, aside, copied, deleted)
  {
  }

  lemma RenamedNothing(origin: map<Ref, Commit>, branch: Ref, aside: Ref)
    ensures Renamed(origin, branch, aside, None, false) == origin
  {
  }

  /** Neither push is checked: with a refused copy and an accepted deletion the tip is on neither ref, though nobody
      else touches origin. */
  lemma RefusedCopyLosesTip(base: Ref, branch: Ref, aside: Ref)
    returns (repo: Repo, answers: nat -> GitAnswer)
    requires base != branch && branch != aside && aside != base
    ensures repo.Valid() && branch in repo.origin && base in repo.origin
    ensures !answers(0).timesOut && answers(0).fails && answers(0).tracked == Some(repo.origin[branch])
    ensures Drops(answers(1)) && QuietRename(repo, answers, 0, branch, aside, base)
    ensures !TipKept(repo.origin, answers, 0, branch, aside)
  {
    var root := Commit(0, []);
    var tip := Commit(1, [root]);
    var origin := map[base := root, branch := tip];
    repo := Repo(origin, map[base := root], base, {root});
    answers := at => GitAnswer(at == 0, false, origin, true, Some(tip));
    assert History(root) == {root};
  }

  class Git {
    const baseRef: string
    const answers: nat -> GitAnswer
    var asked: nat
    var repo: Repo

    ghost predicate Valid() reads this { repo.Valid() }

    /** Everything reachable from the base branch on origin. */
    ghost function BaseHistory(): set<Commit> reads this { repo.Contains(Named(baseRef)) }

    constructor (baseRef: string, repo: Repo, answers: nat -> GitAnswer)
      requires repo.Valid()
      ensures Valid() && this.repo == repo && this.baseRef == baseRef && this.answers == answers
    {
      this.baseRef, this.repo, this.answers, this.asked := baseRef, repo, answers, 0;
    }

    /** One command reaches origin. */
    method Settle() returns (answer: GitAnswer)
      requires Valid()
      modifies this
      ensures Valid() && asked == old(asked) + 1 && answer == answers(old(asked))
      ensures repo == AfterOthers(old(repo), answer, Named(baseRef)) == old(repo).(origin := repo.origin)
      ensures old(BaseHistory()) <= BaseHistory()
    {
      answer := answers(asked);
      asked := asked + 1;
      var base := Named(baseRef);
      if base !in repo.origin || (base in answer.pushes && repo.origin[base] in History(answer.pushes[base])) {
        if base in repo.origin { HistoryTransitive(repo.origin[base], answer.pushes[base]); }
        repo := repo.(origin := answer.pushes);
      }
    }

    /** `_fetch_live_sha`: the fetch may fail unnoticed, a timeout and the listing may not. */
    method FetchLiveSha() returns (o: Outcome, sha: Commit)
      requires Valid()
      modifies this
      ensures Valid() && old(BaseHistory()) <= BaseHistory()
      ensures o.Ok? <==> LiveReads(old(repo), answers, old(asked), Named(baseRef))
      ensures o.Ok? ==> repo == AfterLive(old(repo), answers, old(asked), Named(baseRef))
                        && sha == repo.origin[Named(baseRef)] && asked == old(asked) + 2
      ensures o.Ok? ==> History(sha) <= BaseHistory()
      ensures o.Ok? || o == Raise(GitFailure)
    {
      hide History;
      sha := Commit(0, []);
      var fetch := Settle();
      if fetch.timesOut { return Raise(GitFailure), sha; }
      if !fetch.fails {
        FetchedValid(repo, Named(baseRef));
        repo := repo.Fetched(Named(baseRef));
      }
      var listing := Settle();
      if listing.fails || Named(baseRef) !in repo.origin { return Raise(GitFailure), sha; }
      return Ok, repo.origin[Named(baseRef)];
    }

    /** Create, check out and push the attempt's branch; any git error stops the sequence. */
    method OpenBranch(branch: Ref, at: Commit) returns (ok: bool)
      requires Valid() && branch != Named(baseRef)
      modifies this
      ensures Valid() && old(BaseHistory()) <= BaseHistory()
      ensures ok ==> repo.head == branch && branch in repo.local && repo.local[branch] == at
      ensures ok <==> BranchOpens(old(repo), answers, old(asked), Named(baseRef), branch, at)
      ensures ok ==>
        && asked == old(asked) + 3
        && repo == BranchedOff(old(repo), answers, old(asked), Named(baseRef), branch, at).PushHead(branch).0
      ensures !ok ==>
                (repo, asked - old(asked))
                == AfterFailedOpen(old(repo), answers, old(asked), Named(baseRef), branch, at)
    {
      hide History, AfterOthers;
      var create := Settle();
      if create.fails || branch in repo.local || at !in repo.store { return false; }
      repo := repo.(local := repo.local[branch := at]);
      var checkout := Settle();
      if checkout.fails { return false; }
      repo := repo.(head := branch);
      var push := Settle();
      if push.fails || !repo.PushHead(branch).1 { return false; }
      repo := repo.PushHead(branch).0;
      return true;
    }

    /** `_sync_workspace_branch`: after a build, fetch the branch and fast-forward HEAD to it, best effort. */
    method SyncWorkspace(branch: Ref)
      requires Valid()
      modifies this
      ensures Valid() && old(BaseHistory()) <= BaseHistory() && asked == old(asked) + 1
      ensures repo == AfterSync(old(repo), answers(old(asked)), Named(baseRef), branch)
    {
      hide History, AfterOthers;
      var fetch := Settle();
      if fetch.syncs && branch in repo.origin {
        FetchedValid(repo, branch);
        repo := repo.Fetched(branch);
        if repo.local[repo.head] in History(repo.origin[branch]) {
          repo := repo.(local := repo.local[repo.head := repo.origin[branch]]);
        }
      }
    }

    /** `_preserve_remote_branch`: push the tracked tip aside, after a timeout the fetched one, then delete the
        branch. Only timeouts are noticed; `kept` says that a name is returned. While others leave origin alone, the
        tip the branch had is still on origin under one of the two names exactly if `TipKept` says so. */
    method PreserveBranch(branch: Ref, aside: Ref) returns (kept: bool)
      requires Valid() && branch != Named(baseRef) && aside != Named(baseRef)
      modifies this
      ensures Valid() && old(BaseHistory()) <= BaseHistory()
      ensures kept == CopiedTip(old(repo.origin), answers, old(asked), branch, aside).0
      ensures (repo, asked - old(asked)) == AfterPreserve(old(repo), answers, old(asked), Named(baseRef), branch, aside)
      ensures QuietRename(old(repo), answers, old(asked), branch, aside, Named(baseRef)) ==>
                var (drop, copied, n) := CopiedTip(old(repo.origin), answers, old(asked), branch, aside);
                repo.origin == Renamed(old(repo.origin), branch, aside, copied, drop && Drops(answers(old(asked) + n)))
      ensures QuietRename(old(repo), answers, old(asked), branch, aside, Named(baseRef))
              && branch in old(repo.origin) && branch != aside ==>
                (old(repo.origin[branch]) in OnRef(repo.origin, branch) + OnRef(repo.origin, aside) <==>
                 TipKept(old(repo.origin), answers, old(asked), branch, aside))
    {
      hide Repo.Valid, Repo.Contains, History, AfterOthers, Renamed, Copying, CopiedTip, QuietRename, TipKept, OnRef,
        AfterPreserve;
      ghost var was, at := repo, asked;
      QuietPreserve(repo, answers, asked, Named(baseRef), branch, aside);
      if branch in repo.origin && branch != aside { KeptExactly(repo.origin, answers, asked, branch, aside); }
      kept := CopyAndDrop(branch, aside);
    }

    /** The two pushes. */
    method CopyAndDrop(branch: Ref, aside: Ref) returns (kept: bool)
      requires Valid() && branch != Named(baseRef) && aside != Named(baseRef)
      modifies this
      ensures Valid() && old(BaseHistory()) <= BaseHistory()
      ensures kept == CopiedTip(old(repo.origin), answers, old(asked), branch, aside).0
      ensures (repo, asked - old(asked)) == AfterPreserve(old(repo), answers, old(asked), Named(baseRef), branch, aside)
    {
      hide History, AfterOthers, Renamed, Copying, CopiedTip, Quiet, AfterPreserve, Accepted;
      ghost var was, at := repo, asked;
      var copied;
      kept, copied := PickTip(branch, aside);
      PreserveSteps(was, answers, at, Named(baseRef), branch, aside, kept, copied, asked - at, repo);
      if kept {
        MoveRefs(branch, aside, copied, false);
        var drop := Settle();
        MoveRefs(branch, aside, None, Drops(drop));
      }
    }

    /** The copying push: what reached the new name, if anything did. */
    method PickTip(branch: Ref, aside: Ref) returns (kept: bool, copied: Option<Commit>)
      requires Valid()
      modifies this
      ensures Valid() && old(BaseHistory()) <= BaseHistory()
      ensures (kept, copied, asked - old(asked), repo)
              == Copying(old(repo), answers, old(asked), Named(baseRef), branch, aside)
      ensures var (drop, tip, n) := CopiedTip(old(repo.origin), answers, old(asked), branch, aside);
              && kept == drop && asked == old(asked) + n
              && (Quiet(old(repo), answers, old(asked), n, Named(baseRef)) ==> copied == tip && repo == old(repo))
    {
      hide History, AfterOthers, Accepted, Quiet, CopiedTip;
      QuietCopying(repo, answers, asked, Named(baseRef), branch, aside);
      var push := Settle();
      if !push.timesOut { return true, if push.fails then None else Accepted(repo.origin, aside, push.tracked); }
      var fetch := Settle();
      if fetch.timesOut { return false, None; }
      var tip :=
        if fetch.fails then fetch.tracked else if branch in repo.origin then Some(repo.origin[branch]) else None;
      push := Settle();
      if push.timesOut { return false, None; }
      return true, if push.fails then None else Accepted(repo.origin, aside, tip);
    }

    method MoveRefs(branch: Ref, aside: Ref, copied: Option<Commit>, deleted: bool)
      requires Valid() && branch != Named(baseRef) && aside != Named(baseRef)
      modifies this`repo
      ensures Valid() && BaseHistory() == old(BaseHistory())
      ensures repo == old(repo).(origin := Renamed(old(repo.origin), branch, aside, copied, deleted))
    {
      hide History;
      repo := repo.(origin := Renamed(repo.origin, branch, aside, copied, deleted));
    }

    /** `check_origin_ground_truth`: did the claimed commit really reach the build branch on origin? The answers and
        the clone decide whether the check can be made, whether origin holds the claim, and whether it did before. */
    method CheckOriginGroundTruth(branch: Ref, claimed: Commit, from: Commit) returns (o: Outcome, r: OriginCheck)
      requires Valid()
      modifies this
      ensures Valid() && old(BaseHistory()) <= BaseHistory()
      ensures repo.local == old(repo.local) && repo.head == old(repo.head)
      ensures o == if CheckFails(old(repo), answers, old(asked), Named(baseRef), branch, from)
                   then Raise(GitFailure) else Ok
      ensures o.Ok? ==>
                (!r.PhantomCompletion? <==>
                 OriginHolds(old(repo), answers, old(asked), Named(baseRef), branch, from, claimed))
      ensures (repo, asked - old(asked)) == AfterChecking(old(repo), answers, old(asked), Named(baseRef), branch, from)
      ensures !r.PhantomCompletion? ==> r.sha == claimed && asked == old(asked) + 2
      ensures !r.PhantomCompletion? ==> repo == AfterCheck(old(repo), answers, old(asked), Named(baseRef), branch)
      ensures o.Ok? && !r.PhantomCompletion? ==> (r.AlreadyContains? <==> repo.IsAncestor(claimed, from))
    {
      hide History, AfterOthers;
      r := PhantomCompletion;
      var listing := Settle();
      if listing.fails { return Raise(GitFailure), r; }
      if branch !in repo.origin { return Ok, r; }
      var listed := repo.origin[branch];
      if listed == from { return Ok, r; }
      var fetch := Settle();
      if fetch.fails { return Raise(GitFailure), r; }
      FetchedValid(repo, branch);
      repo := repo.Fetched(branch);
      if !repo.IsAncestor(claimed, listed) { return Ok, r; }
      if repo.IsAncestor(claimed, from) { return Ok, AlreadyContains(claimed); }
      return Ok, Confirmed(claimed);
    }

    /** Check out the base branch and fast-forward it to the local build branch. */
    method MergeIntoBase(branch: Ref) returns (o: Outcome, merged: bool)
      requires Valid()
      modifies this
      ensures Valid() && BaseHistory() == old(BaseHistory()) && asked == old(asked) + 1
      ensures o == if BaseChecksOut(old(repo), answers(old(asked)), Named(baseRef)) then Ok else Raise(GitFailure)
      ensures repo == AfterMerging(old(repo), answers(old(asked)), Named(baseRef), branch)
      ensures o.Ok? ==> repo.head == Named(baseRef) && Named(baseRef) in old(repo.local)
      ensures o.Ok? ==> (merged <==> OneLine(old(repo), Named(baseRef), branch))
      ensures o.Ok? && merged ==>
        && branch in old(repo.local) && repo == AfterMerge(old(repo), Named(baseRef), branch)
        && History(repo.local[repo.head]) == old(History(repo.local[Named(baseRef)]) + History(repo.local[branch]))
    {
      var command := answers(asked);
      asked := asked + 1;
      if command.fails || Named(baseRef) !in repo.local { return Raise(GitFailure), false; }
      MergeIs(repo, Named(baseRef), branch);
      repo := repo.(head := Named(baseRef));
      var (after, ok) := repo.FfMerge(branch);
      if ok { FfMergeContents(repo, branch); }
      hide Repo.FfMerge, History, OneLine, AfterMerge;
      repo := after;
      return Ok, ok;
    }

    /** `get_local_sha(HEAD)`: outside any handler, so a failure escapes the task. */
    method LocalSha() returns (o: Outcome, sha: Commit)
      requires Valid()
      modifies this`asked
      ensures Valid() && asked == old(asked) + 1
      ensures sha == repo.local[repo.head] && o == if answers(old(asked)).fails then Raise(GitFailure) else Ok
    {
      var fails := answers(asked).fails;
      asked := asked + 1;
      return if fails then Raise(GitFailure) else Ok, repo.local[repo.head];
    }

    /** `push_ref` then `post_push_check`: true only if origin's base branch now contains `merged`. */
    method PushAndCheck(merged: Commit) returns (o: Outcome, ok: bool)
      requires Valid() && merged == repo.local[repo.head]
      modifies this
      ensures Valid() && old(BaseHistory()) <= BaseHistory()
      ensures o.Ok? <==> PushTaken(old(repo), answers, old(asked), Named(baseRef), merged)
                         && !answers(old(asked) + 1).fails
      ensures !o.Ok? ==> o == Raise(GitFailure)
      ensures o.Ok? ==> (ok <==> SeenAfterPush(old(repo), answers, old(asked), Named(baseRef), merged))
      ensures (repo, asked - old(asked)) == AfterPush(old(repo), answers, old(asked), Named(baseRef), merged)
      ensures o.Ok? && ok ==> History(merged) <= BaseHistory()
    {
      var base := Named(baseRef);
      var push := Settle();
      if push.fails || !repo.PushHead(base).1 { return Raise(GitFailure), false; }
      PushKeepsHistory(repo, base);
      repo := repo.PushHead(base).0;
      var listing := Settle();
      if listing.fails { return Raise(GitFailure), false; }
      if base !in repo.origin { return Ok, false; }
      if repo.origin[base] == merged { return Ok, true; }
      ok := repo.IsAncestor(merged, repo.origin[base]);
      if ok { HistoryTransitive(merged, repo.origin[base]); }
      return Ok, ok;
    }
  }
}
