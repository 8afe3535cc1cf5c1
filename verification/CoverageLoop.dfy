/** loops/loop_005_test_coverage.py: target selection and the dispatch loop. */
module CoverageLoop {
  import opened Models

  const ROUNDING_THRESHOLD: real := 99.995
  const STALL_LIMIT := 2

  // ------------------------------------------------------------------ target selection

  /** Lexicographic order on paths, by code point. */
  predicate Before(a: string, b: string) {
    b != "" && (a == "" || a[0] < b[0] || (a[0] == b[0] && Before(a[1..], b[1..])))
  }

  lemma {:induction false} Trichotomy(a: string, b: string)
    ensures Before(a, b) || a == b || Before(b, a)
    ensures !(Before(a, b) && Before(b, a)) && !Before(a, a)
  {
    if a != "" && b != "" {
      Trichotomy(a[1..], b[1..]);
      assert a[0] == b[0] && a[1..] == b[1..] ==> a == b;
    }
    if a != "" { Trichotomy(a[1..], a[1..]); }
  }

  lemma {:induction false} BeforeTransitive(a: string, b: string, c: string)
    requires Before(a, b) && Before(b, c)
    ensures Before(a, c)
  {
    if a != "" && a[0] == b[0] == c[0] { BeforeTransitive(a[1..], b[1..], c[1..]); }
  }

  /** After a common start, the first path ends or has the smaller character. */
  predicate DiffersAt(a: string, b: string, n: nat) {
    n <= |a| && n < |b| && a[..n] == b[..n] && (n == |a| || a[n] < b[n])
  }

  lemma StartsAlike(a: string, b: string, n: nat)
    requires n <= |a| && n <= |b| && a[..n] == b[..n]
    ensures n > 0 ==> a[0] == b[0]
  {
    if n > 0 { assert a[0] == a[..n][0] == b[..n][0]; }
  }

  lemma {:induction false} BeforeExactly(a: string, b: string)
    ensures Before(a, b) <==> exists n :: DiffersAt(a, b, n)
  {
    if a == "" || b == "" || a[0] != b[0] {
      if Before(a, b) { assert DiffersAt(a, b, 0); }
      forall n: nat | DiffersAt(a, b, n) ensures n == 0 { StartsAlike(a, b, n); }
    } else {
      BeforeExactly(a[1..], b[1..]);
      forall n: nat | DiffersAt(a[1..], b[1..], n) ensures DiffersAt(a, b, n + 1) {
        assert a[..n + 1] == [a[0]] + a[1..][..n] && b[..n + 1] == [b[0]] + b[1..][..n];
      }
      forall n: nat | DiffersAt(a, b, n) ensures n > 0 && DiffersAt(a[1..], b[1..], n - 1) {
        assert n > 0 ==> a[1..][..n - 1] == a[..n][1..] && b[1..][..n - 1] == b[..n][1..];
      }
    }
  }

  /** More uncovered lines first; among equals the earlier path. */
  predicate Preferred(x: (string, int), y: (string, int)) { x.1 > y.1 || (x.1 == y.1 && Before(x.0, y.0)) }

  predicate Eligible(x: (string, int), stalled: set<string>) { x.1 > 0 && x.0 !in stalled }

  /** The file has uncovered lines and is not stalled, and no other such file has more uncovered lines, or as many
      and an earlier path. */
  ghost predicate IsTarget(path: string, perFile: seq<(string, int)>, stalled: set<string>) {
    exists k :: 0 <= k < |perFile| && perFile[k].0 == path && perFile[k].1 > 0 && path !in stalled
                && forall m :: 0 <= m < |perFile| && perFile[m].1 > 0 && perFile[m].0 !in stalled
                               ==> && perFile[m].1 <= perFile[k].1
                                   && (perFile[m].1 == perFile[k].1 ==>
                                         perFile[m].0 == path || Before(path, perFile[m].0))
  }

  /** `select_target_file`: the first of the eligible entries in sorted order, found in one pass. */
  method SelectTargetFile(perFile: seq<(string, int)>, stalled: set<string>) returns (target: Option<string>)
    ensures target.None? <==> forall k :: 0 <= k < |perFile| ==> perFile[k].1 <= 0 || perFile[k].0 in stalled
    ensures target.Some? ==> IsTarget(target.value, perFile, stalled)
  {
    var best := -1;
    for i := 0 to |perFile|
      invariant -1 <= best < i
      invariant best == -1 ==> forall m :: 0 <= m < i ==> !Eligible(perFile[m], stalled)
      invariant best >= 0 ==> Eligible(perFile[best], stalled)
      invariant best >= 0 ==> forall m :: 0 <= m < i && Eligible(perFile[m], stalled)
                                          ==> perFile[m] == perFile[best] || Preferred(perFile[best], perFile[m])
    {
      if Eligible(perFile[i], stalled) {
        if best == -1 {
          best := i;
        } else if Preferred(perFile[i], perFile[best]) {
          forall m | 0 <= m < i && Eligible(perFile[m], stalled) ensures Preferred(perFile[i], perFile[m]) {
            if perFile[m] != perFile[best] { PreferredTransitive(perFile[i], perFile[best], perFile[m]); }
          }
          best := i;
        } else {
          Trichotomy(perFile[i].0, perFile[best].0);
        }
      }
    }
    target := if best == -1 then None else Some(perFile[best].0);
  }

  lemma PreferredTransitive(x: (string, int), y: (string, int), z: (string, int))
    requires Preferred(x, y) && Preferred(y, z)
    ensures Preferred(x, z)
  {
    if x.1 == y.1 == z.1 { BeforeTransitive(x.0, y.0, z.0); }
  }

  /** There is only one target: the order in which the files are listed does not matter. */
  lemma TargetIsUnique(p: seq<(string, int)>, q: seq<(string, int)>, stalled: set<string>, a: string, b: string)
    requires (forall x :: x in p <==> x in q) && IsTarget(a, p, stalled) && IsTarget(b, q, stalled)
    ensures a == b
  {
    var k :| 0 <= k < |p| && p[k].0 == a && p[k].1 > 0 && a !in stalled
             && forall m :: 0 <= m < |p| && p[m].1 > 0 && p[m].0 !in stalled
                            ==> p[m].1 <= p[k].1 && (p[m].1 == p[k].1 ==> p[m].0 == a || Before(a, p[m].0));
    var l :| 0 <= l < |q| && q[l].0 == b && q[l].1 > 0 && b !in stalled
             && forall m :: 0 <= m < |q| && q[m].1 > 0 && q[m].0 !in stalled
                            ==> q[m].1 <= q[l].1 && (q[m].1 == q[l].1 ==> q[m].0 == b || Before(b, q[m].0));
    assert p[k] in q && q[l] in p;
    Trichotomy(a, b);
  }

  // ------------------------------------------------------------------ reports

  predicate AtThreshold(coverage: real, threshold: real) {
    coverage >= if threshold <= ROUNDING_THRESHOLD then threshold else ROUNDING_THRESHOLD
  }

  /** The threshold is reached when the coverage is at it, or at what rounds to 100. */
  lemma ThresholdExactly(coverage: real, threshold: real)
    ensures AtThreshold(coverage, threshold) <==> coverage >= threshold || coverage >= 99.995
  {
  }

  /** One EXIT ITERATION_COMPLETE report; a report without a target file has the empty name. */
  datatype Report = Report(coverage: real, file: string)

  /** The change against the report before; the first report has nothing before it, and counts as no change. */
  function Delta(rs: seq<Report>, k: nat): real
    requires k < |rs|
  {
    if k == 0 then 0.0 else rs[k].coverage - rs[k - 1].coverage
  }

  /** Zero-delta reports for a file since its last report with a change. */
  function ZeroRun(rs: seq<Report>, file: string): nat {
    if rs == [] then 0
    else
      var n := |rs| - 1;
      if rs[n].file != file then ZeroRun(rs[..n], file)
      else if Delta(rs, n) == 0.0 then ZeroRun(rs[..n], file) + 1
      else 0
  }

  predicate NoChange(rs: seq<Report>, k: nat, file: string)
    requires k < |rs|
  {
    rs[k].file == file && Delta(rs, k) == 0.0
  }

  /** Report `i` shows no change for the file, and so does every later report for it. */
  ghost predicate UnchangedSince(rs: seq<Report>, i: nat, file: string) {
    && i < |rs| && NoChange(rs, i, file)
    && forall m: nat :: i < m < |rs| && rs[m].file == file ==> NoChange(rs, m, file)
  }

  /** Report `k` is the second of no change for its file, with no change for that file in between. */
  ghost predicate SecondZero(rs: seq<Report>, k: nat) {
    && k < |rs| && rs[k].file != "" && Delta(rs, k) == 0.0
    && exists i: nat :: UnchangedSince(rs[..k], i, rs[k].file)
  }

  lemma UnchangedNext(rs: seq<Report>, i: nat, file: string)
    requires i + 1 < |rs|
    ensures var n := |rs| - 1;
            UnchangedSince(rs, i, file)
            <==> UnchangedSince(rs[..n], i, file) && (rs[n].file == file ==> NoChange(rs, n, file))
  {
    var n := |rs| - 1;
    forall k: nat | k < n ensures NoChange(rs[..n], k, file) == NoChange(rs, k, file) && rs[..n][k] == rs[k] { }
  }

  lemma {:induction false} ZeroRunIs(rs: seq<Report>, file: string)
    ensures ZeroRun(rs, file) >= 1 <==> exists i: nat :: UnchangedSince(rs, i, file)
  {
    if rs != [] {
      var n := |rs| - 1;
      ZeroRunIs(rs[..n], file);
      forall i: nat | i < n
        ensures UnchangedSince(rs, i, file)
                <==> UnchangedSince(rs[..n], i, file) && (rs[n].file == file ==> NoChange(rs, n, file))
      {
        UnchangedNext(rs, i, file);
      }
      if NoChange(rs, n, file) { assert UnchangedSince(rs, n, file); }
    }
  }

  /** Counting to the limit is seeing the second report of no change. */
  lemma StallIsSecondZero(rs: seq<Report>)
    requires rs != []
    ensures var k := |rs| - 1;
            rs[k].file != "" && Delta(rs, k) == 0.0 && ZeroRun(rs, rs[k].file) >= STALL_LIMIT <==> SecondZero(rs, k)
  {
    ZeroRunIs(rs[..|rs| - 1], rs[|rs| - 1].file);
  }

  /** A stall needs only one report that was compared with another: with the first two reports equal it is there. */
  lemma FirstReportStalls(coverage: real, file: string)
    requires file != ""
    ensures SecondZero([Report(coverage, file), Report(coverage, file)], 1)
  {
    var rs := [Report(coverage, file), Report(coverage, file)];
    assert UnchangedSince(rs[..1], 0, file);
  }

  /** The first stall of a run counts the report that has nothing before it exactly if that report was for the same
      file, with no report of a change for the file in between. */
  lemma FirstReportCounts(rs: seq<Report>, k: nat)
    requires SecondZero(rs, k) && forall j: nat :: j < k ==> !SecondZero(rs, j)
    ensures !(exists i: nat :: 0 < i && UnchangedSince(rs[..k], i, rs[k].file)) <==>
              rs[0].file == rs[k].file
              && forall m: nat :: 0 < m < k && rs[m].file == rs[k].file ==> Delta(rs, m) == 0.0
  {
    var file := rs[k].file;
    assert forall m: nat :: m < k ==> rs[..k][m] == rs[m] && Delta(rs[..k], m) == Delta(rs, m);
    var i: nat :| UnchangedSince(rs[..k], i, file);
    if j: nat :| 0 < j && UnchangedSince(rs[..k], j, file) {
      if rs[0].file == file && forall m: nat :: 0 < m < k && rs[m].file == file ==> Delta(rs, m) == 0.0 {
        assert rs[..j] == rs[..k][..j];
        assert forall m: nat :: m < j ==> rs[..j][m] == rs[m] && Delta(rs[..j], m) == Delta(rs, m);
        assert UnchangedSince(rs[..j], 0, file);
        assert SecondZero(rs, j);
      }
    }
  }

  // ------------------------------------------------------------------ the loop

  /** What the three patterns find in the output of one agent invocation; a coverage that is no number is None. */
  datatype Output = Output(unsupported: Option<string>, success: bool, iteration: Option<(Option<real>, string)>)

  datatype Event =
    | Prompted(stalled: set<string>)
    | Pushed
    | OpenedPr(before: real, after: real, files: seq<string>)

  datatype Ending =
    | Success(noOp: bool, before: Option<real>, after: Option<real>, files: seq<string>)
    | Ceiling(before: Option<real>, after: Option<real>, files: seq<string>)
    | Stall(before: Option<real>, after: Option<real>, files: seq<string>)
    | Unsupported(reason: string)
    | Error
    | Raised
    | StillRunning

  function Prs(trace: seq<Event>): nat {
    if trace == [] then 0 else Prs(trace[..|trace| - 1]) + if trace[|trace| - 1].OpenedPr? then 1 else 0
  }

  /** Every pull request directly follows a push, and no prompt names a stalled file. */
  ghost predicate Proper(trace: seq<Event>) {
    && (forall k :: 0 <= k < |trace| && trace[k].OpenedPr? ==> k > 0 && trace[k - 1].Pushed?)
    && forall k :: 0 <= k < |trace| && trace[k].Prompted? ==> trace[k].stalled == {}
  }

  lemma OneMore(trace: seq<Event>, e: Event)
    ensures Prs(trace + [e]) == Prs(trace) + if e.OpenedPr? then 1 else 0
    ensures Proper(trace) && !e.OpenedPr? && (e.Prompted? ==> e.stalled == {}) ==> Proper(trace + [e])
  {
    assert (trace + [e])[..|trace|] == trace;
  }

  /** The files with a report that changed coverage. */
  ghost predicate Gained(rs: seq<Report>, file: string) {
    exists k: nat :: k < |rs| && file != "" && rs[k].file == file && Delta(rs, k) != 0.0
  }

  /** `rs` with one more report. */
  lemma Longer(rs: seq<Report>, r: Report)
    ensures var all := rs + [r];
            && (forall file :: ZeroRun(all, file) == if r.file != file then ZeroRun(rs, file)
                                                     else if Delta(all, |rs|) == 0.0 then ZeroRun(rs, file) + 1 else 0)
            && (forall k: nat :: k < |rs| ==> Delta(all, k) == Delta(rs, k))
            && (forall file :: Gained(all, file) <==>
                                 Gained(rs, file) || (file != "" && file == r.file && Delta(all, |rs|) != 0.0))
  {
    var all := rs + [r];
    assert all[..|rs|] == rs;
    forall k: nat | k < |rs| ensures Delta(all, k) == Delta(rs, k) { }
    forall file ensures Gained(all, file) <==>
                          Gained(rs, file) || (file != "" && file == r.file && Delta(all, |rs|) != 0.0)
    {
      if Gained(rs, file) {
        var k: nat :| k < |rs| && file != "" && rs[k].file == file && Delta(rs, k) != 0.0;
        assert all[k].file == file && Delta(all, k) != 0.0;
      }
      if file != "" && file == r.file && Delta(all, |rs|) != 0.0 { assert all[|rs|].file == file; }
      if Gained(all, file) {
        var k: nat :| k < |all| && file != "" && all[k].file == file && Delta(all, k) != 0.0;
        if k < |rs| { assert rs[k].file == file && Delta(rs, k) != 0.0; }
      }
    }
  }

  /** The stall tracker counts each file's run of zero deltas, and no run has reached the limit. */
  ghost predicate Tracked(rs: seq<Report>, tracker: map<string, nat>) {
    forall file :: file != "" ==> ZeroRun(rs, file) == (if file in tracker then tracker[file] else 0) < STALL_LIMIT
  }

  ghost predicate GainedFiles(rs: seq<Report>, files: seq<string>) {
    NoDups(files) && forall file :: file in files <==> Gained(rs, file)
  }

  /** No report so far was a reason to end the run. */
  ghost predicate Open(rs: seq<Report>, threshold: real) {
    forall k: nat :: k < |rs| ==> !SecondZero(rs, k) && !AtThreshold(rs[k].coverage, threshold)
  }

  /** Progress and stall state per file, after one more report. */
  method Track(ghost rs: seq<Report>, r: Report, delta: real, tracker: map<string, nat>, files: seq<string>,
               stalled: set<string>)
    returns (tracker': map<string, nat>, files': seq<string>, stalled': set<string>, stall: bool)
    requires Tracked(rs, tracker) && GainedFiles(rs, files) && stalled == {} && delta == Delta(rs + [r], |rs|)
    ensures GainedFiles(rs + [r], files')
    ensures stall <==> SecondZero(rs + [r], |rs|)
    ensures !stall ==> Tracked(rs + [r], tracker') && stalled' == {}
  {
    hide ZeroRun, Delta, SecondZero, Gained;
    Longer(rs, r);
    StallIsSecondZero(rs + [r]);
    tracker', files', stalled', stall := tracker, files, stalled, false;
    if r.file != "" {
      if delta == 0.0 {
        tracker' := tracker[r.file := (if r.file in tracker then tracker[r.file] else 0) + 1];
      } else {
        tracker' := tracker[r.file := 0];
        if r.file !in files { files' := files + [r.file]; }
      }
      if tracker'[r.file] >= STALL_LIMIT { stalled' := stalled + {r.file}; }
      stall := r.file in stalled' && delta == 0.0;
    }
  }

  lemma StillOpen(rs: seq<Report>, r: Report, threshold: real)
    requires Open(rs, threshold)
    ensures forall k: nat :: k < |rs| ==> !SecondZero(rs + [r], k) && !AtThreshold((rs + [r])[k].coverage, threshold)
    ensures !SecondZero(rs + [r], |rs|) && !AtThreshold(r.coverage, threshold) ==> Open(rs + [r], threshold)
  {
    hide SecondZero, AtThreshold;
    SecondZeroEarlier(rs, r);
  }

  // ------------------------------------------------------------------ how a run ends, seen from its inputs

  datatype Setting = Setting(threshold: real, ceiling: real, clock: nat -> real, agent: nat -> Output,
                             pushOk: bool, prOk: bool)

  /** Round `k` starts before the ceiling. */
  predicate InTime(s: Setting, k: nat) { s.clock(k + 1) - s.clock(0) < s.ceiling }

  /** The output is an iteration report with a coverage, and neither a success nor unsupported. */
  predicate Iterates(out: Output, r: Report) {
    out.unsupported.None? && !out.success && out.iteration == Some((Some(r.coverage), r.file))
  }

  /** The reports are what the agent's outputs say, round by round, and every round started in time. */
  ghost predicate ReadFrom(s: Setting, rs: seq<Report>) {
    forall k :: 0 <= k < |rs| ==> InTime(s, k) && Iterates(s.agent(k), rs[k])
  }

  /** A push and a pull request, or a raise. */
  predicate Delivered(s: Setting, ending: Ending) {
    if s.pushOk && s.prOk then ending.Success? && !ending.noOp else ending.Raised?
  }

  /** How the output of round `n` ends the run, if it is no report. */
  predicate EndsWith(s: Setting, out: Output, n: nat, ending: Ending) {
    if out.unsupported.Some? then ending == Unsupported(out.unsupported.value)
    else if out.success then (if n == 0 then ending == Success(true, None, None, []) else Delivered(s, ending))
    else if out.iteration.None? then ending.Error?
    else out.iteration.value.0.None? && ending.Raised?
  }

  /** What ends the run after these reports: the threshold, a stall, the rounds, the ceiling, or the next output. */
  ghost predicate Decided(s: Setting, rs: seq<Report>, rounds: nat, ending: Ending) {
    var n := |rs|;
    if n > 0 && AtThreshold(rs[n - 1].coverage, s.threshold) then Delivered(s, ending)
    else if n > 0 && SecondZero(rs, n - 1) then ending.Stall?
    else if n == rounds then ending.StillRunning?
    else if !InTime(s, n) then (if s.pushOk then ending.Ceiling? else ending.Raised?)
    else EndsWith(s, s.agent(n), n, ending)
  }

  /** The pull request and the report name the first coverage, the last one, and the files that changed it. A last
      coverage of zero is replaced by the first one in the pull request, unless it reaches the threshold. */
  ghost predicate Announced(s: Setting, rs: seq<Report>, trace: seq<Event>, ending: Ending)
    requires ending.Success? && rs != []
  {
    var (first, last) := (rs[0].coverage, rs[|rs| - 1].coverage);
    var reached := AtThreshold(last, s.threshold);
    && ending.before == Some(first) && ending.after == Some(last)
    && GainedFiles(if reached then rs[..|rs| - 1] else rs, ending.files)
    && trace != []
    && trace[|trace| - 1] == OpenedPr(first, if last != 0.0 || reached then last else first, ending.files)
  }

  lemma ReadMore(s: Setting, rs: seq<Report>, r: Report)
    requires ReadFrom(s, rs) && InTime(s, |rs|) && Iterates(s.agent(|rs|), r)
    ensures ReadFrom(s, rs + [r])
  {
    hide InTime, Iterates;
  }

  lemma NothingRead(s: Setting)
    ensures ReadFrom(s, [])
  {
  }

  /** Where no report ends the run, the rounds, the ceiling or the next output does. */
  lemma OpenDecides(s: Setting, rs: seq<Report>, rounds: nat, ending: Ending)
    requires Open(rs, s.threshold) && |rs| <= rounds
    ensures |rs| == rounds && ending.StillRunning? ==> Decided(s, rs, rounds, ending)
    ensures |rs| < rounds && !InTime(s, |rs|) && (if s.pushOk then ending.Ceiling? else ending.Raised?) ==>
              Decided(s, rs, rounds, ending)
    ensures |rs| < rounds && InTime(s, |rs|) && EndsWith(s, s.agent(|rs|), |rs|, ending) ==>
              Decided(s, rs, rounds, ending)
  {
    hide InTime, EndsWith, AtThreshold, SecondZero;
  }

  /** The last report ends it. */
  lemma ReportDecides(s: Setting, rs: seq<Report>, rounds: nat, ending: Ending)
    requires rs != []
    ensures AtThreshold(rs[|rs| - 1].coverage, s.threshold) && Delivered(s, ending) ==> Decided(s, rs, rounds, ending)
    ensures !AtThreshold(rs[|rs| - 1].coverage, s.threshold) && SecondZero(rs, |rs| - 1) && ending.Stall? ==>
              Decided(s, rs, rounds, ending)
  {
    hide InTime, EndsWith, AtThreshold, SecondZero;
  }

  lemma Announces(s: Setting, rs: seq<Report>, trace: seq<Event>, first: real, after: real, files: seq<string>)
    requires rs != [] && first == rs[0].coverage
    requires var last := rs[|rs| - 1].coverage;
             if AtThreshold(last, s.threshold) then GainedFiles(rs[..|rs| - 1], files) && after == last
             else GainedFiles(rs, files) && after == if last != 0.0 then last else first
    requires trace != [] && trace[|trace| - 1] == OpenedPr(first, after, files)
    ensures Announced(s, rs, trace, Success(false, Some(first), Some(rs[|rs| - 1].coverage), files))
  {
    hide AtThreshold, GainedFiles;
  }

  class Dispatcher {
    const threshold: real
    const ceiling: real
    const clock: nat -> real
    const agent: nat -> Output
    const pushOk: bool
    const prOk: bool
    ghost var trace: seq<Event>
    /** The iteration reports read so far. */
    ghost var reports: seq<Report>

    constructor (threshold: real, ceiling: real, clock: nat -> real, agent: nat -> Output, pushOk: bool, prOk: bool)
      ensures this.threshold == threshold && this.ceiling == ceiling && this.agent == agent && this.clock == clock
    {
      this.threshold, this.ceiling, this.clock, this.agent := threshold, ceiling, clock, agent;
      this.pushOk, this.prOk := pushOk, prOk;
      trace, reports := [], [];
    }

    function Given(): Setting { Setting(threshold, ceiling, clock, agent, pushOk, prOk) }

    method Push() returns (ok: bool)
      requires Proper(trace)
      modifies `trace
      ensures Proper(trace) && Prs(trace) == Prs(old(trace))
      ensures ok == pushOk && trace == if ok then old(trace) + [Pushed] else old(trace)
    {
      ok := pushOk;
      if ok {
        OneMore(trace, Pushed);
        trace := trace + [Pushed];
      }
    }

    /** Push, then open the pull request; a raise of either ends the run. */
    method PushAndOpen(before: real, after: real, files: seq<string>) returns (ok: bool)
      requires Proper(trace) && Prs(trace) == 0
      modifies `trace
      ensures Proper(trace) && Prs(trace) == if ok then 1 else 0
      ensures ok == (pushOk && prOk)
      ensures ok ==> trace == old(trace) + [Pushed, OpenedPr(before, after, files)]
    {
      ok := Push();
      if !ok { return; }
      ok := prOk;
      if ok {
        OneMore(trace, OpenedPr(before, after, files));
        trace := trace + [OpenedPr(before, after, files)];
      }
    }

    /** `dispatch`, for at most `rounds` agent invocations. */
    method Dispatch(rounds: nat) returns (ending: Ending)
      modifies this
      ensures |reports| <= rounds && ReadFrom(Given(), reports) && Decided(Given(), reports, rounds, ending)
      ensures ending.Success? && !ending.noOp ==> reports != [] && Announced(Given(), reports, trace, ending)
      ensures ending.Ceiling? ==>
                if reports == [] then ending.before == None == ending.after
                else ending.before == Some(reports[0].coverage) && ending.after == Some(reports[|reports| - 1].coverage)
      ensures Proper(trace) && Prs(trace) <= 1
      ensures Prs(trace) == 1 <==> ending.Success? && !ending.noOp
      ensures forall k: nat :: k + 1 < |reports| ==>
                !SecondZero(reports, k) && !AtThreshold(reports[k].coverage, threshold)
      ensures ending.Success? || ending.Ceiling? || ending.Stall? ==> NoDups(ending.files)
      ensures ending.Ceiling? || ending.Stall? ==> forall file :: file in ending.files <==> Gained(reports, file)
      ensures ending.Ceiling? ==> trace != [] && trace[|trace| - 1].Pushed?
      ensures ending.Stall? ==> ending.before == Some(reports[0].coverage)
                                && ending.after == Some(reports[|reports| - 1].coverage)
    {
      hide SecondZero, AtThreshold, Tracked, GainedFiles, Open, Delta, Gained, Prs, NoDups, Decided, Announced,
        ReadFrom, EndsWith, Proper;
      trace, reports := [], [];
      ghost var s := Given();
      var start := clock(0);
      var before, current: Option<real> := None, None;
      var tracker: map<string, nat> := map[];
      var stalled: set<string> := {};
      var files: seq<string> := [];
      NothingYet(threshold);
      NothingRead(s);
      for attempt := 0 to rounds
        invariant Proper(trace) && Prs(trace) == 0 && |reports| == attempt && stalled == {}
        invariant before == if reports == [] then None else Some(reports[0].coverage)
        invariant current == if reports == [] then None else Some(reports[attempt - 1].coverage)
        invariant Tracked(reports, tracker) && GainedFiles(reports, files) && Open(reports, threshold)
        invariant start == clock(0) && ReadFrom(s, reports)
      {
        OpenMeans(reports, threshold, files);
        if clock(attempt + 1) - start >= ceiling {
          var ok := Push();
          ending := if ok then Ceiling(before, current, files) else Raised;
          OpenDecides(s, reports, rounds, ending);
          return;
        }
        OneMore(trace, Prompted(stalled));
        trace := trace + [Prompted(stalled)];
        var out := agent(attempt);
        if out.unsupported.Some? || out.success || out.iteration.None? || out.iteration.value.0.None? {
          ending := Close(out, before, current, files);
          OpenDecides(s, reports, rounds, ending);
          return;
        }
        var coverage, target := out.iteration.value.0.value, out.iteration.value.1;
        if before.None? { before := Some(coverage); }
        var prev := if current.Some? then current.value else before.value;
        var delta := coverage - prev;
        ghost var earlier := reports;
        var report := Report(coverage, target);
        reports := reports + [report];
        ReadMore(s, earlier, report);
        DeltaIs(reports, attempt);
        StillOpen(earlier, report, threshold);
        var ended;
        ended, ending, tracker, files, stalled :=
          Judge(earlier, report, delta, before.value, tracker, files, stalled, rounds);
        if ended { return; }
        current := Some(coverage);
      }
      OpenMeans(reports, threshold, files);
      OpenDecides(s, reports, rounds, StillRunning);
      return StillRunning;
    }

    /** A report ends the run at the threshold or with a stall; else its effect on progress is kept. */
    method Judge(ghost earlier: seq<Report>, r: Report, delta: real, first: real, tracker: map<string, nat>,
                 files: seq<string>, stalled: set<string>, ghost rounds: nat)
      returns (ended: bool, ending: Ending, tracker': map<string, nat>, files': seq<string>, stalled': set<string>)
      requires Proper(trace) && Prs(trace) == 0 && reports == earlier + [r] && first == reports[0].coverage
      requires Tracked(earlier, tracker) && GainedFiles(earlier, files) && Open(earlier, threshold) && stalled == {}
      requires delta == Delta(reports, |earlier|)
      modifies `trace
      ensures Proper(trace) && Prs(trace) == if ended && ending.Success? then 1 else 0
      ensures !ended ==> Open(reports, threshold) && Tracked(reports, tracker') && GainedFiles(reports, files')
      ensures !ended ==> stalled' == {}
      ensures ended ==>
                Decided(Given(), reports, rounds, ending) && (ending.Success? || ending.Stall? || ending.Raised?)
      ensures ended && ending.Success? ==>
                !ending.noOp && NoDups(ending.files) && Announced(Given(), reports, trace, ending)
      ensures ended && ending.Stall? ==>
        && NoDups(ending.files) && (forall file :: file in ending.files <==> Gained(reports, file))
        && ending.before == Some(first) && ending.after == Some(r.coverage)
    {
      hide Prs, SecondZero, AtThreshold, Tracked, GainedFiles, Open, Delta, Gained, NoDups, Decided, Announced;
      tracker', files', stalled' := tracker, files, stalled;
      assert reports[..|reports| - 1] == earlier;
      StillOpen(earlier, r, threshold);
      FilesMean(earlier, files);
      if AtThreshold(r.coverage, threshold) {
        ending := Deliver(first, r.coverage, r.coverage, files);
        if ending.Success? { Announces(Given(), reports, trace, first, r.coverage, files); }
        ReportDecides(Given(), reports, rounds, ending);
        return true, ending, tracker, files, stalled;
      }
      var stall;
      tracker', files', stalled', stall := Track(earlier, r, delta, tracker, files, stalled);
      FilesMean(reports, files');
      ended, ending := stall, Stall(Some(first), Some(r.coverage), files');
      ReportDecides(Given(), reports, rounds, ending);
    }

    /** An output that is no iteration report ends the run. */
    method Close(out: Output, before: Option<real>, current: Option<real>, files: seq<string>) returns (ending: Ending)
      requires out.unsupported.Some? || out.success || out.iteration.None? || out.iteration.value.0.None?
      requires Proper(trace) && Prs(trace) == 0 && Open(reports, threshold) && GainedFiles(reports, files)
      requires before == if reports == [] then None else Some(reports[0].coverage)
      requires current == if reports == [] then None else Some(reports[|reports| - 1].coverage)
      modifies `trace
      ensures EndsWith(Given(), out, |reports|, ending) && Proper(trace)
      ensures Prs(trace) == if ending.Success? && !ending.noOp then 1 else 0
      ensures ending.Success? && !ending.noOp ==> reports != [] && Announced(Given(), reports, trace, ending)
      ensures ending.Success? ==> NoDups(ending.files)
      ensures !ending.Ceiling? && !ending.Stall? && !ending.StillRunning?
    {
      hide Prs, SecondZero, AtThreshold, Gained, GainedFiles, NoDups, Announced;
      OpenMeans(reports, threshold, files);
      if out.unsupported.Some? { return Unsupported(out.unsupported.value); }
      if out.success {
        if before.None? {
          NothingTwice();
          return Success(true, None, None, []);
        }
        var after := if current.value != 0.0 then current.value else before.value;
        ending := Deliver(before.value, current.value, after, files);
        if ending.Success? { Announces(Given(), reports, trace, before.value, after, files); }
        return;
      }
      return if out.iteration.None? then Error else Raised;
    }

    /** Push, open the pull request, and report. */
    method Deliver(first: real, last: real, after: real, files: seq<string>) returns (ending: Ending)
      requires Proper(trace) && Prs(trace) == 0
      modifies `trace
      ensures Proper(trace) && Prs(trace) == (if ending.Success? then 1 else 0) && Delivered(Given(), ending)
      ensures ending.Success? ==>
        && ending == Success(false, Some(first), Some(last), files)
        && trace == old(trace) + [Pushed, OpenedPr(first, after, files)]
    {
      var ok := PushAndOpen(first, after, files);
      return if ok then Success(false, Some(first), Some(last), files) else Raised;
    }
  }

  lemma NothingTwice()
    ensures NoDups<string>([])
  {
  }

  lemma FilesMean(rs: seq<Report>, files: seq<string>)
    requires GainedFiles(rs, files)
    ensures NoDups(files) && forall file :: file in files <==> Gained(rs, file)
  {
    hide Gained;
  }

  lemma OpenMeans(rs: seq<Report>, threshold: real, files: seq<string>)
    requires GainedFiles(rs, files) && Open(rs, threshold)
    ensures NoDups(files) && forall file :: file in files <==> Gained(rs, file)
    ensures forall k: nat :: k < |rs| ==> !SecondZero(rs, k) && !AtThreshold(rs[k].coverage, threshold)
  {
    hide Gained, SecondZero, AtThreshold;
  }

  lemma NothingYet(threshold: real)
    ensures Proper([]) && Prs([]) == 0 && Tracked([], map[]) && GainedFiles([], []) && Open([], threshold)
  {
  }

  lemma DeltaIs(rs: seq<Report>, k: nat)
    requires k < |rs|
    ensures Delta(rs, k) == if k == 0 then 0.0 else rs[k].coverage - rs[k - 1].coverage
  {
  }

  lemma SecondZeroEarlier(rs: seq<Report>, r: Report)
    ensures forall k: nat :: k < |rs| ==> (SecondZero(rs + [r], k) <==> SecondZero(rs, k))
  {
    forall k: nat | k < |rs| ensures SecondZero(rs + [r], k) <==> SecondZero(rs, k) {
      assert (rs + [r])[..k] == rs[..k] && Delta(rs + [r], k) == Delta(rs, k);
    }
  }
}
