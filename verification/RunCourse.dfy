/** The course of a whole run: which tasks are taken, in which order, and how each of them ends. */
module RunCourse {
  import opened Models
  import opened GitOps
  import opened Ledger
  import opened QueueSpec
  import opened Trace
  import opened RunSpec
  import opened DependencyGraph
  import opened Bundle
  import opened TaskCourse

  /** One task of the run: the rows and the world as they were when it was taken, and how it was disposed of. */
  datatype Turn = Turn(key: Key, before: map<Key, Task>, world: World, d: Disposition)

  function Fate(d: Disposition): Ending {
    match d case CommittedAt(sha) => Commits(sha) case ParkedFor(reason, _) => Parks(reason)
  }

  /** The turn takes the polled task, ends it as its inputs say, and leaves these rows and this world. */
  ghost predicate Plays(env: Env, run: string, t: Turn, T: map<Key, Task>, w: World) {
    && IsNext(t.before, run, t.key) && QueuedEnd(env, t.key, t.world) == End(Fate(t.d), w)
    && Disposed(t.before, T, t.key, t.d)
  }

  /** The turns follow one another, from these rows and this world to those. */
  ghost predicate Played(env: Env, run: string, turns: seq<Turn>, T0: map<Key, Task>, w0: World, T: map<Key, Task>,
                         w: World)
  {
    if turns == [] then T == T0 && w == w0
    else
      var (n, t) := (|turns| - 1, turns[|turns| - 1]);
      Played(env, run, turns[..n], T0, w0, t.before, t.world) && Plays(env, run, t, T, w)
  }

  /** After these turns the task polled next raises. */
  ghost predicate RaisedAfter(env: Env, run: string, turns: seq<Turn>, T0: map<Key, Task>, w0: World, exn: Exn) {
    exists T, w, key ::
      Played(env, run, turns, T0, w0, T, w) && IsNext(T, run, key) && QueuedEnd(env, key, w).ending == Raises(exn)
  }

  function CommitsIn(turns: seq<Turn>): seq<string> {
    if turns == [] then []
    else
      var t := turns[|turns| - 1];
      CommitsIn(turns[..|turns| - 1]) + if t.d.CommittedAt? then [t.key.slug] else []
  }

  function ParksIn(turns: seq<Turn>): seq<string> {
    if turns == [] then []
    else
      var t := turns[|turns| - 1];
      ParksIn(turns[..|turns| - 1]) + if t.d.ParkedFor? then [t.key.slug] else []
  }

  function HaltsIn(turns: seq<Turn>): seq<HaltRecord> {
    if turns == [] then []
    else
      var t := turns[|turns| - 1];
      HaltsIn(turns[..|turns| - 1]) + if t.d.ParkedFor? then t.d.halts else []
  }

  lemma NothingPlayed(env: Env, run: string, T: map<Key, Task>, w: World)
    ensures Played(env, run, [], T, w, T, w) && CommitsIn([]) == [] && ParksIn([]) == [] && HaltsIn([]) == []
  {
  }

  lemma OneTurnMore(env: Env, run: string, turns: seq<Turn>, T0: map<Key, Task>, w0: World, t: Turn, T: map<Key, Task>,
                    w: World)
    requires Played(env, run, turns, T0, w0, t.before, t.world) && Plays(env, run, t, T, w)
    ensures Played(env, run, turns + [t], T0, w0, T, w)
    ensures CommitsIn(turns + [t]) == CommitsIn(turns) + if t.d.CommittedAt? then [t.key.slug] else []
    ensures ParksIn(turns + [t]) == ParksIn(turns) + if t.d.ParkedFor? then [t.key.slug] else []
    ensures HaltsIn(turns + [t]) == HaltsIn(turns) + if t.d.ParkedFor? then t.d.halts else []
  {
    hide Plays;
    assert (turns + [t])[..|turns|] == turns;
  }

  lemma TurnPlays(env: Env, run: string, t: Turn, T: map<Key, Task>, w: World)
    requires IsNext(t.before, run, t.key) && Disposed(t.before, T, t.key, t.d)
    requires QueuedEnd(env, t.key, t.world).ending == Fate(t.d) && QueuedEnd(env, t.key, t.world).world == w
    ensures Plays(env, run, t, T, w)
  {
    hide QueuedEnd, Disposed, IsNext;
  }

  lemma RaisesNext(env: Env, run: string, turns: seq<Turn>, T0: map<Key, Task>, w0: World, T: map<Key, Task>, w: World,
                   key: Key, exn: Exn)
    requires Played(env, run, turns, T0, w0, T, w) && IsNext(T, run, key)
    requires QueuedEnd(env, key, w).ending == Raises(exn)
    ensures RaisedAfter(env, run, turns, T0, w0, exn)
  {
    hide Played, IsNext, QueuedEnd;
  }

  /** Every committed slug of the course was decided by a PASS that won through, from the world in which its turn began;
      every parked one was not. */
  lemma {:induction false} CommittedWonThrough(env: Env, run: string, turns: seq<Turn>, T0: map<Key, Task>, w0: World,
                                               T: map<Key, Task>, w: World, k: nat)
    requires Played(env, run, turns, T0, w0, T, w) && k < |turns|
    ensures var (t, at) := (turns[k], turns[k].world.at);
            t.d.CommittedAt? <==>
            && (forall i :: at <= i < at + 5 ==> !env.answers(i).fails)
            && WinsThrough(env, t.key, t.world.(at := at + 5))
    decreases |turns|
  {
    hide IsNext, Disposed, WinsThrough, TaskEnd;
    var n := |turns| - 1;
    if k < n {
      CommittedWonThrough(env, run, turns[..n], T0, w0, turns[n].before, turns[n].world, k);
    } else {
      var t, at := turns[k], turns[k].world.at;
      CommitsExactly(env, t.key, t.world.(at := at + 5));
      RefusedExactly(env.answers, at);
    }
  }

  // ------------------------------------------------------------------ the rows a run starts with

  /** One queued row for each valid spec of the request, with what the spec declares, in an order in which declared
      dependencies come first. */
  ghost predicate FreshRows(T: map<Key, Task>, run: string, specs: map<string, Spec>, lint: bool, slugs: seq<string>) {
    && (forall s :: Key(run, s) in T <==> s in slugs && Admissible(specs, lint, s))
    && (forall s :: Key(run, s) in T ==>
          s in specs && T[Key(run, s)].status == Queued && RecordsDeps(specs[s], T[Key(run, s)].dependsOn))
    && forall s, d :: Key(run, s) in T && Key(run, d) in T && Declares(specs[s], d) ==>
         T[Key(run, d)].buildOrder < T[Key(run, s)].buildOrder
  }

  lemma StartIsFresh(T: map<Key, Task>, run: string, specs: map<string, Spec>, lint: bool, slugs: seq<string>,
                     order: seq<string>)
    requires Between(T, run, ValidGraph(specs, lint, slugs), order, [], [], [])
    requires BuildOrder(ValidGraph(specs, lint, slugs), order)
    ensures FreshRows(T, run, specs, lint, slugs)
  {
    hide Declares, RecordsDeps, Admissible, Deps, NoDups, Safe, Bundle.Gate;
    var g := ValidGraph(specs, lint, slugs);
    forall s ensures s in g <==> s in slugs && Admissible(specs, lint, s) {
      GateMeans(specs, lint, s);
      AdmissibleExists(specs, lint, s);
    }
    forall s ensures Key(run, s) in T <==> s in order {
      if s in order {
        var i :| 0 <= i < |order| && order[i] == s;
      }
      if Key(run, s) in T { assert Key(run, s).slug in order; }
    }
    forall s | Key(run, s) in T
      ensures s in specs && T[Key(run, s)].status == Queued && RecordsDeps(specs[s], T[Key(run, s)].dependsOn)
    {
      var i :| 0 <= i < |order| && order[i] == s;
      assert T[Key(run, order[i])].dependsOn == g[order[i]];
      DepsAre(specs[s]);
      assert Slugs([]) == [];
    }
    forall s, d | Key(run, s) in T && Key(run, d) in T && Declares(specs[s], d)
      ensures T[Key(run, d)].buildOrder < T[Key(run, s)].buildOrder
    {
      DepsAre(specs[s]);
      var i :| 0 <= i < |order| && order[i] == s;
      assert d in g[order[i]] && d in g;
      var j :| 0 <= j < i && order[j] == d;
      assert T[Key(run, order[j])].buildOrder == j && T[Key(run, order[i])].buildOrder == i;
    }
  }
}
