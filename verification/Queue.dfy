/** TaskQueue: polling, claiming, write-ahead transitions, parking with transitive halting, crash recovery. */
module Queue {
  import opened Models
  import opened Ledger
  import opened QueueSpec

  class TaskQueue {
    const ledger: InMemoryLedger
    const runId: string
    const sessionId: string

    constructor (ledger: InMemoryLedger, runId: string, sessionId: string)
      ensures this.ledger == ledger && this.runId == runId && this.sessionId == sessionId
    {
      this.ledger, this.runId, this.sessionId := ledger, runId, sessionId;
    }

    /** The queued row of this run with the lowest build order, the earliest inserted one on ties. */
    method NextQueued() returns (r: TaskRow?)
      requires ledger.Valid() && ledger.Ordered()
      ensures r == null <==> NoneQueued(ledger.state.tasks, runId)
      ensures r != null ==> ledger.Owns(r) && IsNext(ledger.state.tasks, runId, r.key)
      ensures r != null ==> exists i :: First(r, i, |ledger.order|)
    {
      r := null;
      ghost var at := 0;
      for n := 0 to |ledger.order|
        invariant r == null ==> forall j :: 0 <= j < n ==> !IsQueued(ledger.order[j])
        invariant r != null ==> ledger.Owns(r) && r.key.run == runId && r.status == Queued
        invariant r != null ==> First(r, at, n)
      {
        var k := ledger.order[n];
        if IsQueued(k) && (r == null || ledger.taskRows[k].buildOrder < r.buildOrder) {
          r := ledger.taskRows[k];
          at := n;
        }
      }
    }

    /** Among the first `n` rows, `r` is the queued one of lowest build order, at position `at`. */
    ghost predicate First(r: TaskRow, at: int, n: nat)
      requires ledger.Valid() && ledger.Ordered()
      reads ledger, ledger.Rows()
    {
      && 0 <= at < n <= |ledger.order| && ledger.order[at] == r.key
      && forall j :: 0 <= j < n && IsQueued(ledger.order[j]) ==>
           && r.buildOrder <= ledger.taskRows[ledger.order[j]].buildOrder
           && (j < at ==> r.buildOrder < ledger.taskRows[ledger.order[j]].buildOrder)
    }

    predicate IsQueued(k: Key)
      reads ledger`taskRows, ledger.Rows()
    {
      k in ledger.taskRows && k.run == runId && ledger.taskRows[k].status == Queued
    }

    method Claim(task: TaskRow, now: int) returns (ok: bool)
      requires ledger.Valid() && ledger.Owns(task) && task.key.run == runId
      modifies ledger`brs, ledger`writeLog, ledger`claimed, ledger`state, task
      ensures ledger.Valid() && (ledger.state, ok) == Ledger.Claim(old(ledger.state), task.key, sessionId, now)
      ensures ledger.writeLog == old(ledger.writeLog) + if ok then [Claimed(task.key)] else []
      ensures ledger.claimed == old(ledger.claimed) + if ok then [task.key] else []
    {
      ok := ledger.ClaimTask(task.key, sessionId, now);
    }

    method Advance(task: TaskRow, status: TaskStatus, f: Fields) returns (o: Outcome)
      requires ledger.Valid() && ledger.Owns(task) && task.key.run == runId
      modifies ledger`brs, ledger`writeLog, ledger`state, task
      ensures ledger.Valid() && (ledger.state, o) == QueueSpec.Advance(old(ledger.state), task.key, status, f)
      ensures ledger.writeLog == old(ledger.writeLog) + if o.Ok? then [Updated(task.key, status)] else []
    {
      if !CanMove(task.status, status) { return Raise(InvalidTransition); }
      o := WriteThrough(task, status, f);
    }

    /** The aliased row is written first, then the ledger is asked to record the same. */
    method WriteThrough(task: TaskRow, status: TaskStatus, f: Fields) returns (o: Outcome)
      requires ledger.Valid() && ledger.Owns(task)
      modifies ledger`brs, ledger`writeLog, ledger`state, task
      ensures ledger.Valid()
      ensures (ledger.state, o) == Update(WriteRow(old(ledger.state), task.key, status, f), task.key, status, f)
      ensures ledger.writeLog == old(ledger.writeLog) + if o.Ok? then [Updated(task.key, status)] else []
    {
      task.status := status;
      task.data := task.data + f;
      ledger.state := WriteRow(ledger.state, task.key, status, f);
      o := ledger.UpdateTaskStatus(task.key, status, f);
    }

    /** Park the task, then halt everything that transitively depends on it. */
    method Park(task: TaskRow, reason: string) returns (o: Outcome, halts: seq<HaltRecord>)
      requires ledger.Valid() && ledger.Ordered() && ledger.Owns(task) && task.key.run == runId
      modifies ledger`brs, ledger`writeLog, ledger`state, ledger.Rows()
      ensures o == if Terminal(old(task.status)) then Raise(InvalidTransition) else Ok
      ensures ledger.Valid() && (o.Raise? ==> ledger.state == old(ledger.state))
      ensures old(ledger.writeLog) <= ledger.writeLog
      ensures o.Ok? ==>
        && ledger.state == QueueSpec.Park(old(ledger.state), task.key, reason)
        && Records(ParkedTasks(old(ledger.state), task.key, reason), runId, task.key.slug, halts,
                   HaltSet(ParkedTasks(old(ledger.state), task.key, reason), runId, task.key.slug))
    {
      hide HaltSet, HaltAll, Records, InMemoryLedger.Ordered;
      TransitionTable(task.status, Parked);
      halts := [];
      if !CanMove(task.status, Parked) { return Raise(InvalidTransition), []; }
      AdvanceWrites(ledger.state, task.key, Parked, ParkFields(reason));
      o := Advance(task, Parked, ParkFields(reason));
      halts := HaltDependents(task.key.slug);
    }

    /** Worklist closure over reverse dependencies; `work` is a stack. */
    method HaltDependents(parkedSlug: string) returns (records: seq<HaltRecord>)
      requires ledger.Valid() && ledger.Ordered()
      modifies ledger`brs, ledger`writeLog, ledger`state, ledger.Rows()
      ensures old(ledger.writeLog) <= ledger.writeLog
      ensures ledger.Valid() && ledger.state ==
              HaltAll(old(ledger.state), HaltSet(old(ledger.state.tasks), runId, parkedSlug))
      ensures Records(old(ledger.state.tasks), runId, parkedSlug, records,
                      HaltSet(old(ledger.state.tasks), runId, parkedSlug))
    {
      hide HaltAll, Halted, Records, HaltSet, Feeds, Universe;
      ghost var before := ledger.state;
      ghost var T := before.tasks;
      ghost var h: set<Key> := {};
      HaltNone(before, runId, parkedSlug);
      records := [];
      var visited: set<string> := {};
      var work := [parkedSlug];
      while work != []
        invariant ledger.Valid() && ledger.state == HaltAll(before, h) && old(ledger.writeLog) <= ledger.writeLog
        invariant Halted(T, runId, parkedSlug, records, h)
        invariant Frontier(runId, parkedSlug, h, visited, work)
        invariant forall v, k :: v in visited && k in T && Feeds(T, runId, v, k) && k.slug != parkedSlug ==> k in h
        invariant T.Keys == ledger.taskRows.Keys
        invariant visited <= Universe(T, parkedSlug)
        decreases Universe(T, parkedSlug) - visited, |work|
      {
        WorkInUniverse(T, runId, parkedSlug, records, h, visited, work);
        var cause := work[|work| - 1];
        work := work[..|work| - 1];
        if cause in visited { continue; }
        visited := visited + {cause};
        records, work, h := HaltDirect(parkedSlug, cause, visited, records, work, before, h);
      }
      HaltSetIs(T, runId, parkedSlug, records, h, visited);
    }

    /** One pass over the rows: halt every unvisited row that depends directly on `cause`. */
    method HaltDirect(parkedSlug: string, cause: string, visited: set<string>, records: seq<HaltRecord>,
                      work: seq<string>, ghost before: LedgerState, ghost h: set<Key>)
      returns (records': seq<HaltRecord>, work': seq<string>, ghost h': set<Key>)
      requires ledger.Valid() && ledger.Ordered() && ledger.state == HaltAll(before, h)
      requires Halted(before.tasks, runId, parkedSlug, records, h)
      requires Frontier(runId, parkedSlug, h, visited, work) && cause in visited && parkedSlug in visited
      requires before.tasks.Keys == ledger.taskRows.Keys
      modifies ledger`brs, ledger`writeLog, ledger`state, ledger.Rows()
      ensures ledger.Valid() && ledger.state == HaltAll(before, h') && h <= h'
      ensures old(ledger.writeLog) <= ledger.writeLog
      ensures Halted(before.tasks, runId, parkedSlug, records', h')
      ensures Frontier(runId, parkedSlug, h', visited, work')
      ensures forall k :: k in before.tasks && Feeds(before.tasks, runId, cause, k) && k.slug != parkedSlug ==> k in h'
    {
      hide HaltAll, Frontier, Halted, Feeds, InMemoryLedger.Valid;
      records', work', h' := records, work, h;
      for n := 0 to |ledger.order|
        invariant ledger.Valid() && ledger.state == HaltAll(before, h') && h <= h'
        invariant old(ledger.writeLog) <= ledger.writeLog
        invariant Halted(before.tasks, runId, parkedSlug, records', h')
        invariant Frontier(runId, parkedSlug, h', visited, work')
        invariant forall j :: 0 <= j < n && Feeds(before.tasks, runId, cause, ledger.order[j]) ==>
                    ledger.order[j].slug == parkedSlug || ledger.order[j] in h'
      {
        records', work', h' :=
          HaltIfDirect(ledger.order[n], parkedSlug, cause, visited, records', work', before, h');
      }
      forall k | k in before.tasks && Feeds(before.tasks, runId, cause, k) && k.slug != parkedSlug ensures k in h' {
        assert k in ledger.order;
      }
    }

    /** The test and the write for one row of that pass. */
    method HaltIfDirect(k: Key, parkedSlug: string, cause: string, visited: set<string>, records: seq<HaltRecord>,
                        work: seq<string>, ghost before: LedgerState, ghost h: set<Key>)
      returns (records': seq<HaltRecord>, work': seq<string>, ghost h': set<Key>)
      requires ledger.Valid() && k in ledger.taskRows && ledger.state == HaltAll(before, h)
      requires Halted(before.tasks, runId, parkedSlug, records, h)
      requires Frontier(runId, parkedSlug, h, visited, work) && cause in visited && parkedSlug in visited
      modifies ledger`brs, ledger`writeLog, ledger`state, ledger.taskRows[k]
      ensures ledger.Valid() && ledger.state == HaltAll(before, h') && h <= h'
      ensures old(ledger.writeLog) <= ledger.writeLog
      ensures Halted(before.tasks, runId, parkedSlug, records', h')
      ensures Frontier(runId, parkedSlug, h', visited, work')
      ensures Feeds(before.tasks, runId, cause, k) ==> k.slug == parkedSlug || k in h'
    {
      records', work', h' := records, work, h;
      var row := ledger.taskRows[k];
      HaltedStatus(before.tasks, h, runId, cause, k);
      if k.run == runId && k.slug !in visited && !row.independent
         && cause in row.dependsOn && !Terminal(row.status)
      {
        HaltStep(before, runId, parkedSlug, records, h, visited, work, cause, k);
        var o := WriteThrough(row, DependentHalted, map[]);
        records' := records + [HaltRecord(k.slug, cause)];
        work' := work + [k.slug];
        h' := h + {k};
      } else if Feeds(before.tasks, runId, cause, k) && k.slug in visited {
        assert Key(runId, k.slug) == k;
      }
    }

    /** Stale-claim recovery; whatever it requeues it also releases. */
    method RecoverStale(now: int, threshold: int) returns (recovered: seq<string>)
      requires ledger.Valid() && ledger.Ordered()
      modifies ledger`brs, ledger`writeLog, ledger`state, ledger.Rows()
      ensures ledger.Valid() && (ledger.state, recovered) ==
              Sweep(old(ledger.state), RunKeys(ledger.order, runId), Recovering(now, threshold))
      ensures old(ledger.writeLog) <= ledger.writeLog
    {
      recovered := SweepRun(Recovering(now, threshold));
    }

    method ReapOrphans(now: int, minutes: int) returns (reaped: seq<string>)
      requires ledger.Valid() && ledger.Ordered()
      modifies ledger`brs, ledger`writeLog, ledger`state, ledger.Rows()
      ensures ledger.Valid() && (ledger.state, reaped) ==
              Sweep(old(ledger.state), RunKeys(ledger.order, runId), Reaping(now, minutes))
      ensures old(ledger.writeLog) <= ledger.writeLog
    {
      reaped := SweepRun(Reaping(now, minutes));
    }

    method SweepOne(k: Key, decide: Decision) returns (hit: bool)
      requires ledger.Valid() && k in ledger.taskRows
      modifies ledger`brs, ledger`writeLog, ledger`state, ledger.taskRows[k]
      ensures ledger.Valid() && ledger.state == SweepRow(old(ledger.state), k, decide)
      ensures old(ledger.writeLog) <= ledger.writeLog
      ensures hit == decide(old(ledger.state).tasks[k], HasPass(old(ledger.state), k)).Some?
    {
      var row := ledger.taskRows[k];
      match decide(row.View(), ledger.HasPassLedgerRow(k))
      case None => return false;
      case Some(w) =>
        var o := ledger.UpdateTaskStatus(k, w.status, w.fields);
        return true;
    }

    /** The rows of this run, listed before any of them is changed. */
    method RunRows() returns (ks: seq<Key>)
      requires ledger.Valid() && ledger.Ordered()
      ensures ks == RunKeys(ledger.order, runId)
      ensures forall k :: k in ks ==> k in ledger.taskRows && k in ledger.state.tasks
    {
      ks := [];
      for n := 0 to |ledger.order|
        invariant ks == RunKeys(ledger.order[..n], runId)
      {
        RunKeysSnoc(ledger.order, n, runId);
        if ledger.order[n].run == runId { ks := ks + [ledger.order[n]]; }
      }
      assert ledger.order[..|ledger.order|] == ledger.order;
    }

    method SweepRun(decide: Decision) returns (hits: seq<string>)
      requires ledger.Valid() && ledger.Ordered()
      modifies ledger`brs, ledger`writeLog, ledger`state, ledger.Rows()
      ensures ledger.Valid() && (ledger.state, hits) == Sweep(old(ledger.state), RunKeys(ledger.order, runId), decide)
      ensures old(ledger.writeLog) <= ledger.writeLog
    {
      hide InMemoryLedger.Valid, Sweep, RunKeys, SweepRow, HasPass;
      var ks := RunRows();
      ghost var before := ledger.state;
      hits := [];
      SweepStart(before, decide);
      for n := 0 to |ks|
        invariant ledger.Valid()
        invariant forall k :: k in ks[..n] ==> k in before.tasks
        invariant old(ledger.writeLog) <= ledger.writeLog
        invariant (ledger.state, hits) == Sweep(before, ks[..n], decide)
      {
        SweepNext(before, ks, n, decide);
        assert hits + [] == hits;
        var hit := SweepOne(ks[n], decide);
        if hit { hits := hits + [ks[n].slug]; }
      }
      assert ks[..|ks|] == ks;
    }
  }
}
