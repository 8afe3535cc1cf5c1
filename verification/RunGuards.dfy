/** bundle_runner.py: the single-flight guard at the start of a run, and the per-spec circuit breaker. */
module RunGuards {
  import opened Models
  import opened Ledger
  import opened QueueSpec

  // ------------------------------------------------------------------ single flight

  const IN_FLIGHT: set<TaskStatus> := {Building, Verifying, Merging}

  /** `query_non_terminal_tasks`: the requested rows, of any run, in one of four statuses. */
  predicate Queried(tasks: map<Key, Task>, slugs: seq<string>, k: Key) {
    k in tasks && k.slug in slugs && tasks[k].status in IN_FLIGHT + {Queued}
  }

  /** A fresh, actively claimed row: the only kind that blocks. */
  predicate Blocks(tasks: map<Key, Task>, slugs: seq<string>, stale: Key -> bool, k: Key) {
    Queried(tasks, slugs, k) && !stale(k) && tasks[k].status in IN_FLIGHT
  }

  /** Which rows block, and which are reset: the rows of requested specs that are building, verifying or merging block
      while they are fresh; stale ones are reset, and so are stale queued ones. */
  lemma BlocksExactly(tasks: map<Key, Task>, slugs: seq<string>, stale: Key -> bool, k: Key)
    ensures Blocks(tasks, slugs, stale, k) <==>
            && k in tasks && k.slug in slugs && !stale(k)
            && (tasks[k].status == Building || tasks[k].status == Verifying || tasks[k].status == Merging)
    ensures Queried(tasks, slugs, k) <==>
              k in tasks && k.slug in slugs && tasks[k].status in {Queued, Building, Verifying, Merging}
  {
  }

  function StaleKeys(order: seq<Key>, tasks: map<Key, Task>, slugs: seq<string>, stale: Key -> bool): (r: seq<Key>)
    ensures forall k :: k in r ==> k in tasks
  {
    if order == [] then []
    else
      var k := order[|order| - 1];
      StaleKeys(order[..|order| - 1], tasks, slugs, stale) + if Queried(tasks, slugs, k) && stale(k) then [k] else []
  }

  lemma {:induction false} StaleKeysAre(order: seq<Key>, tasks: map<Key, Task>, slugs: seq<string>, stale: Key -> bool)
    requires NoDups(order)
    ensures NoDups(StaleKeys(order, tasks, slugs, stale))
    ensures forall k :: k in StaleKeys(order, tasks, slugs, stale) <==>
                          k in order && Queried(tasks, slugs, k) && stale(k)
  {
    if order != [] {
      StaleKeysAre(order[..|order| - 1], tasks, slugs, stale);
      var k := order[|order| - 1];
      assert k !in order[..|order| - 1];
      assert order == order[..|order| - 1] + [k];
    }
  }

  /** Back to queued, without the dead claim. */
  function Resetting(): Decision { (t, pass) => Some(Write(Queued, Unclaim)) }

  /** `_check_single_flight`; `stale` says which rows are older than the threshold or have no readable age. The
      rows are read first; stale ones are reset even when another row then blocks the run. */
  method CheckSingleFlight(ledger: InMemoryLedger, slugs: seq<string>, stale: Key -> bool)
    returns (locked: bool, blocking: seq<Key>)
    requires ledger.Valid() && ledger.Ordered()
    modifies ledger`brs, ledger`writeLog, ledger`state, ledger.Rows()
    ensures ledger.Valid() && ledger.Ordered()
    ensures ledger.state ==
            Sweep(old(ledger.state), StaleKeys(ledger.order, old(ledger.state).tasks, slugs, stale), Resetting()).0
    ensures old(ledger.writeLog) <= ledger.writeLog
    ensures forall k :: k in blocking <==> Blocks(old(ledger.state).tasks, slugs, stale, k)
    ensures locked <==> blocking != []
  {
    hide Sweep, StaleKeys, Blocks, InMemoryLedger.Valid, InMemoryLedger.Ordered;
    var expired;
    expired, blocking := Classify(ledger, slugs, stale);
    ResetRows(ledger, expired);
    locked := blocking != [];
  }

  method ResetRows(ledger: InMemoryLedger, expired: seq<Key>)
    requires ledger.Valid() && ledger.Ordered() && forall k :: k in expired ==> k in ledger.state.tasks
    modifies ledger`brs, ledger`writeLog, ledger`state, ledger.Rows()
    ensures ledger.Valid() && ledger.Ordered()
    ensures ledger.state == Sweep(old(ledger.state), expired, Resetting()).0
    ensures old(ledger.writeLog) <= ledger.writeLog
  {
    hide Sweep, NoDups, Update, InMemoryLedger.Valid;
    ghost var before := ledger.state;
    SweepNone(before);
    for n := 0 to |expired|
      invariant ledger.Valid() && ledger.Ordered()
      invariant old(ledger.writeLog) <= ledger.writeLog
      invariant forall k :: k in expired[..n] ==> k in before.tasks
      invariant ledger.state == Sweep(before, expired[..n], Resetting()).0
    {
      assert expired[..n + 1] == expired[..n] + [expired[n]] && expired[n] in expired;
      ResetNext(before, expired[..n], expired[n]);
      var o := ledger.UpdateTaskStatus(expired[n], Queued, Unclaim);
    }
    assert expired[..|expired|] == expired;
  }

  method Classify(ledger: InMemoryLedger, slugs: seq<string>, stale: Key -> bool)
    returns (expired: seq<Key>, live: seq<Key>)
    requires ledger.Valid() && ledger.Ordered()
    ensures expired == StaleKeys(ledger.order, ledger.state.tasks, slugs, stale)
    ensures forall k :: k in expired ==> k in ledger.taskRows
    ensures forall k :: k in live <==> Blocks(ledger.state.tasks, slugs, stale, k)
  {
    expired, live := [], [];
    for n := 0 to |ledger.order|
      invariant expired == StaleKeys(ledger.order[..n], ledger.state.tasks, slugs, stale)
      invariant forall k :: k in expired ==> k in ledger.taskRows
      invariant forall k :: k in live <==> k in ledger.order[..n] && Blocks(ledger.state.tasks, slugs, stale, k)
    {
      var k := ledger.order[n];
      var row := ledger.taskRows[k];
      assert ledger.order[..n + 1] == ledger.order[..n] + [k];
      assert ledger.order[..n + 1][..n] == ledger.order[..n];
      if k.slug in slugs && row.status in IN_FLIGHT + {Queued} {
        if stale(k) {
          expired := expired + [k];
        } else if row.status in IN_FLIGHT {
          live := live + [k];
        }
      }
    }
    assert ledger.order[..|ledger.order|] == ledger.order;
  }

  lemma SweepNone(s: LedgerState)
    ensures Sweep(s, [], Resetting()).0 == s
  {
  }

  lemma ResetNext(s: LedgerState, ks: seq<Key>, k: Key)
    requires (forall x :: x in ks ==> x in s.tasks) && k in s.tasks
    ensures forall x :: x in ks + [k] ==> x in s.tasks
    ensures Sweep(s, ks + [k], Resetting()).0 == Update(Sweep(s, ks, Resetting()).0, k, Queued, Unclaim).0
    ensures Update(Sweep(s, ks, Resetting()).0, k, Queued, Unclaim).1 == Ok
  {
    SweepSnoc(s, ks, k, Resetting());
  }

  /** What the guard does: stale rows of the requested specs become queued and claimable, every other row stays
      as it is, no verdict is lost. And when it lets the run pass, no requested spec is left building, verifying
      or merging in any run: what is not finished is queued, or is in CI gating, which the query does not see. */
  lemma {:induction false} GuardEffect(s: LedgerState, order: seq<Key>, slugs: seq<string>, stale: Key -> bool, k: Key)
    requires NoDups(order) && (forall x :: x in order <==> x in s.tasks) && k in s.tasks && Invariant(s)
    ensures var ks := StaleKeys(order, s.tasks, slugs, stale);
            && (forall x :: x in ks ==> x in s.tasks)
            && var r := Sweep(s, ks, Resetting()).0;
               && Keeps(s, r) && k in r.tasks
               && (if Queried(s.tasks, slugs, k) && stale(k)
                   then r.tasks[k].status == Queued && Claimable(r.tasks[k]) else SameAt(r, s, k))
               && ((forall x :: !Blocks(s.tasks, slugs, stale, x)) && k.slug in slugs ==>
                     Terminal(r.tasks[k].status) || r.tasks[k].status in {Queued, CiGating})
  {
    var ks := StaleKeys(order, s.tasks, slugs, stale);
    StaleKeysAre(order, s.tasks, slugs, stale);
    hide Sweep, StaleKeys, Invariant, NoDups, Keeps;
    SweepRowwise(s, ks, Resetting(), k);
    assert Sound(Resetting());
    SweepKeeps(s, ks, Resetting());
    assert !Blocks(s.tasks, slugs, stale, k) || Blocks(s.tasks, slugs, stale, k);
    if Queried(s.tasks, slugs, k) && stale(k) { ResetRow(s, k); }
  }

  lemma ResetRow(s: LedgerState, k: Key)
    requires k in s.tasks
    ensures k in SweepRow(s, k, Resetting()).tasks
    ensures SweepRow(s, k, Resetting()).tasks[k].status == Queued && Claimable(SweepRow(s, k, Resetting()).tasks[k])
  {
  }

  /** While no row is in CI gating, a passed guard means that whatever is not finished of the requested specs is
      queued. `QueueSpec.NeverGating` says that none ever is. */
  lemma GuardClears(s: LedgerState, order: seq<Key>, slugs: seq<string>, stale: Key -> bool, k: Key)
    requires NoDups(order) && (forall x :: x in order <==> x in s.tasks) && k in s.tasks && Invariant(s) && NoGating(s)
    requires (forall x :: !Blocks(s.tasks, slugs, stale, x)) && k.slug in slugs
    ensures var ks := StaleKeys(order, s.tasks, slugs, stale);
            (forall x :: x in ks ==> x in s.tasks)
            && var r := Sweep(s, ks, Resetting()).0;
               k in r.tasks && (Terminal(r.tasks[k].status) || r.tasks[k].status == Queued)
  {
    hide Sweep, StaleKeys, Invariant, Keeps;
    GuardEffect(s, order, slugs, stale, k);
  }

  /** What becomes of each row: requeued and claimable if the guard ran and found it requested and stale, else as
      it was. */
  ghost predicate OthersGuarded(T: map<Key, Task>, T': map<Key, Task>, slugs: seq<string>, stale: Key -> bool,
                                force: bool)
  {
    forall k :: k in T ==>
      && k in T'
      && if !force && Queried(T, slugs, k) && stale(k) then T'[k].status == Queued && Claimable(T'[k])
         else T'[k] == T[k]
  }

  lemma Unguarded(T: map<Key, Task>, slugs: seq<string>, stale: Key -> bool)
    ensures OthersGuarded(T, T, slugs, stale, true)
  {
  }

  lemma GuardRows(s: LedgerState, order: seq<Key>, slugs: seq<string>, stale: Key -> bool)
    requires NoDups(order) && (forall x :: x in order <==> x in s.tasks) && Invariant(s)
    ensures var ks := StaleKeys(order, s.tasks, slugs, stale);
            (forall x :: x in ks ==> x in s.tasks)
            && var r := Sweep(s, ks, Resetting()).0;
               Invariant(r) && OthersGuarded(s.tasks, r.tasks, slugs, stale, false)
  {
    hide Sweep, StaleKeys, Invariant, NoDups;
    var r := Sweep(s, StaleKeys(order, s.tasks, slugs, stale), Resetting()).0;
    StaleKeysAre(order, s.tasks, slugs, stale);
    SweepKeeps(s, StaleKeys(order, s.tasks, slugs, stale), Resetting());
    forall k | k in s.tasks
      ensures k in r.tasks && if Queried(s.tasks, slugs, k) && stale(k)
                              then r.tasks[k].status == Queued && Claimable(r.tasks[k]) else r.tasks[k] == s.tasks[k]
    {
      GuardEffect(s, order, slugs, stale, k);
    }
  }

  // ------------------------------------------------------------------ circuit breaker

  const OPERATIONAL: set<string> :=
    {"orphaned-stale-claim", "verify-malformed", "spec-body-unavailable", "manifest-lint-failed"}

  predicate Operational(reason: string) {
    reason in OPERATIONAL || (|reason| >= 12 && reason[..12] == "operational-")
  }

  /** The park reasons the breaker does not count. */
  lemma OperationalExactly(reason: string)
    ensures Operational(reason) <==>
              || reason == "orphaned-stale-claim" || reason == "verify-malformed" || reason == "spec-body-unavailable"
              || reason == "manifest-lint-failed" || exists rest :: reason == "operational-" + rest
  {
    if |reason| >= 12 { assert reason == reason[..12] + reason[12..]; }
  }

  /** Python's `list(reversed(reasons))[:limit]`. */
  function Recent(reasons: seq<string>, limit: int): seq<string> {
    var take := if limit >= |reasons| then |reasons| else if limit >= 0 then limit
                else if |reasons| + limit > 0 then |reasons| + limit else 0;
    Reverse(reasons[|reasons| - take..])
  }

  function Reverse(s: seq<string>): (r: seq<string>)
    ensures |r| == |s| && forall i :: 0 <= i < |s| ==> r[i] == s[|s| - 1 - i]
  {
    if s == [] then [] else Reverse(s[1..]) + [s[0]]
  }

  function Substantive(reasons: seq<string>): seq<string> {
    if reasons == [] then [] else (if Operational(reasons[0]) then [] else [reasons[0]]) + Substantive(reasons[1..])
  }

  predicate AllSame(s: seq<string>) { s != [] && forall i :: 0 <= i < |s| ==> s[i] == s[0] }

  /** `_circuit_broken`, on the park reasons recorded for the spec in this run, oldest first. */
  function CircuitBroken(parks: seq<string>, n: int): Option<string> {
    var reasons := Substantive(Recent(parks, n));
    if |reasons| >= n && AllSame(reasons) then Some(reasons[0]) else None
  }

  lemma {:induction false} SubstantiveWhole(s: seq<string>)
    ensures |Substantive(s)| <= |s|
    ensures |Substantive(s)| == |s| <==> forall i :: 0 <= i < |s| ==> !Operational(s[i])
    ensures |Substantive(s)| == |s| ==> Substantive(s) == s
  {
    hide Operational;
    if s != [] { SubstantiveWhole(s[1..]); }
  }

  /** The parks the breaker looks at: the last `n` for a limit of `n`, and for a negative one, which the environment
      variable admits, all but the first `-n`. */
  function Window(parks: seq<string>, n: int): (lo: nat)
    ensures lo <= |parks|
  {
    if n >= |parks| then 0 else if n >= 0 then |parks| - n else if -n <= |parks| then -n else |parks|
  }

  lemma RecentAre(parks: seq<string>, n: int)
    ensures |Recent(parks, n)| == |parks| - Window(parks, n)
    ensures forall i :: 0 <= i < |Recent(parks, n)| ==> Recent(parks, n)[i] == parks[|parks| - 1 - i]
  {
  }

  /** Exactly when the breaker trips. For a limit `n >= 0`: `n` is positive, there are `n` parks, and the last `n`
      share one reason that is not operational. For `n < 0`: some park from index `-n` on is not operational, and
      all those that are not share one reason, however many there are. */
  lemma TripsExactly(parks: seq<string>, n: int, reason: string)
    ensures n >= 0 ==>
              (CircuitBroken(parks, n) == Some(reason) <==>
               && n > 0 && |parks| >= n && !Operational(reason)
               && forall i :: |parks| - n <= i < |parks| ==> parks[i] == reason)
    ensures n < 0 ==>
              (CircuitBroken(parks, n) == Some(reason) <==>
               && (exists i :: -n <= i < |parks| && !Operational(parks[i]))
               && forall i :: -n <= i < |parks| && !Operational(parks[i]) ==> parks[i] == reason)
  {
    hide Operational;
    var recent := Recent(parks, n);
    SubstantiveWhole(recent);
    SubstantiveAre(recent);
    RecentAre(parks, n);
    hide Recent, Substantive;
    var kept := Substantive(recent);
    forall i | Window(parks, n) <= i < |parks| ensures parks[i] == recent[|parks| - 1 - i] && parks[i] in recent { }
    if n >= 0 {
      if n > 0 && |parks| >= n && AllSame(recent) {
        forall i | |parks| - n <= i < |parks| ensures parks[i] == recent[0] {
          assert parks[i] == recent[|parks| - 1 - i];
        }
      }
    } else {
      NegativeTrips(parks, n, recent, kept, reason);
    }
  }

  /** The kept reasons are the parks of the window that are not operational. */
  lemma NegativeTrips(parks: seq<string>, n: int, recent: seq<string>, kept: seq<string>, reason: string)
    requires n < 0 && |recent| == |parks| - Window(parks, n)
    requires forall i :: 0 <= i < |recent| ==> recent[i] == parks[|parks| - 1 - i]
    requires forall r :: r in kept <==> r in recent && !Operational(r)
    ensures AllSame(kept) && kept[0] == reason <==>
              && (exists i :: -n <= i < |parks| && !Operational(parks[i]))
              && forall i :: -n <= i < |parks| && !Operational(parks[i]) ==> parks[i] == reason
  {
    hide Operational;
    forall i | -n <= i < |parks| ensures parks[i] in recent { assert parks[i] == recent[|parks| - 1 - i]; }
    if AllSame(kept) && kept[0] == reason {
      assert kept[0] in kept && kept[0] in recent;
      var j :| 0 <= j < |recent| && recent[j] == kept[0];
      assert !Operational(parks[|parks| - 1 - j]);
      forall i | -n <= i < |parks| && !Operational(parks[i]) ensures parks[i] == reason {
        assert parks[i] in kept;
        var m :| 0 <= m < |kept| && kept[m] == parks[i];
      }
    }
    if i :| -n <= i < |parks| && !Operational(parks[i]) {
      if forall i :: -n <= i < |parks| && !Operational(parks[i]) ==> parks[i] == reason {
        assert parks[i] in kept;
        forall m | 0 <= m < |kept| ensures kept[m] == reason {
          assert kept[m] in kept && kept[m] in recent;
          var j :| 0 <= j < |recent| && recent[j] == kept[m];
          assert parks[|parks| - 1 - j] == kept[m];
        }
      }
    }
  }

  lemma {:induction false} SubstantiveAre(s: seq<string>)
    ensures forall r :: r in Substantive(s) <==> r in s && !Operational(r)
  {
    hide Operational;
    if s != [] {
      SubstantiveAre(s[1..]);
      assert s == [s[0]] + s[1..];
    }
  }

  /** So with a negative limit a single park trips it, whatever the ones before were. */
  lemma NegativeLimitTripsEarly(parks: seq<string>, n: int)
    requires n < 0 && |parks| == -n + 1 && !Operational(parks[-n])
    ensures CircuitBroken(parks, n) == Some(parks[-n])
  {
    hide Operational, CircuitBroken;
    TripsExactly(parks, n, parks[-n]);
  }
}
