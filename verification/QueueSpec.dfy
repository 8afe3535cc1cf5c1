/** What the task queue does to the ledger, as functions, and what every sequence of its operations keeps. */
module QueueSpec {
  import opened Models
  import opened Ledger

  // ------------------------------------------------------------------ advance

  /** `advance` writes the aliased row first and only then asks the ledger, which may still refuse. */
  function Advance(s: LedgerState, key: Key, status: TaskStatus, f: Fields): (LedgerState, Outcome)
    requires key in s.tasks
  {
    if !CanMove(s.tasks[key].status, status) then (s, Raise(InvalidTransition))
    else Update(WriteRow(s, key, status, f), key, status, f)
  }

  lemma AdvanceWrites(s: LedgerState, key: Key, status: TaskStatus, f: Fields)
    requires key in s.tasks && CanMove(s.tasks[key].status, status)
    requires status == Committed ==> HasPass(s, key) || Carries(f, PASS)
    ensures Advance(s, key, status, f) == (UpsertBrs(WriteRow(s, key, status, f), key, status, f), Ok)
  {
    var w := WriteRow(s, key, status, f);
    assert w.tasks[key].data + f == w.tasks[key].data;
    assert WriteRow(w, key, status, f).tasks == w.tasks;
  }

  /** `advance` keeps the commit evidence exactly when a move to committed is backed by PASS; otherwise the
      row is left committed without evidence even though the call raised. */
  lemma AdvanceKeepsEvidence(s: LedgerState, key: Key, status: TaskStatus, f: Fields)
    requires Evidence(s) && key in s.tasks && CanMove(s.tasks[key].status, status)
    ensures Evidence(Advance(s, key, status, f).0) <==> (status == Committed ==> PassAfter(s, key, f))
    ensures status == Committed && !HasPass(s, key) && !Carries(f, PASS) ==>
            Advance(s, key, status, f) == (WriteRow(s, key, Committed, f), Raise(IntegrityError))
  {
    if status == Committed && !HasPass(s, key) && !Carries(f, PASS) {
      assert !HasPass(WriteRow(s, key, status, f), key);
      assert WriteRow(s, key, status, f).tasks[key].status == Committed;
    } else {
      AdvanceWrites(s, key, status, f);
      WriteEffect(s, key, status, f);
    }
  }

  /** The row to build next: queued, of this run, and of lowest build order among those. */
  predicate IsNext(T: map<Key, Task>, run: string, key: Key) {
    && key in T && key.run == run && T[key].status == Queued
    && forall k :: k in T && k.run == run && T[k].status == Queued ==> T[key].buildOrder <= T[k].buildOrder
  }

  predicate NoneQueued(T: map<Key, Task>, run: string) {
    forall k :: k in T && k.run == run ==> T[k].status != Queued
  }

  // ------------------------------------------------------------------ halting

  predicate Haltable(t: Task) { !t.independent && !Terminal(t.status) }

  /** Row `k` depends directly on `cause` and can still be halted. */
  predicate Feeds(T: map<Key, Task>, run: string, cause: string, k: Key) {
    k in T && k.run == run && Haltable(T[k]) && cause in T[k].dependsOn
  }

  /** A reverse-dependency path from the parked slug through haltable rows. */
  ghost predicate HaltPath(T: map<Key, Task>, run: string, root: string, p: seq<string>) {
    && |p| >= 1 && p[0] == root
    && forall i :: 0 < i < |p| ==> p[i] != root && Feeds(T, run, p[i - 1], Key(run, p[i]))
  }

  ghost predicate Reached(T: map<Key, Task>, run: string, root: string, k: Key) {
    k.run == run && exists p :: HaltPath(T, run, root, p) && |p| > 1 && p[|p| - 1] == k.slug
  }

  ghost function HaltSet(T: map<Key, Task>, run: string, root: string): set<Key> {
    set k | k in T && Reached(T, run, root, k)
  }

  ghost function HaltRow(s: LedgerState, k: Key): LedgerState
    requires k in s.tasks
  {
    UpsertBrs(WriteRow(s, k, DependentHalted, map[]), k, DependentHalted, map[])
  }

  ghost function MarkHalted(T: map<Key, Task>, ks: set<Key>): map<Key, Task> {
    map k | k in T :: if k in ks then T[k].(status := DependentHalted) else T[k]
  }

  ghost function HaltAll(s: LedgerState, ks: set<Key>): LedgerState {
    LedgerState(
      MarkHalted(s.tasks, ks),
      map k | k in s.brs.Keys + ks ::
        if k in ks then Brs(DependentHalted, if k in s.brs then s.brs[k].data else map[]) else s.brs[k])
  }

  lemma HaltOneMore(s: LedgerState, ks: set<Key>, k: Key)
    requires k in s.tasks && k !in ks
    ensures HaltRow(HaltAll(s, ks), k) == HaltAll(s, ks + {k})
  {
    var h := HaltAll(s, ks);
    assert h.tasks[k].data + map[] == h.tasks[k].data;
    assert HaltRow(h, k).tasks == HaltAll(s, ks + {k}).tasks;
    assert NonNull(map[]) == map[];
    var was: Fields := if k in s.brs then s.brs[k].data else map[];
    assert was + map[] == was;
    assert HaltRow(h, k).brs[k] == Brs(DependentHalted, was);
    assert HaltRow(h, k).brs == HaltAll(s, ks + {k}).brs;
  }

  /** Writing the aliased row before the ledger writes it again changes nothing further. */
  lemma HaltRowTwice(s: LedgerState, k: Key)
    requires k in s.tasks
    ensures Update(WriteRow(s, k, DependentHalted, map[]), k, DependentHalted, map[]) == (HaltRow(s, k), Ok)
  {
    var w := WriteRow(s, k, DependentHalted, map[]);
    assert w.tasks[k].data + map[] == w.tasks[k].data;
    assert WriteRow(w, k, DependentHalted, map[]).tasks == w.tasks;
  }

  lemma HaltNone(s: LedgerState, run: string, root: string)
    ensures HaltAll(s, {}) == s && Halted(s.tasks, run, root, [], {}) && Frontier(run, root, {}, {}, [root])
  {
    assert HaltAll(s, {}).tasks == s.tasks;
    assert HaltAll(s, {}).brs == s.brs;
  }

  lemma HaltPathSnoc(T: map<Key, Task>, run: string, root: string, cause: string, k: Key)
    requires cause == root || Reached(T, run, root, Key(run, cause))
    requires Feeds(T, run, cause, k) && k.slug != root
    ensures Reached(T, run, root, k)
  {
    var p;
    if cause == root { p := [root]; }
    else { p :| HaltPath(T, run, root, p) && |p| > 1 && p[|p| - 1] == cause; }
    var q := p + [k.slug];
    forall i | 0 < i < |q| ensures q[i] != root && Feeds(T, run, q[i - 1], Key(run, q[i])) {
      if i < |p| { assert q[i] == p[i] && q[i - 1] == p[i - 1]; }
    }
    assert HaltPath(T, run, root, q) && |q| > 1 && q[|q| - 1] == k.slug;
  }

  /** A set closed under `Feeds` contains everything the parked slug reaches. */
  lemma {:induction false} ClosedCoversPath(T: map<Key, Task>, run: string, root: string, h: set<Key>, p: seq<string>)
    requires forall k :: Feeds(T, run, root, k) && k.slug != root ==> k in h
    requires forall v, k :: Key(run, v) in h && Feeds(T, run, v, k) && k.slug != root ==> k in h
    requires HaltPath(T, run, root, p) && |p| > 1
    ensures Key(run, p[|p| - 1]) in h
  {
    var last := |p| - 1;
    if last > 1 {
      var q := p[..last];
      assert HaltPath(T, run, root, q) by {
        forall i | 0 < i < |q| ensures q[i] != root && Feeds(T, run, q[i - 1], Key(run, q[i])) {
          assert q[i] == p[i] && q[i - 1] == p[i - 1];
        }
      }
      ClosedCoversPath(T, run, root, h, q);
      assert q[|q| - 1] == p[last - 1];
    }
    assert Feeds(T, run, p[last - 1], Key(run, p[last]));
  }

  /** Once every visited slug has had all its direct dependents halted and nothing waits, the set is complete. */
  lemma HaltSetIs(T: map<Key, Task>, run: string, root: string, records: seq<HaltRecord>, h: set<Key>,
                  visited: set<string>)
    requires Halted(T, run, root, records, h) && Frontier(run, root, h, visited, [])
    requires forall v, k :: v in visited && k in T && Feeds(T, run, v, k) && k.slug != root ==> k in h
    ensures h == HaltSet(T, run, root) && Records(T, run, root, records, h)
  {
    forall k | k in HaltSet(T, run, root) ensures k in h {
      var p :| HaltPath(T, run, root, p) && |p| > 1 && p[|p| - 1] == k.slug;
      ClosedCoversPath(T, run, root, h, p);
      assert Key(run, p[|p| - 1]) == k;
    }
  }

  /** Only unfinished, dependent rows of the run are ever reached, and never the parked slug itself. */
  lemma HaltSetMembers(T: map<Key, Task>, run: string, root: string, k: Key)
    requires k in HaltSet(T, run, root)
    ensures k in T && k.run == run && Haltable(T[k]) && k.slug != root
  {
    var p :| HaltPath(T, run, root, p) && |p| > 1 && p[|p| - 1] == k.slug;
    assert Feeds(T, run, p[|p| - 2], Key(run, p[|p| - 1]));
  }

  datatype HaltRecord = HaltRecord(slug: string, haltedBecause: string)

  /** The records name each halted row once, with a cause that is the parked slug or an earlier record. */
  ghost predicate Records(T: map<Key, Task>, run: string, root: string, rs: seq<HaltRecord>, h: set<Key>) {
    && (forall i, j :: 0 <= i < j < |rs| ==> rs[i].slug != rs[j].slug)
    && (forall i :: 0 <= i < |rs| ==> Key(run, rs[i].slug) in h)
    && (forall k :: k in h ==> k.run == run && exists i :: 0 <= i < |rs| && rs[i].slug == k.slug)
    && (forall i :: 0 <= i < |rs| ==>
          && Feeds(T, run, rs[i].haltedBecause, Key(run, rs[i].slug))
          && (rs[i].haltedBecause == root || exists j :: 0 <= j < i && rs[j].slug == rs[i].haltedBecause))
  }

  lemma RecordsSnoc(T: map<Key, Task>, run: string, root: string, rs: seq<HaltRecord>, h: set<Key>,
                    cause: string, k: Key)
    requires Records(T, run, root, rs, h) && k !in h && Feeds(T, run, cause, k)
    requires cause == root || Key(run, cause) in h
    ensures Records(T, run, root, rs + [HaltRecord(k.slug, cause)], h + {k})
  {
    var rs' := rs + [HaltRecord(k.slug, cause)];
    assert rs'[|rs|].slug == k.slug;
    forall x | x in h + {k} ensures x.run == run && exists i :: 0 <= i < |rs'| && rs'[i].slug == x.slug {
      if x != k {
        var i :| 0 <= i < |rs| && rs[i].slug == x.slug;
        assert rs'[i].slug == x.slug;
      }
    }
    forall i | 0 <= i < |rs'|
      ensures Feeds(T, run, rs'[i].haltedBecause, Key(run, rs'[i].slug))
      ensures rs'[i].haltedBecause == root || exists j :: 0 <= j < i && rs'[j].slug == rs'[i].haltedBecause
    {
      if i == |rs| {
        assert Key(run, k.slug) == k;
        if cause != root { var j :| 0 <= j < |rs| && rs[j].slug == cause; assert rs'[j].slug == cause; }
      } else if rs[i].haltedBecause != root {
        var j :| 0 <= j < i && rs[j].slug == rs[i].haltedBecause;
        assert rs'[j].slug == rs'[i].haltedBecause;
      }
    }
  }

  /** `park`: one legal transition, then every transitive dependent is halted. */
  function ParkFields(reason: string): Fields { map[ParkReason := Text(reason)] }

  ghost function ParkedTasks(s: LedgerState, key: Key, reason: string): map<Key, Task>
    requires key in s.tasks
  {
    WriteRow(s, key, Parked, ParkFields(reason)).tasks
  }

  ghost function Park(s: LedgerState, key: Key, reason: string): LedgerState
    requires key in s.tasks
  {
    var parked := UpsertBrs(WriteRow(s, key, Parked, ParkFields(reason)), key, Parked, ParkFields(reason));
    HaltAll(parked, HaltSet(parked.tasks, key.run, key.slug))
  }

  /** What has been halted so far is recorded, and rightly halted. */
  ghost predicate Halted(T: map<Key, Task>, run: string, root: string, records: seq<HaltRecord>, h: set<Key>) {
    && Records(T, run, root, records, h)
    && forall k :: k in h ==> k in T && Reached(T, run, root, k)
  }

  /** Everything halted has been visited or is still to be, and nothing else ever is. */
  ghost predicate Frontier(run: string, root: string, h: set<Key>, visited: set<string>, work: seq<string>) {
    && (forall v :: v in visited || v in work ==> v == root || Key(run, v) in h)
    && (forall k :: k in h ==> k.run == run && (k.slug in visited || k.slug in work))
    && (root in visited || work == [root])
  }

  /** Halting one more direct dependent keeps the bookkeeping, and the ledger one row further along. */
  lemma {:induction false} HaltStep(before: LedgerState, run: string, root: string, records: seq<HaltRecord>,
                                    h: set<Key>, visited: set<string>, work: seq<string>, cause: string, k: Key)
    requires Halted(before.tasks, run, root, records, h) && Frontier(run, root, h, visited, work)
    requires root in visited && cause in visited && k.slug !in visited && Feeds(before.tasks, run, cause, k) && k !in h
    ensures Halted(before.tasks, run, root, records + [HaltRecord(k.slug, cause)], h + {k})
    ensures Frontier(run, root, h + {k}, visited, work + [k.slug])
    ensures var now := HaltAll(before, h);
            Update(WriteRow(now, k, DependentHalted, map[]), k, DependentHalted, map[])
            == (HaltAll(before, h + {k}), Ok)
  {
    assert Key(run, k.slug) == k;
    HaltPathSnoc(before.tasks, run, root, cause, k);
    RecordsSnoc(before.tasks, run, root, records, h, cause, k);
    HaltOneMore(before, h, k);
    HaltRowTwice(HaltAll(before, h), k);
  }

  function Universe(T: map<Key, Task>, root: string): set<string> { {root} + set k | k in T :: k.slug }

  lemma WorkInUniverse(T: map<Key, Task>, run: string, root: string, records: seq<HaltRecord>, h: set<Key>,
                       visited: set<string>, work: seq<string>)
    requires Halted(T, run, root, records, h) && Frontier(run, root, h, visited, work)
    ensures forall v :: v in work ==> v in Universe(T, root)
  {
    forall v | v in work && v != root ensures v in Universe(T, root) { assert Key(run, v).slug == v; }
  }

  lemma HaltedStatus(T: map<Key, Task>, h: set<Key>, run: string, cause: string, k: Key)
    requires k in T
    ensures Feeds(MarkHalted(T, h), run, cause, k) <==> Feeds(T, run, cause, k) && k !in h
  {
  }

  // ------------------------------------------------------------------ stale recovery and reaping

  const Unclaim: Fields := map[ClaimedBy := Null, ClaimedAt := Null]

  const FALLBACK_S := 30 * 60

  predicate InProgress(s: TaskStatus) { s in {Building, Verifying, Merging, CiGating} }

  /** A heartbeat decides when there is one; otherwise the claim time does, with a 30-minute window.
      Unreadable timestamps are never stale. */
  predicate Stale(t: Task, now: int, threshold: int) {
    if Truthy(t.data, HeartbeatAt) then
      t.data[HeartbeatAt].Number? && now - t.data[HeartbeatAt].number > threshold
    else
      Truthy(t.data, ClaimedAt) && t.data[ClaimedAt].Number? && t.data[ClaimedAt].number < now - FALLBACK_S
  }

  datatype Write = Write(status: TaskStatus, fields: Fields)

  /** What `recover_stale` does to one row, given whether the ledger holds PASS for it. */
  function Recover(t: Task, pass: bool, now: int, threshold: int): Option<Write> {
    if Truthy(t.data, CommitSha) && t.status != Committed then
      Some(if pass then Write(Committed, map[]) else Write(Queued, Unclaim))
    else if !InProgress(t.status) || !Stale(t, now, threshold) then None
    else if t.status == CiGating && Truthy(t.data, CiVerdict) then Some(Write(Merging, map[]))
    else Some(Write(Queued, Unclaim))
  }

  /** What `reap_orphans` does to one row. */
  function Reap(t: Task, now: int, minutes: int): Option<Write> {
    if t.status in {Building, Verifying} && Truthy(t.data, ClaimedAt) && t.data[ClaimedAt].Number?
       && t.data[ClaimedAt].number < now - minutes * 60
    then Some(Write(Parked, map[ParkReason := Text("orphaned-stale-claim")]))
    else None
  }

  /** The row holds this readable point in time. */
  predicate TimeOf(t: Task, f: Field, at: int) { f in t.data && t.data[f] == Number(at) && at != 0 }

  /** Which rows count as stale: those whose heartbeat is older than the threshold, and, where there is no heartbeat,
      those claimed more than half an hour ago. */
  lemma StaleExactly(t: Task, now: int, threshold: int)
    ensures Stale(t, now, threshold) <==>
              || (exists at :: TimeOf(t, HeartbeatAt, at) && at < now - threshold)
              || (!Truthy(t.data, HeartbeatAt) && exists at :: TimeOf(t, ClaimedAt, at) && at < now - 1800)
  {
    if HeartbeatAt in t.data && t.data[HeartbeatAt].Number? {
      assert Truthy(t.data, HeartbeatAt) ==> TimeOf(t, HeartbeatAt, t.data[HeartbeatAt].number);
    }
    if ClaimedAt in t.data && t.data[ClaimedAt].Number? {
      assert Truthy(t.data, ClaimedAt) ==> TimeOf(t, ClaimedAt, t.data[ClaimedAt].number);
    }
  }

  /** Which rows are reaped: those building or verifying that were claimed more than the given minutes ago. They are
      parked as orphans. */
  lemma ReapExactly(t: Task, now: int, minutes: int)
    ensures Reap(t, now, minutes).Some? <==>
              && (t.status == Building || t.status == Verifying)
              && exists at :: TimeOf(t, ClaimedAt, at) && at < now - 60 * minutes
    ensures Reap(t, now, minutes).Some? ==>
              Reap(t, now, minutes) == Some(Write(Parked, map[ParkReason := Text("orphaned-stale-claim")]))
  {
    if ClaimedAt in t.data && t.data[ClaimedAt].Number? {
      assert Truthy(t.data, ClaimedAt) ==> TimeOf(t, ClaimedAt, t.data[ClaimedAt].number);
    }
  }

  type Decision = (Task, bool) -> Option<Write>

  function Recovering(now: int, threshold: int): Decision { (t, pass) => Recover(t, pass, now, threshold) }

  function Reaping(now: int, minutes: int): Decision { (t, pass) => Reap(t, now, minutes) }

  function SweepRow(s: LedgerState, k: Key, decide: Decision): LedgerState
    requires k in s.tasks
  {
    match decide(s.tasks[k], HasPass(s, k))
    case None => s
    case Some(w) => Update(s, k, w.status, w.fields).0
  }

  /** A sweep visits the given rows once each, in order, and lists the ones it changed. */
  function Sweep(s: LedgerState, ks: seq<Key>, decide: Decision): (r: (LedgerState, seq<string>))
    requires forall k :: k in ks ==> k in s.tasks
    ensures r.0.tasks.Keys == s.tasks.Keys
  {
    if ks == [] then (s, [])
    else
      var before := Sweep(s, ks[..|ks| - 1], decide);
      var k := ks[|ks| - 1];
      (SweepRow(before.0, k, decide),
       before.1 + if decide(before.0.tasks[k], HasPass(before.0, k)).Some? then [k.slug] else [])
  }

  function RunKeys(order: seq<Key>, run: string): (ks: seq<Key>)
    ensures forall k :: k in ks <==> k in order && k.run == run
  {
    if order == [] then []
    else RunKeys(order[..|order| - 1], run) + if order[|order| - 1].run == run then [order[|order| - 1]] else []
  }

  lemma RunKeysSnoc(order: seq<Key>, n: nat, run: string)
    requires n < |order|
    ensures RunKeys(order[..n + 1], run) ==
            RunKeys(order[..n], run) + if order[n].run == run then [order[n]] else []
  {
    assert order[..n + 1][..n] == order[..n];
  }

  lemma SweepStart(s: LedgerState, decide: Decision)
    ensures Sweep(s, [], decide) == (s, [])
  {
  }

  lemma SweepNext(s: LedgerState, ks: seq<Key>, n: nat, decide: Decision)
    requires n < |ks| && forall x :: x in ks ==> x in s.tasks
    ensures forall x :: x in ks[..n + 1] ==> x in s.tasks
    ensures ks[n] in Sweep(s, ks[..n], decide).0.tasks
    ensures var (mid, hits) := Sweep(s, ks[..n], decide);
            Sweep(s, ks[..n + 1], decide) ==
            (SweepRow(mid, ks[n], decide),
             hits + if decide(mid.tasks[ks[n]], HasPass(mid, ks[n])).Some? then [ks[n].slug] else [])
  {
    hide SweepRow, HasPass;
    assert ks[..n] + [ks[n]] == ks[..n + 1];
    SweepSnoc(s, ks[..n], ks[n], decide);
  }

  lemma SweepSnoc(s: LedgerState, ks: seq<Key>, k: Key, decide: Decision)
    requires forall x :: x in ks + [k] ==> x in s.tasks
    ensures forall x :: x in ks ==> x in s.tasks
    ensures k in Sweep(s, ks, decide).0.tasks
    ensures var (mid, hits) := Sweep(s, ks, decide);
            Sweep(s, ks + [k], decide) ==
            (SweepRow(mid, k, decide), hits + if decide(mid.tasks[k], HasPass(mid, k)).Some? then [k.slug] else [])
  {
    assert forall x :: x in ks ==> x in ks + [k];
    assert k in ks + [k];
    assert (ks + [k])[..|ks|] == ks;
  }

  lemma SweepRowEffect(s: LedgerState, k: Key, decide: Decision)
    requires k in s.tasks
    ensures var r := SweepRow(s, k, decide);
            && (forall x :: x != k ==> SameAt(r, s, x)) && k in r.tasks
  {
    match decide(s.tasks[k], HasPass(s, k))
    case None =>
    case Some(w) => WriteEffect(s, k, w.status, w.fields);
  }

  lemma SweepRowLocal(a: LedgerState, b: LedgerState, k: Key, decide: Decision)
    requires SameAt(a, b, k) && k in a.tasks
    ensures SameAt(SweepRow(a, k, decide), SweepRow(b, k, decide), k)
  {
  }

  /** A sweep acts row by row: each visited row ends as if it alone had been swept, others are untouched, and
      the listed slugs are exactly those of the rows the decision singles out. */
  lemma {:induction false} SweepRowwise(s: LedgerState, ks: seq<Key>, decide: Decision, k: Key)
    requires NoDups(ks) && (forall x :: x in ks ==> x in s.tasks) && k in s.tasks
    ensures k !in ks ==> SameAt(Sweep(s, ks, decide).0, s, k)
    ensures k in ks ==> SameAt(Sweep(s, ks, decide).0, SweepRow(s, k, decide), k)
  {
    if ks != [] {
      var init, x := ks[..|ks| - 1], ks[|ks| - 1];
      SweepRowwise(s, init, decide, k);
      var mid := Sweep(s, init, decide).0;
      assert k in ks <==> k in init || k == x;
      if k == x {
        assert k !in init;
        SweepRowLocal(mid, s, k, decide);
      } else {
        SweepRowEffect(mid, x, decide);
      }
    }
  }

  /** Nothing happens to rows the decision passes over; in particular to those of a fresh run. */
  lemma {:induction false} SweepNothing(s: LedgerState, ks: seq<Key>, decide: Decision)
    requires forall k :: k in ks ==> k in s.tasks && decide(s.tasks[k], HasPass(s, k)) == None
    ensures Sweep(s, ks, decide) == (s, [])
  {
    if ks != [] {
      SweepNothing(s, ks[..|ks| - 1], decide);
      assert ks[|ks| - 1] in ks;
      assert Sweep(s, ks, decide).1 == [] + [];
    }
  }

  /** Reaping is idempotent: a second pass at the same time finds nothing and changes nothing. */
  lemma {:induction false} ReapIdempotent(s: LedgerState, ks: seq<Key>, now: int, minutes: int)
    requires NoDups(ks) && forall k :: k in ks ==> k in s.tasks
    ensures var r := Sweep(s, ks, Reaping(now, minutes)).0;
            Sweep(r, ks, Reaping(now, minutes)) == (r, [])
  {
    var r := Sweep(s, ks, Reaping(now, minutes)).0;
    forall k | k in ks ensures Reap(r.tasks[k], now, minutes) == None {
      SweepRowwise(s, ks, Reaping(now, minutes), k);
    }
    SweepNothing(r, ks, Reaping(now, minutes));
  }

  /** Reaping parks a row and leaves its dependents alone: one that is queued can be handed out next although its
      dependency is parked. Only fresh runs are dependency-safe. */
  lemma ReapLeavesDependents(s: LedgerState, ks: seq<Key>, now: int, minutes: int, d: Key, k: Key)
    requires NoDups(ks) && (forall x :: x in ks ==> x in s.tasks) && d in ks && k in ks
    requires Reap(s.tasks[d], now, minutes).Some? && s.tasks[k].status == Queued && d.slug in s.tasks[k].dependsOn
    ensures var r := Sweep(s, ks, Reaping(now, minutes)).0;
            r.tasks[d].status == Parked && r.tasks[k] == s.tasks[k]
  {
    SweepRowwise(s, ks, Reaping(now, minutes), d);
    SweepRowwise(s, ks, Reaping(now, minutes), k);
  }

  /** Row `k` is queued and waits for row `d`. */
  predicate Waits(T: map<Key, Task>, d: Key, k: Key) {
    && d in T && k in T && k.run == d.run
    && T[k].status == Queued && !T[k].independent && d.slug in T[k].dependsOn
  }

  /** It waits for a row that is parked: polling may hand it out although its dependency never lands. */
  predicate Stranded(T: map<Key, Task>, d: Key, k: Key) { Waits(T, d, k) && T[d].status == Parked }

  predicate Reaped(s: LedgerState, ks: seq<Key>, now: int, minutes: int, d: Key) {
    d in ks && d in s.tasks && Reap(s.tasks[d], now, minutes).Some?
  }

  lemma StrandsPair(s: LedgerState, ks: seq<Key>, now: int, minutes: int, d: Key, k: Key)
    requires NoDups(ks) && forall x :: x in ks ==> x in s.tasks
    ensures var r := Sweep(s, ks, Reaping(now, minutes)).0;
            Stranded(r.tasks, d, k) && !Stranded(s.tasks, d, k)
            <==> Waits(s.tasks, d, k) && Reaped(s, ks, now, minutes, d)
  {
    if d in s.tasks && k in s.tasks {
      ReapRow(s, ks, now, minutes, d);
      ReapRow(s, ks, now, minutes, k);
    }
  }

  /** What reaping makes of a row. */
  lemma ReapRow(s: LedgerState, ks: seq<Key>, now: int, minutes: int, k: Key)
    requires NoDups(ks) && (forall x :: x in ks ==> x in s.tasks) && k in s.tasks
    ensures var r := Sweep(s, ks, Reaping(now, minutes)).0;
            && k in r.tasks
            && (if Reaped(s, ks, now, minutes, k)
                then r.tasks[k].status == Parked && s.tasks[k].status in {Building, Verifying}
                else r.tasks[k] == s.tasks[k])
  {
    hide Sweep;
    SweepRowwise(s, ks, Reaping(now, minutes), k);
  }

  /** Exactly when a reaping strands a queued row behind a parked dependency that was not there before: some queued,
      non-independent row lists a dependency whose own row is reaped. */
  lemma ReapStrandsExactly(s: LedgerState, ks: seq<Key>, now: int, minutes: int)
    requires NoDups(ks) && forall x :: x in ks ==> x in s.tasks
    ensures var r := Sweep(s, ks, Reaping(now, minutes)).0;
            (exists d, k :: Stranded(r.tasks, d, k) && !Stranded(s.tasks, d, k))
            <==> exists d, k :: Waits(s.tasks, d, k) && Reaped(s, ks, now, minutes, d)
  {
    hide Sweep, Stranded, Waits, Reaped, NoDups;
    var r := Sweep(s, ks, Reaping(now, minutes)).0;
    forall d, k
      ensures Stranded(r.tasks, d, k) && !Stranded(s.tasks, d, k)
              <==> Waits(s.tasks, d, k) && Reaped(s, ks, now, minutes, d)
    {
      StrandsPair(s, ks, now, minutes, d, k);
    }
  }

  /** What recovery makes of a row. It ends committed exactly when it was, or has a commit and PASS; a finished
      row is reopened or promoted exactly when it is not committed but has a commit; and an unfinished one without
      a commit is left alone unless its claim is stale. */
  lemma RecoverOutcome(s: LedgerState, k: Key, now: int, threshold: int)
    requires k in s.tasks
    ensures var (t, r) := (s.tasks[k], SweepRow(s, k, Recovering(now, threshold)).tasks[k]);
            && (r.status == Committed <==> t.status == Committed || (Truthy(t.data, CommitSha) && HasPass(s, k)))
            && (Terminal(t.status) ==> (r.status != t.status <==> t.status != Committed && Truthy(t.data, CommitSha)))
            && (!Terminal(t.status) && !Truthy(t.data, CommitSha) && !Stale(t, now, threshold) ==> r == t)
            && (r.status == Queued && r != t ==> Claimable(r))
  {
  }

  /** Recovering a row twice is recovering it once, except for a stale gating row with a verdict: the first pass
      moves it on to merging, the second back to queued. */
  lemma {:induction false} RecoverTwice(s: LedgerState, k: Key, now: int, threshold: int)
    requires k in s.tasks
    ensures var r := SweepRow(s, k, Recovering(now, threshold));
            var t := s.tasks[k];
            k in r.tasks
            && (SweepRow(r, k, Recovering(now, threshold)).tasks[k] == r.tasks[k] <==>
                !(t.status == CiGating && !Truthy(t.data, CommitSha) && Truthy(t.data, CiVerdict)
                  && Stale(t, now, threshold)))
  {
    var t, pass := s.tasks[k], HasPass(s, k);
    var r := SweepRow(s, k, Recovering(now, threshold));
    RecoverRow(s, k, now, threshold);
    RecoverRow(r, k, now, threshold);
    hide SweepRow, HasPass, Recover, Stale;
    AfterTwice(t, pass, now, threshold);
  }

  /** A row with a decision carried out on it. */
  function Carried(t: Task, w: Option<Write>): Task {
    if w.None? then t else t.(status := w.value.status, data := t.data + w.value.fields)
  }

  lemma RecoverRow(s: LedgerState, k: Key, now: int, threshold: int)
    requires k in s.tasks
    ensures var r := SweepRow(s, k, Recovering(now, threshold));
            && k in r.tasks && r.tasks[k] == Carried(s.tasks[k], Recover(s.tasks[k], HasPass(s, k), now, threshold))
            && HasPass(r, k) == HasPass(s, k)
  {
    var w := Recover(s.tasks[k], HasPass(s, k), now, threshold);
    hide Recover;
    if w.Some? {
      RecoverWrites(s.tasks[k], HasPass(s, k), now, threshold);
      WriteEffect(s, k, w.value.status, w.value.fields);
    }
  }

  lemma RecoverWrites(t: Task, pass: bool, now: int, threshold: int)
    ensures var w := Recover(t, pass, now, threshold);
            w.Some? ==> (w.value.status == Committed ==> pass) && VerifyResult !in w.value.fields
  {
  }

  lemma AfterTwice(t: Task, pass: bool, now: int, threshold: int)
    ensures var once := Carried(t, Recover(t, pass, now, threshold));
            Carried(once, Recover(once, pass, now, threshold)) == once <==>
            !(t.status == CiGating && !Truthy(t.data, CommitSha) && Truthy(t.data, CiVerdict)
              && Stale(t, now, threshold))
  {
    var once := Carried(t, Recover(t, pass, now, threshold));
    assert t.data + map[] == t.data;
    assert t.data + Unclaim + Unclaim == t.data + Unclaim;
  }

  // ------------------------------------------------------------------ every reachable ledger state

  /** Every ledger write the orchestrator performs, on any run id. */
  datatype Op =
    | Create(key: Key, buildOrder: nat, dependsOn: seq<string>, independent: bool)
    | ClaimOp(key: Key, session: string, now: int)
    | AdvanceOp(key: Key, status: TaskStatus, fields: Fields)
    | ParkOp(key: Key, reason: string)
    | RecoverOp(run: string, now: int, threshold: int)
    | ReapOp(run: string, now: int, minutes: int)
    | ResetOp(key: Key)                                   // single-flight guard: back to queued, unclaimed

  ghost predicate Enabled(s: LedgerState, op: Op) {
    match op
    case AdvanceOp(key, status, f) =>
      && key in s.tasks
      && OwnVerdict(f)
      && (status == Committed ==> HasPass(s, key) || Carries(f, PASS))
    case ParkOp(key, _) => key in s.tasks && CanMove(s.tasks[key].status, Parked)
    case Create(_, _, _, _) => true
    case ClaimOp(_, _, _) => true
    case RecoverOp(_, _, _) => true
    case ReapOp(_, _, _) => true
    case ResetOp(_) => true
  }

  /** Rows in some fixed enumeration; recovery does not depend on which. */
  ghost function Enumerate(ks: set<Key>): (r: seq<Key>)
    ensures NoDups(r) && forall k :: k in r <==> k in ks
  {
    if ks == {} then []
    else var k :| k in ks; NoDupsSnoc(Enumerate(ks - {k}), k); Enumerate(ks - {k}) + [k]
  }

  ghost function SweepOfRun(s: LedgerState, run: string, decide: Decision): LedgerState {
    Sweep(s, Enumerate(set k | k in s.tasks && k.run == run), decide).0
  }

  ghost function Step(s: LedgerState, op: Op): LedgerState
    requires Enabled(s, op)
  {
    match op
    case Create(key, order, deps, indep) => s.(tasks := s.tasks[key := FreshTask(order, deps, indep)])
    case ClaimOp(key, session, now) => Claim(s, key, session, now).0
    case AdvanceOp(key, status, f) => Advance(s, key, status, f).0
    case ParkOp(key, reason) => Park(s, key, reason)
    case RecoverOp(run, now, threshold) =>
      SweepOfRun(s, run, Recovering(now, threshold))
    case ReapOp(run, now, minutes) =>
      SweepOfRun(s, run, Reaping(now, minutes))
    case ResetOp(key) => Update(s, key, Queued, Unclaim).0
  }

  /** No queued row carries a claim, so polling can always make progress. */
  ghost predicate QueuedUnclaimed(s: LedgerState) {
    forall k :: k in s.tasks && s.tasks[k].status == Queued ==> Claimable(s.tasks[k])
  }

  ghost predicate Invariant(s: LedgerState) { Evidence(s) && QueuedUnclaimed(s) }

  ghost predicate Reachable(s: LedgerState, ops: seq<Op>, end: LedgerState)
    decreases |ops|
  {
    if ops == [] then s == end
    else Enabled(s, ops[0]) && Reachable(Step(s, ops[0]), ops[1..], end)
  }

  /** `r` satisfies both invariants and has lost no PASS. */
  ghost predicate Keeps(s: LedgerState, r: LedgerState) {
    && Invariant(r)
    && forall k :: HasPass(s, k) ==> HasPass(r, k)
  }

  predicate OwnVerdict(f: Fields) { VerifyResult in f ==> f[VerifyResult] in {Null, PASS} }

  lemma WriteKeeps(s: LedgerState, key: Key, status: TaskStatus, f: Fields)
    requires key in s.tasks && Invariant(s) && OwnVerdict(f)
    requires status == Committed ==> PassAfter(s, key, f)
    requires status == Queued ==> ClaimedBy in f && f[ClaimedBy] == Null
    ensures Keeps(s, UpsertBrs(WriteRow(s, key, status, f), key, status, f))
  {
    var r := UpsertBrs(WriteRow(s, key, status, f), key, status, f);
    WriteEffect(s, key, status, f);
    forall k | k in r.tasks && r.tasks[k].status == Committed ensures HasPass(r, k) {
      assert k != key ==> SameAt(r, s, k);
    }
    forall k | k in r.tasks && r.tasks[k].status == Queued ensures Claimable(r.tasks[k]) {
      assert k != key ==> SameAt(r, s, k);
    }
    forall k | HasPass(s, k) ensures HasPass(r, k) { assert k != key ==> SameAt(r, s, k); }
  }

  /** A sweep commits only on PASS, requeues only unclaimed, and never touches a verdict. */
  ghost predicate Sound(decide: Decision) {
    forall t, pass :: decide(t, pass).Some? ==>
      var w := decide(t, pass).value;
      && (w.status == Committed ==> pass) && (w.status == Queued ==> w.fields == Unclaim)
      && VerifyResult !in w.fields
  }

  lemma {:induction false} SweepKeeps(s: LedgerState, ks: seq<Key>, decide: Decision)
    requires (forall k :: k in ks ==> k in s.tasks) && Invariant(s) && Sound(decide)
    ensures Keeps(s, Sweep(s, ks, decide).0)
  {
    if ks != [] {
      var k := ks[|ks| - 1];
      SweepKeeps(s, ks[..|ks| - 1], decide);
      var mid := Sweep(s, ks[..|ks| - 1], decide).0;
      match decide(mid.tasks[k], HasPass(mid, k))
      case None =>
      case Some(w) => WriteKeeps(mid, k, w.status, w.fields);
    }
  }

  lemma HaltKeeps(s: LedgerState, ks: set<Key>)
    requires Invariant(s)
    ensures Keeps(s, HaltAll(s, ks))
  {
    var r := HaltAll(s, ks);
    forall k | HasPass(s, k) ensures HasPass(r, k) {}
    forall k | k in r.tasks && r.tasks[k].status != DependentHalted
      ensures r.tasks[k] == s.tasks[k] {}
  }

  lemma ClaimKeeps(s: LedgerState, key: Key, session: string, now: int)
    requires Invariant(s)
    ensures Keeps(s, Claim(s, key, session, now).0)
  {
    ClaimEffect(s, key, session, now);
    var r := Claim(s, key, session, now).0;
    assert forall k :: k != key ==> SameAt(r, s, k);
    forall k | HasPass(s, k) ensures HasPass(r, k) { assert k != key ==> SameAt(r, s, k); }
  }

  lemma AdvanceKeeps(s: LedgerState, key: Key, status: TaskStatus, f: Fields)
    requires Enabled(s, AdvanceOp(key, status, f)) && Invariant(s)
    ensures Keeps(s, Advance(s, key, status, f).0)
  {
    if CanMove(s.tasks[key].status, status) {
      AdvanceWrites(s, key, status, f);
      WriteKeeps(s, key, status, f);
    }
  }

  lemma ParkKeeps(s: LedgerState, key: Key, reason: string)
    requires key in s.tasks && Invariant(s)
    ensures Keeps(s, Park(s, key, reason))
  {
    var f := ParkFields(reason);
    var parked := UpsertBrs(WriteRow(s, key, Parked, f), key, Parked, f);
    WriteKeeps(s, key, Parked, f);
    HaltKeeps(parked, HaltSet(parked.tasks, key.run, key.slug));
  }

  lemma SweepOfRunKeeps(s: LedgerState, run: string, decide: Decision)
    requires Invariant(s) && Sound(decide)
    ensures Keeps(s, SweepOfRun(s, run, decide))
  {
    SweepKeeps(s, Enumerate(set k | k in s.tasks && k.run == run), decide);
  }

  lemma CreateKeeps(s: LedgerState, key: Key, t: Task)
    requires Invariant(s) && t.status == Queued && Claimable(t)
    ensures Keeps(s, s.(tasks := s.tasks[key := t]))
  {
    forall k | HasPass(s, k) ensures HasPass(s.(tasks := s.tasks[key := t]), k) {}
  }

  lemma StepKeeps(s: LedgerState, op: Op)
    requires Enabled(s, op) && Invariant(s)
    ensures Keeps(s, Step(s, op))
  {
    match op
    case AdvanceOp(key, status, f) => AdvanceKeeps(s, key, status, f);
    case ParkOp(key, reason) => ParkKeeps(s, key, reason);
    case RecoverOp(run, now, threshold) =>
      SweepOfRunKeeps(s, run, Recovering(now, threshold));
    case ReapOp(run, now, minutes) =>
      SweepOfRunKeeps(s, run, Reaping(now, minutes));
    case ClaimOp(key, session, now) => ClaimKeeps(s, key, session, now);
    case ResetOp(key) => if key in s.tasks { WriteKeeps(s, key, Queued, Unclaim); }
    case Create(key, order, deps, indep) => CreateKeeps(s, key, FreshTask(order, deps, indep));
  }

  ghost predicate NoGating(s: LedgerState) { forall k :: k in s.tasks ==> s.tasks[k].status != CiGating }

  /** No operation moves a row to CI gating except an explicit advance to it, and the orchestrator has none. */
  lemma {:induction false} NeverGating(s: LedgerState, ops: seq<Op>, end: LedgerState)
    requires Reachable(s, ops, end) && NoGating(s)
    requires forall i :: 0 <= i < |ops| ==> !(ops[i].AdvanceOp? && ops[i].status == CiGating)
    ensures NoGating(end)
    decreases |ops|
  {
    if ops != [] {
      StepNeverGates(s, ops[0]);
      NeverGating(Step(s, ops[0]), ops[1..], end);
    }
  }

  lemma StepNeverGates(s: LedgerState, op: Op)
    requires Enabled(s, op) && NoGating(s) && !(op.AdvanceOp? && op.status == CiGating)
    ensures NoGating(Step(s, op))
  {
    match op
    case RecoverOp(run, now, threshold) =>
      SweepNeverGates(s, Enumerate(set k | k in s.tasks && k.run == run), Recovering(now, threshold));
    case ReapOp(run, now, minutes) =>
      SweepNeverGates(s, Enumerate(set k | k in s.tasks && k.run == run), Reaping(now, minutes));
    case _ =>
  }

  lemma {:induction false} SweepNeverGates(s: LedgerState, ks: seq<Key>, decide: Decision)
    requires (forall k :: k in ks ==> k in s.tasks) && NoGating(s)
    requires forall t, pass :: decide(t, pass).Some? ==> decide(t, pass).value.status != CiGating
    ensures NoGating(Sweep(s, ks, decide).0)
  {
    if ks != [] { SweepNeverGates(s, ks[..|ks| - 1], decide); }
  }

  /** In every state any sequence of ledger operations can reach, across runs, crashes, recoveries and
      reaps: committed rows are backed by PASS, queued rows are unclaimed, and a PASS once there stays. */
  lemma {:induction false} ReachableKeeps(s: LedgerState, ops: seq<Op>, end: LedgerState)
    requires Reachable(s, ops, end) && Invariant(s)
    ensures Keeps(s, end)
    decreases |ops|
  {
    if ops != [] {
      StepKeeps(s, ops[0]);
      ReachableKeeps(Step(s, ops[0]), ops[1..], end);
    }
  }
}
