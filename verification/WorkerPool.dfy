/** subagents/worker_pool: the memory-derived cap, and the semaphore-bounded pool under every interleaving. */
module WorkerPool {
  import opened Models

  // ------------------------------------------------------------------ the cap

  datatype Cap = Cap(value: nat) | ConfigError

  function Clamp(raw: int, most: int): int { if raw < 1 || most < 1 then 1 else if raw > most then most else raw }

  /** `compute_cap`, on exact numbers. The cap is the most workers that fit the budget, but at least one and at
      most `maxConcurrency`; a missing or non-positive setting is an error. */
  function ComputeCap(budget: Option<real>, footprint: Option<real>, maxConcurrency: int): (c: Cap)
    ensures c.ConfigError? <==>
            budget.None? || budget.value <= 0.0 || footprint.None? || footprint.value <= 0.0 || maxConcurrency < 1
    ensures c.Cap? ==> 1 <= c.value <= maxConcurrency
    ensures c.Cap? && footprint.value <= budget.value ==> c.value as real * footprint.value <= budget.value
    ensures c.Cap? && c.value < maxConcurrency ==> (c.value + 1) as real * footprint.value > budget.value
  {
    if budget.None? || budget.value <= 0.0 then ConfigError
    else if footprint.None? || footprint.value <= 0.0 then ConfigError
    else if maxConcurrency < 1 then ConfigError
    else
      var ratio := budget.value / footprint.value;
      var cap := Clamp(ratio.Floor, maxConcurrency);
      FloorFits(budget.value, footprint.value, ratio, cap);
      FloorFits(budget.value, footprint.value, ratio, cap + 1);
      FloorFits(budget.value, footprint.value, ratio, 1);
      Cap(cap)
  }

  /** The floor of a quotient is the last whole number of footprints that fits. */
  lemma FloorFits(budget: real, footprint: real, ratio: real, n: int)
    requires footprint > 0.0 && budget > 0.0 && ratio == budget / footprint
    ensures n as real * footprint <= budget <==> n <= ratio.Floor
  {
    assert ratio * footprint == budget;
    if n <= ratio.Floor {
      Scale(n as real, ratio, footprint);
    } else {
      assert n as real > ratio;
      Scale(ratio, n as real, footprint);
    }
  }

  lemma Scale(x: real, y: real, f: real)
    requires x <= y && f > 0.0
    ensures x * f <= y * f && (x < y ==> x * f < y * f)
  {
    assert (y - x) * f >= 0.0;
    if x < y { assert (y - x) * f > 0.0; }
  }

  // ------------------------------------------------------------------ threads as steps

  /** A worker thread: not started, blocked on the semaphore, in `worker_fn`, about to release, finished. */
  datatype Phase = Unborn | Waiting | Running | Leaving | Finished

  /** What `worker_fn` does on an item: every item is called once, so its answer is one per index. */
  datatype Answer<V, E> = Value(v: V) | Failed(e: E)

  datatype Outcome<V, E> = Pending | Returned(results: seq<Option<V>>) | Raised(e: E)

  datatype Pool<V, E> = Pool(
    permits: nat, phases: seq<Phase>, results: seq<Option<V>>, errors: seq<Option<E>>, calls: seq<nat>,
    joined: nat, outcome: Outcome<V, E>)

  datatype Action = Start(i: nat) | Acquire(i: nat) | Call(i: nat) | Release(i: nat) | Join | Finish

  function Initial<V, E>(cap: nat, n: nat): Pool<V, E> {
    Pool(cap, seq(n, i => Unborn), seq(n, i => None), seq(n, i => None), seq(n, i => 0), 0, Pending)
  }

  /** The main thread starts the workers in order, then joins them in order, then returns or raises. */
  predicate Enabled<V, E>(s: Pool<V, E>, a: Action) {
    s.outcome.Pending? && |s.results| == |s.errors| == |s.calls| == |s.phases| &&
    match a
    case Start(i) => i < |s.phases| && s.phases[i] == Unborn && s.joined == 0
                     && forall j :: 0 <= j < i ==> s.phases[j] != Unborn
    case Acquire(i) => i < |s.phases| && s.phases[i] == Waiting && s.permits > 0
    case Call(i) => i < |s.phases| && s.phases[i] == Running
    case Release(i) => i < |s.phases| && s.phases[i] == Leaving
    case Join => s.joined < |s.phases| && s.phases[s.joined] == Finished
                 && forall j :: 0 <= j < |s.phases| ==> s.phases[j] != Unborn
    case Finish => s.joined == |s.phases|
  }

  function FirstError<E>(errors: seq<Option<E>>): Option<E> {
    if errors == [] then None else if errors[0].Some? then errors[0] else FirstError(errors[1..])
  }

  function Conclusion<V, E>(results: seq<Option<V>>, errors: seq<Option<E>>): Outcome<V, E> {
    var first := FirstError(errors);
    if first.Some? then Raised(first.value) else Returned(results)
  }

  function Apply<V, E>(s: Pool<V, E>, a: Action, answers: seq<Answer<V, E>>): Pool<V, E>
    requires Enabled(s, a) && |answers| == |s.phases|
  {
    match a
    case Start(i) => s.(phases := s.phases[i := Waiting])
    case Acquire(i) => s.(permits := s.permits - 1, phases := s.phases[i := Running])
    case Call(i) =>
      var t := s.(phases := s.phases[i := Leaving], calls := s.calls[i := s.calls[i] + 1]);
      (match answers[i]
       case Value(v) => t.(results := s.results[i := Some(v)])
       case Failed(e) => t.(errors := s.errors[i := Some(e)]))
    case Release(i) => s.(permits := s.permits + 1, phases := s.phases[i := Finished])
    case Join => s.(joined := s.joined + 1)
    case Finish =>
      s.(outcome := Conclusion(s.results, s.errors))
  }

  // ------------------------------------------------------------------ what every interleaving keeps

  predicate Holds(p: Phase) { p == Running || p == Leaving }

  /** How many threads hold a permit. */
  function Holders(ps: seq<Phase>): nat {
    if ps == [] then 0 else Holders(ps[..|ps| - 1]) + if Holds(ps[|ps| - 1]) then 1 else 0
  }

  function Live(ps: seq<Phase>): nat {
    if ps == [] then 0 else Live(ps[..|ps| - 1]) + if ps[|ps| - 1] == Running then 1 else 0
  }

  lemma {:induction false} HoldersUpdate(ps: seq<Phase>, i: nat, p: Phase)
    requires i < |ps|
    ensures Holders(ps[i := p]) == Holders(ps) - (if Holds(ps[i]) then 1 else 0) + if Holds(p) then 1 else 0
  {
    var n := |ps| - 1;
    if i == n {
      assert ps[i := p][..n] == ps[..n];
    } else {
      HoldersUpdate(ps[..n], i, p);
      assert ps[i := p][..n] == ps[..n][i := p];
    }
  }

  lemma {:induction false} LiveAreHolders(ps: seq<Phase>)
    ensures Live(ps) <= Holders(ps)
  {
    if ps != [] { LiveAreHolders(ps[..|ps| - 1]); }
  }

  lemma {:induction false} HoldersZero(ps: seq<Phase>)
    requires forall i :: 0 <= i < |ps| ==> !Holds(ps[i])
    ensures Holders(ps) == 0
  {
    if ps != [] { HoldersZero(ps[..|ps| - 1]); }
  }

  /** A worker's slots say exactly whether it has made its one call, and hold that call's answer. */
  predicate Slot<V(==), E(==)>(p: Phase, calls: nat, result: Option<V>, error: Option<E>, answer: Answer<V, E>) {
    if p == Leaving || p == Finished
    then calls == 1
         && result == (if answer.Value? then Some(answer.v) else None)
         && error == (if answer.Failed? then Some(answer.e) else None)
    else calls == 0 && result == None && error == None
  }

  predicate Slots<V(==), E(==)>(s: Pool<V, E>, answers: seq<Answer<V, E>>) {
    && |s.phases| == |s.results| == |s.errors| == |s.calls| == |answers|
    && forall i :: 0 <= i < |s.phases| ==> Slot(s.phases[i], s.calls[i], s.results[i], s.errors[i], answers[i])
  }

  predicate Joined<V, E>(s: Pool<V, E>) {
    && s.joined <= |s.phases|
    && (forall i :: 0 <= i < s.joined ==> s.phases[i] == Finished)
    && (s.joined > 0 ==> forall i :: 0 <= i < |s.phases| ==> s.phases[i] != Unborn)
  }

  predicate Concluded<V(==), E(==)>(s: Pool<V, E>) {
    s.outcome.Pending? || (s.joined == |s.phases| && s.outcome == Conclusion(s.results, s.errors))
  }

  predicate Inv<V(==), E(==)>(s: Pool<V, E>, cap: nat, answers: seq<Answer<V, E>>) {
    Slots(s, answers) && Joined(s) && Concluded(s) && s.permits + Holders(s.phases) == cap
  }

  lemma InitialInv<V, E>(cap: nat, answers: seq<Answer<V, E>>)
    ensures Inv(Initial<V, E>(cap, |answers|), cap, answers)
  {
    HoldersZero(Initial<V, E>(cap, |answers|).phases);
  }

  lemma StepPermits<V, E>(s: Pool<V, E>, a: Action, answers: seq<Answer<V, E>>)
    requires Enabled(s, a) && |answers| == |s.phases|
    ensures Apply(s, a, answers).permits + Holders(Apply(s, a, answers).phases) == s.permits + Holders(s.phases)
  {
    match a
    case Start(i) => HoldersUpdate(s.phases, i, Waiting);
    case Acquire(i) => HoldersUpdate(s.phases, i, Running);
    case Call(i) => HoldersUpdate(s.phases, i, Leaving);
    case Release(i) => HoldersUpdate(s.phases, i, Finished);
    case Join =>
    case Finish =>
  }

  lemma StepInv<V, E>(s: Pool<V, E>, a: Action, cap: nat, answers: seq<Answer<V, E>>)
    requires Inv(s, cap, answers) && Enabled(s, a)
    ensures Inv(Apply(s, a, answers), cap, answers)
  {
    hide Holders, Conclusion;
    StepPermits(s, a, answers);
  }

  /** No deadlock: until the run has its outcome, some thread can move, as long as the cap is at least one. */
  lemma NoDeadlock<V, E>(s: Pool<V, E>, cap: nat, answers: seq<Answer<V, E>>) returns (a: Action)
    requires Inv(s, cap, answers) && cap >= 1 && s.outcome.Pending?
    ensures Enabled(s, a)
  {
    if i :| 0 <= i < |s.phases| && s.phases[i] == Running { return Call(i); }
    if i :| 0 <= i < |s.phases| && s.phases[i] == Leaving { return Release(i); }
    HoldersZero(s.phases);
    if i :| 0 <= i < |s.phases| && s.phases[i] == Waiting { return Acquire(i); }
    if exists i :: 0 <= i < |s.phases| && s.phases[i] == Unborn {
      var i: nat :| i < |s.phases| && s.phases[i] == Unborn;
      var least := LeastUnborn(s.phases, i);
      return Start(least);
    }
    return if s.joined < |s.phases| then Join else Finish;
  }

  lemma {:induction false} LeastUnborn(ps: seq<Phase>, i: nat) returns (k: nat)
    requires i < |ps| && ps[i] == Unborn
    ensures k < |ps| && ps[k] == Unborn && forall j :: 0 <= j < k ==> ps[j] != Unborn
    decreases i
  {
    if exists j :: 0 <= j < i && ps[j] == Unborn {
      var j: nat :| j < i && ps[j] == Unborn;
      k := LeastUnborn(ps, j);
    } else {
      k := i;
    }
  }

  // ------------------------------------------------------------------ how long it takes

  function StepsLeft(p: Phase): nat {
    match p
    case Unborn => 4
    case Waiting => 3
    case Running => 2
    case Leaving => 1
    case Finished => 0
  }

  function Work(ps: seq<Phase>): nat {
    if ps == [] then 0 else Work(ps[..|ps| - 1]) + StepsLeft(ps[|ps| - 1])
  }

  function Remaining<V, E>(s: Pool<V, E>): int {
    Work(s.phases) + (|s.phases| - s.joined) + if s.outcome.Pending? then 1 else 0
  }

  lemma {:induction false} WorkUpdate(ps: seq<Phase>, i: nat, p: Phase)
    requires i < |ps|
    ensures Work(ps[i := p]) == Work(ps) - StepsLeft(ps[i]) + StepsLeft(p)
  {
    var n := |ps| - 1;
    if i == n {
      assert ps[i := p][..n] == ps[..n];
    } else {
      WorkUpdate(ps[..n], i, p);
      assert ps[i := p][..n] == ps[..n][i := p];
    }
  }

  lemma {:induction false} WorkUnborn(n: nat)
    ensures Work(seq(n, i => Unborn)) == 4 * n
  {
    if n > 0 {
      WorkUnborn(n - 1);
      assert seq(n, i => Unborn)[..n - 1] == seq(n - 1, i => Unborn);
    }
  }

  lemma StepCounts<V, E>(s: Pool<V, E>, a: Action, answers: seq<Answer<V, E>>)
    requires Enabled(s, a) && |answers| == |s.phases|
    ensures Remaining(Apply(s, a, answers)) == Remaining(s) - 1
  {
    match a
    case Start(i) => WorkUpdate(s.phases, i, Waiting);
    case Acquire(i) => WorkUpdate(s.phases, i, Running);
    case Call(i) => WorkUpdate(s.phases, i, Leaving);
    case Release(i) => WorkUpdate(s.phases, i, Finished);
    case Join =>
    case Finish =>
  }

  // ------------------------------------------------------------------ every interleaving

  ghost predicate Legal<V, E>(s: Pool<V, E>, acts: seq<Action>, answers: seq<Answer<V, E>>)
    requires |answers| == |s.phases|
    decreases |acts|
  {
    acts == [] || (Enabled(s, acts[0]) && Legal(Apply(s, acts[0], answers), acts[1..], answers))
  }

  ghost function After<V, E>(s: Pool<V, E>, acts: seq<Action>, answers: seq<Answer<V, E>>): Pool<V, E>
    requires |answers| == |s.phases| && Legal(s, acts, answers)
    decreases |acts|
  {
    if acts == [] then s else After(Apply(s, acts[0], answers), acts[1..], answers)
  }

  /** One more step at the end. */
  lemma {:induction false} LegalSnoc<V, E>(s: Pool<V, E>, acts: seq<Action>, a: Action, answers: seq<Answer<V, E>>)
    requires |answers| == |s.phases| && Legal(s, acts, answers) && Enabled(After(s, acts, answers), a)
    ensures |After(s, acts, answers).phases| == |answers|
    ensures Legal(s, acts + [a], answers)
    ensures After(s, acts + [a], answers) == Apply(After(s, acts, answers), a, answers)
    decreases |acts|
  {
    if acts == [] {
      assert [] + [a] == [a] && [a][1..] == [];
      assert Legal(Apply(s, a, answers), [], answers);
    } else {
      assert (acts + [a])[0] == acts[0] && (acts + [a])[1..] == acts[1..] + [a];
      LegalSnoc(Apply(s, acts[0], answers), acts[1..], a, answers);
    }
  }

  lemma {:induction false} AfterKeeps<V, E>(s: Pool<V, E>, acts: seq<Action>, cap: nat, answers: seq<Answer<V, E>>)
    requires Inv(s, cap, answers) && Legal(s, acts, answers)
    ensures Inv(After(s, acts, answers), cap, answers)
    ensures Remaining(After(s, acts, answers)) == Remaining(s) - |acts|
    decreases |acts|
  {
    if acts != [] {
      StepInv(s, acts[0], cap, answers);
      StepCounts(s, acts[0], answers);
      AfterKeeps(Apply(s, acts[0], answers), acts[1..], cap, answers);
    }
  }

  lemma {:induction false} FirstErrorIs<E>(errors: seq<Option<E>>)
    ensures FirstError(errors).None? <==> forall i :: 0 <= i < |errors| ==> errors[i].None?
    ensures FirstError(errors).Some? ==>
              exists i :: 0 <= i < |errors| && errors[i] == FirstError(errors)
                          && forall j :: 0 <= j < i ==> errors[j].None?
  {
    if errors != [] && errors[0].None? {
      FirstErrorIs(errors[1..]);
      if FirstError(errors).Some? {
        var i :| 0 <= i < |errors[1..]| && errors[1..][i] == FirstError(errors)
                 && forall j :: 0 <= j < i ==> errors[1..][j].None?;
        assert errors[i + 1] == FirstError(errors);
        forall j | 0 <= j < i + 1 ensures errors[j].None? { if j > 0 { assert errors[j] == errors[1..][j - 1]; } }
      }
      assert forall i :: 0 < i < |errors| ==> errors[i] == errors[1..][i - 1];
    }
  }

  /** What a finished run owes its caller: every item was called once; with no failure the results line up with
      the items, otherwise the failure of the lowest index is raised. */
  ghost predicate Delivered<V, E>(outcome: Outcome<V, E>, calls: seq<nat>, answers: seq<Answer<V, E>>) {
    && |calls| == |answers| && (forall i :: 0 <= i < |calls| ==> calls[i] == 1)
    && match outcome
       case Pending => false
       case Returned(results) =>
         |results| == |answers|
         && forall i :: 0 <= i < |answers| ==> answers[i].Value? && results[i] == Some(answers[i].v)
       case Raised(e) =>
         exists i :: 0 <= i < |answers| && answers[i] == Failed(e) && forall j :: 0 <= j < i ==> answers[j].Value?
  }

  lemma FinishedDelivers<V, E>(s: Pool<V, E>, cap: nat, answers: seq<Answer<V, E>>)
    requires Inv(s, cap, answers) && !s.outcome.Pending?
    ensures Delivered(s.outcome, s.calls, answers)
  {
    FirstErrorIs(s.errors);
  }

  lemma {:induction false} Progress<V, E>(cap: nat, answers: seq<Answer<V, E>>, acts: seq<Action>)
    requires cap >= 1 && Legal(Initial(cap, |answers|), acts, answers)
    ensures var s := After(Initial(cap, |answers|), acts, answers);
            && s.permits + Holders(s.phases) == cap && Live(s.phases) <= cap
            && |acts| <= 5 * |answers| + 1
            && (s.outcome.Pending? <==> |acts| < 5 * |answers| + 1)
            && (s.outcome.Pending? ==> exists a :: Enabled(s, a))
            && (!s.outcome.Pending? ==> Delivered(s.outcome, s.calls, answers))
  {
    hide Legal, After, Enabled, Delivered, Holders;
    var s0 := Initial<V, E>(cap, |answers|);
    var s := After(s0, acts, answers);
    InitialInv(cap, answers);
    AfterKeeps(s0, acts, cap, answers);
    WorkUnborn(|answers|);
    LiveAreHolders(s.phases);
    if s.outcome.Pending? {
      var a := NoDeadlock(s, cap, answers);
    } else {
      WorkDone(s.phases);
      FinishedDelivers(s, cap, answers);
    }
  }

  /** After any legal interleaving: permits and permit holders add up to the cap, so no more than `cap` workers
      are live, and their memory stays in budget whenever one footprint does; the run is exactly `5n + 1` steps
      long, cannot get stuck before that, and then has delivered. */
  lemma {:induction false} EveryInterleaving<V, E>(budget: real, footprint: real, most: int,
                                                   answers: seq<Answer<V, E>>, acts: seq<Action>)
    requires ComputeCap(Some(budget), Some(footprint), most).Cap?
    requires Legal(Initial(ComputeCap(Some(budget), Some(footprint), most).value, |answers|), acts, answers)
    ensures var cap := ComputeCap(Some(budget), Some(footprint), most).value;
            var s := After(Initial(cap, |answers|), acts, answers);
            && s.permits + Holders(s.phases) == cap && Live(s.phases) <= cap
            && (footprint <= budget ==> Live(s.phases) as real * footprint <= budget)
            && |acts| <= 5 * |answers| + 1
            && (s.outcome.Pending? <==> |acts| < 5 * |answers| + 1)
            && (s.outcome.Pending? ==> exists a :: Enabled(s, a))
            && (!s.outcome.Pending? ==> Delivered(s.outcome, s.calls, answers))
  {
    hide Legal, After, Enabled, Delivered, Holders, Live;
    var cap := ComputeCap(Some(budget), Some(footprint), most).value;
    var s := After(Initial<V, E>(cap, |answers|), acts, answers);
    Progress(cap, answers, acts);
    if footprint <= budget { LiveFits(Live(s.phases), cap, footprint, budget); }
  }

  lemma LiveFits(live: nat, cap: nat, footprint: real, budget: real)
    requires live <= cap && footprint > 0.0 && cap as real * footprint <= budget
    ensures live as real * footprint <= budget
  {
    Scale(live as real, cap as real, footprint);
  }

  lemma {:induction false} WorkDone(ps: seq<Phase>)
    ensures (forall i :: 0 <= i < |ps| ==> ps[i] == Finished) ==> Work(ps) == 0
  {
    if ps != [] { WorkDone(ps[..|ps| - 1]); }
  }

  /** The run is a legal interleaving of its threads, with that many permits, from the start to its outcome. */
  ghost predicate RunsAs<V, E>(cap: nat, answers: seq<Answer<V, E>>, acts: seq<Action>, outcome: Outcome<V, E>,
                               calls: seq<nat>)
  {
    && Legal(Initial<V, E>(cap, |answers|), acts, answers)
    && var s := After(Initial<V, E>(cap, |answers|), acts, answers);
       s.outcome == outcome && s.calls == calls
  }

  lemma NoSteps<V, E>(s: Pool<V, E>, answers: seq<Answer<V, E>>)
    requires |answers| == |s.phases|
    ensures Legal(s, [], answers) && After(s, [], answers) == s
  {
  }

  lemma InvShape<V, E>(s: Pool<V, E>, cap: nat, answers: seq<Answer<V, E>>)
    requires Inv(s, cap, answers)
    ensures |s.phases| == |answers| && Remaining(s) >= 0
  {
  }

  // ------------------------------------------------------------------ the pool object

  /** Audit record written before dispatch. */
  datatype PoolRunRecord = PoolRunRecord(
    runId: string, cap: nat, budget: real, footprint: real, maxConcurrency: int, itemCount: nat)

  class WorkerPool {
    var runLedger: seq<PoolRunRecord>

    constructor () ensures runLedger == [] { runLedger := []; }

    /** `run`, under a scheduler that may ask for any step; a step that is not possible is replaced by one that is. */
    method Run<V(==), E(==)>(runId: string, budget: Option<real>, footprint: Option<real>, maxConcurrency: int,
                             answers: seq<Answer<V, E>>, schedule: nat -> Action)
      returns (config: Cap, outcome: Outcome<V, E>, calls: seq<nat>, ghost acts: seq<Action>)
      modifies this
      ensures config == ComputeCap(budget, footprint, maxConcurrency)
      ensures config.ConfigError? ==> runLedger == old(runLedger) && outcome.Pending?
      ensures config.Cap? ==>
        && runLedger == old(runLedger) + [PoolRunRecord(runId, config.value, budget.value, footprint.value,
                                                        maxConcurrency, |answers|)]
        && Delivered(outcome, calls, answers) && RunsAs(config.value, answers, acts, outcome, calls)
    {
      config := ComputeCap(budget, footprint, maxConcurrency);
      outcome, calls, acts := Pending, [], [];
      if config.ConfigError? { return; }
      runLedger := runLedger + [PoolRunRecord(runId, config.value, budget.value, footprint.value,
                                              maxConcurrency, |answers|)];
      outcome, calls, acts := Dispatch(config.value, answers, schedule);
    }

    /** The threads of one run, from the first start to the last join. */
    static method Dispatch<V(==), E(==)>(cap: nat, answers: seq<Answer<V, E>>, schedule: nat -> Action)
      returns (outcome: Outcome<V, E>, calls: seq<nat>, ghost acts: seq<Action>)
      requires cap >= 1
      ensures Delivered(outcome, calls, answers) && RunsAs(cap, answers, acts, outcome, calls)
    {
      hide Enabled, Apply, Legal, After, Inv, Delivered, Remaining;
      var s := Initial<V, E>(cap, |answers|);
      acts := [];
      NoSteps(s, answers);
      InitialInv(cap, answers);
      InvShape(s, cap, answers);
      var step := 0;
      while s.outcome.Pending?
        invariant Inv(s, cap, answers) && |s.phases| == |answers| && Remaining(s) >= 0
        invariant Legal(Initial<V, E>(cap, |answers|), acts, answers)
        invariant After(Initial<V, E>(cap, |answers|), acts, answers) == s
        decreases Remaining(s)
      {
        var a := schedule(step);
        if !Enabled(s, a) { a := SomeStep(s, cap, answers); }
        StepInv(s, a, cap, answers);
        StepCounts(s, a, answers);
        LegalSnoc(Initial<V, E>(cap, |answers|), acts, a, answers);
        acts := acts + [a];
        s := Apply(s, a, answers);
        InvShape(s, cap, answers);
        step := step + 1;
      }
      FinishedDelivers(s, cap, answers);
      outcome, calls := s.outcome, s.calls;
    }

    /** The first thread that can move, else the main thread. */
    static method SomeStep<V(==), E(==)>(s: Pool<V, E>, ghost cap: nat, ghost answers: seq<Answer<V, E>>)
      returns (a: Action)
      requires Inv(s, cap, answers) && cap >= 1 && s.outcome.Pending?
      ensures Enabled(s, a)
    {
      for i := 0 to |s.phases|
        invariant forall j :: 0 <= j < i ==> s.phases[j] != Unborn && !Holds(s.phases[j])
        invariant forall j :: 0 <= j < i && s.phases[j] == Waiting ==> s.permits == 0
      {
        match s.phases[i]
        case Unborn => return Start(i);
        case Waiting => if s.permits > 0 { return Acquire(i); }
        case Running => return Call(i);
        case Leaving => return Release(i);
        case Finished =>
      }
      HoldersZero(s.phases);
      assert forall j :: 0 <= j < |s.phases| ==> s.phases[j] == Finished;
      return if s.joined < |s.phases| then Join else Finish;
    }
  }
}
