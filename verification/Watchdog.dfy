/** watchdog.py: heartbeat throttling, the wedge and wall-clock decision, and the supervision loop. */
module Watchdog {
  import opened Models

  const CPU_EPSILON: real := 0.05
  const FAILURE_BACKOFF_COUNT := 3

  /** What happens to a session, in the order it happens. `Beat` is one call of the heartbeat sink, `Checked` one
      decision whether to kill. */
  datatype Event =
    | Started(at: real)
    | Wrote(at: real)
    | Attached(at: real, probe: bool)
    | Sampled(at: real, cpu: real)
    | ProbeBroke(at: real)
    | Beat(at: real, delivered: bool)
    | Checked(at: real)

  datatype Reason = Wedged | WallClockExceeded

  // ------------------------------------------------------------------ reading a trace

  function Init(tr: seq<Event>): seq<Event>
    requires tr != []
  {
    tr[..|tr| - 1]
  }

  function Last(tr: seq<Event>): Event
    requires tr != []
  {
    tr[|tr| - 1]
  }

  lemma Snoc(tr: seq<Event>, e: Event)
    ensures Init(tr + [e]) == tr && Last(tr + [e]) == e
  {
  }

  /** The clock never goes back, and has reached `now`. */
  ghost predicate Monotone(tr: seq<Event>, now: real) {
    && (forall i, j :: 0 <= i < j < |tr| ==> tr[i].at <= tr[j].at)
    && forall i :: 0 <= i < |tr| ==> tr[i].at <= now
  }

  lemma Later(tr: seq<Event>, now: real, later: real)
    requires Monotone(tr, now) && now <= later
    ensures Monotone(tr, later)
  {
  }

  function LastStart(tr: seq<Event>): Option<real> {
    if tr == [] then None else if Last(tr).Started? then Some(Last(tr).at) else LastStart(Init(tr))
  }

  /** Starting counts as output. */
  predicate IsOutput(e: Event) { e.Started? || e.Wrote? }

  function LastOutput(tr: seq<Event>): Option<real> {
    if tr == [] then None else if IsOutput(Last(tr)) then Some(Last(tr).at) else LastOutput(Init(tr))
  }

  /** The last sink call of the current session. */
  function LastBeat(tr: seq<Event>): Option<real> {
    if tr == [] || Last(tr).Started? then None
    else if Last(tr).Beat? then Some(Last(tr).at) else LastBeat(Init(tr))
  }

  /** Sink failures since the last sink success, across sessions. */
  function FailRun(tr: seq<Event>): nat {
    if tr == [] then 0
    else if Last(tr).Beat? then (if Last(tr).delivered then 0 else FailRun(Init(tr)) + 1)
    else FailRun(Init(tr))
  }

  /** When the session was checked. */
  function ChecksIn(tr: seq<Event>): seq<real> {
    if tr == [] then [] else ChecksIn(Init(tr)) + if Last(tr).Checked? then [Last(tr).at] else []
  }

  /** A probe is attached and has not raised. */
  predicate Working(tr: seq<Event>) {
    tr != [] && if Last(tr).Attached? then Last(tr).probe else !Last(tr).ProbeBroke? && Working(Init(tr))
  }

  /** The CPU total at the last advance of the current probe. */
  function Base(tr: seq<Event>): Option<real>
    decreases |tr|, 0
  {
    if tr == [] || Last(tr).Attached? then None
    else if IsAdvance(tr, |tr| - 1) then Some(Last(tr).cpu)
    else Base(Init(tr))
  }

  /** A sample that is the first of its probe, or at least epsilon above the last advance. */
  predicate IsAdvance(tr: seq<Event>, k: int)
    requires 0 <= k < |tr|
    decreases k, 1
  {
    tr[k].Sampled? && (Base(tr[..k]).None? || tr[k].cpu - Base(tr[..k]).value >= 0.05)
  }

  function Advanced(tr: seq<Event>): Option<real> {
    if tr == [] then None
    else if IsAdvance(tr, |tr| - 1) then Some(Last(tr).at)
    else Advanced(Init(tr))
  }

  // ------------------------------------------------------------------ heartbeats

  function Gap(interval: real, failures: nat): real {
    if failures >= FAILURE_BACKOFF_COUNT then interval * 2.0 else interval
  }

  predicate Due(tr: seq<Event>, now: real, interval: real) {
    LastBeat(tr).None? || now - LastBeat(tr).value >= Gap(interval, FailRun(tr))
  }

  /** Every sink call was due when it was made. */
  predicate Throttled(tr: seq<Event>, interval: real) {
    tr == [] || (Throttled(Init(tr), interval) && (Last(tr).Beat? ==> Due(Init(tr), Last(tr).at, interval)))
  }

  /** Any two sink calls of one session are an interval apart, two intervals when the later one follows three or
      more failures in a row. */
  lemma {:induction false} BeatsAreSpaced(tr: seq<Event>, now: real, interval: real, i: nat, j: nat)
    requires Throttled(tr, interval) && Monotone(tr, now)
    requires i < j < |tr| && tr[i].Beat? && tr[j].Beat?
    requires forall k :: i < k < j ==> !tr[k].Started?
    ensures tr[j].at - tr[i].at >= Gap(interval, FailRun(tr[..j]))
  {
    if j == |tr| - 1 {
      LastBeatAfter(Init(tr), tr[j].at, i);
      assert Init(tr) == tr[..j];
    } else {
      BeatsAreSpaced(Init(tr), now, interval, i, j);
      assert Init(tr)[..j] == tr[..j];
    }
  }

  lemma {:induction false} LastBeatAfter(tr: seq<Event>, now: real, i: nat)
    requires Monotone(tr, now) && i < |tr| && tr[i].Beat? && forall k :: i < k < |tr| ==> !tr[k].Started?
    ensures LastBeat(tr).Some? && tr[i].at <= LastBeat(tr).value
  {
    if !Last(tr).Beat? { LastBeatAfter(Init(tr), now, i); }
  }

  /** A heartbeat is due exactly if every sink call of the current session, if there was any, lies an interval back;
      after three failures in a row, two intervals. */
  lemma {:induction false} DueExactly(tr: seq<Event>, now: real, interval: real)
    requires Monotone(tr, now)
    ensures Due(tr, now, interval) <==>
              forall i :: 0 <= i < |tr| && tr[i].Beat? && (forall k :: i < k < |tr| ==> !tr[k].Started?) ==>
                now - tr[i].at >= if FailRun(tr) >= 3 then interval * 2.0 else interval
  {
    hide FailRun;
    LastBeatIs(tr);
    forall i | 0 <= i < |tr| && tr[i].Beat? && forall k :: i < k < |tr| ==> !tr[k].Started?
      ensures LastBeat(tr).Some? && tr[i].at <= LastBeat(tr).value
    {
      LastBeatAfter(tr, now, i);
    }
  }

  lemma {:induction false} LastBeatIs(tr: seq<Event>)
    ensures LastBeat(tr).Some? ==>
              exists i :: 0 <= i < |tr| && tr[i].Beat? && tr[i].at == LastBeat(tr).value
                          && forall k :: i < k < |tr| ==> !tr[k].Started?
  {
    if tr != [] && !Last(tr).Started? {
      if Last(tr).Beat? {
        assert tr[|tr| - 1].Beat?;
      } else {
        LastBeatIs(Init(tr));
        if LastBeat(tr).Some? {
          var i :| 0 <= i < |Init(tr)| && Init(tr)[i].Beat? && Init(tr)[i].at == LastBeat(tr).value
                   && forall k :: i < k < |Init(tr)| ==> !Init(tr)[k].Started?;
          assert tr[i] == Init(tr)[i];
          forall k | i < k < |tr| ensures !tr[k].Started? { assert k < |tr| - 1 ==> tr[k] == Init(tr)[k]; }
        }
      }
    }
  }

  /** What one more event adds. */
  lemma Extend(tr: seq<Event>, e: Event, now: real, interval: real)
    requires Monotone(tr, now) && now <= e.at
    ensures Monotone(tr + [e], e.at)
    ensures LastStart(tr + [e]) == if e.Started? then Some(e.at) else LastStart(tr)
    ensures LastOutput(tr + [e]) == if IsOutput(e) then Some(e.at) else LastOutput(tr)
    ensures LastBeat(tr + [e]) == if e.Started? then None else if e.Beat? then Some(e.at) else LastBeat(tr)
    ensures FailRun(tr + [e]) == if !e.Beat? then FailRun(tr) else if e.delivered then 0 else FailRun(tr) + 1
    ensures Working(tr + [e]) == if e.Attached? then e.probe else !e.ProbeBroke? && Working(tr)
    ensures var advance := e.Sampled? && (Base(tr).None? || e.cpu - Base(tr).value >= 0.05);
            && Base(tr + [e]) == (if e.Attached? then None else if advance then Some(e.cpu) else Base(tr))
            && Advanced(tr + [e]) == (if advance then Some(e.at) else Advanced(tr))
    ensures ChecksIn(tr + [e]) == ChecksIn(tr) + if e.Checked? then [e.at] else []
    ensures Throttled(tr + [e], interval) <==> Throttled(tr, interval) && (e.Beat? ==> Due(tr, e.at, interval))
  {
    Snoc(tr, e);
    var all := tr + [e];
    assert all[..|all| - 1] == tr;
  }

  // ------------------------------------------------------------------ when a session is killed

  function Verdict(tr: seq<Event>, now: real, alive: bool, wedge: real, cap: real): Option<Reason> {
    if LastStart(tr).Some? && now - LastStart(tr).value >= cap then Some(WallClockExceeded)
    else if alive && LastOutput(tr).Some? && now - LastOutput(tr).value >= wedge then
      if Working(tr) && Advanced(tr).Some? && now - Advanced(tr).value < wedge then None else Some(Wedged)
    else None
  }

  /** The wedge verdict in terms of what happened: below the cap, the process is alive, it has been silent for the
      whole threshold, and a working probe has seen no advance in that time. */
  lemma WedgedExactly(tr: seq<Event>, now: real, alive: bool, wedge: real, cap: real)
    requires Monotone(tr, now)
    ensures Verdict(tr, now, alive, wedge, cap) == Some(Wedged) <==>
              && alive
              && (LastStart(tr).Some? ==> now - LastStart(tr).value < cap)
              && (exists k :: 0 <= k < |tr| && IsOutput(tr[k]))
              && (forall k :: 0 <= k < |tr| && IsOutput(tr[k]) ==> now - tr[k].at >= wedge)
              && (Working(tr) ==> forall k :: 0 <= k < |tr| && IsAdvance(tr, k) ==> now - tr[k].at >= wedge)
  {
    hide Working, IsAdvance, IsOutput, LastStart;
    OutputIs(tr, now);
    AdvancedIs(tr, now);
  }

  lemma {:induction false} OutputIs(tr: seq<Event>, now: real)
    requires Monotone(tr, now)
    ensures LastOutput(tr).None? <==> forall k :: 0 <= k < |tr| ==> !IsOutput(tr[k])
    ensures LastOutput(tr).Some? ==>
              && (exists k :: 0 <= k < |tr| && IsOutput(tr[k]) && tr[k].at == LastOutput(tr).value)
              && forall k :: 0 <= k < |tr| && IsOutput(tr[k]) ==> tr[k].at <= LastOutput(tr).value
  {
    if tr != [] && !IsOutput(Last(tr)) {
      OutputIs(Init(tr), now);
      assert forall k :: 0 <= k < |tr| - 1 ==> Init(tr)[k] == tr[k];
    }
  }

  lemma AdvanceOfPrefix(tr: seq<Event>, k: nat)
    requires k < |tr| - 1
    ensures IsAdvance(Init(tr), k) <==> IsAdvance(tr, k)
  {
    assert Init(tr)[..k] == tr[..k];
  }

  lemma {:induction false} AdvancedIs(tr: seq<Event>, now: real)
    requires Monotone(tr, now)
    ensures Advanced(tr).Some? ==> exists k :: 0 <= k < |tr| && IsAdvance(tr, k) && tr[k].at == Advanced(tr).value
    ensures forall k :: 0 <= k < |tr| && IsAdvance(tr, k) ==> Advanced(tr).Some? && tr[k].at <= Advanced(tr).value
  {
    if tr != [] && !IsAdvance(tr, |tr| - 1) {
      AdvancedIs(Init(tr), now);
      if Advanced(tr).Some? {
        var k :| 0 <= k < |tr| - 1 && IsAdvance(Init(tr), k) && Init(tr)[k].at == Advanced(tr).value;
        AdvanceOfPrefix(tr, k);
      }
      forall k | 0 <= k < |tr| && IsAdvance(tr, k) ensures Advanced(tr).Some? && tr[k].at <= Advanced(tr).value {
        AdvanceOfPrefix(tr, k);
        assert Init(tr)[k] == tr[k];
      }
    }
  }

  /** The samples from `i` on come from one probe. */
  ghost predicate OneProbe(tr: seq<Event>, i: nat) { forall k :: i < k < |tr| ==> !tr[k].Attached? }

  /** CPU totals of one probe do not fall. */
  ghost predicate Rising(tr: seq<Event>) {
    forall i, j :: 0 <= i < j < |tr| && tr[i].Sampled? && tr[j].Sampled? && (forall k :: i < k < j ==> !tr[k].Attached?)
                   ==> tr[i].cpu <= tr[j].cpu
  }

  /** A session killed as wedged with a working probe burnt less than epsilon between any two samples of the
      threshold window, the first of which is not below the total of the last advance. */
  lemma WedgedMeansIdle(tr: seq<Event>, now: real, alive: bool, wedge: real, cap: real, i: nat, j: nat)
    requires Monotone(tr, now) && Working(tr)
    requires Verdict(tr, now, alive, wedge, cap) == Some(Wedged)
    requires i < j < |tr| && tr[i].Sampled? && tr[j].Sampled? && OneProbe(tr, i) && now - tr[i].at < wedge
    requires Base(tr[..i]).Some? ==> Base(tr[..i]).value <= tr[i].cpu
    ensures tr[j].cpu - tr[i].cpu < 0.05
  {
    hide Verdict, Working, IsAdvance, Base, IsOutput, LastStart;
    QuietWindow(tr, now, alive, wedge, cap, i);
    BaseStays(tr, i, j);
    NoAdvance(tr, i);
    NoAdvance(tr, j);
  }

  /** That condition is needed: work of at least epsilon after a sample always shows as an advance exactly if the
      sample is not below the total of the last advance. */
  lemma WorkShowsExactly(tr: seq<Event>, at: real)
    requires tr != [] && Last(tr).Sampled? && Base(tr).Some?
    ensures (forall c: real :: c - Last(tr).cpu >= 0.05 ==> IsAdvance(tr + [Sampled(at, c)], |tr|)) <==>
            Base(tr).value <= Last(tr).cpu
  {
    hide Base;
    var burnt := Last(tr).cpu + 0.05;
    forall c: real ensures IsAdvance(tr + [Sampled(at, c)], |tr|) <==> c - Base(tr).value >= 0.05 {
      assert (tr + [Sampled(at, c)])[..|tr|] == tr;
    }
    assert IsAdvance(tr + [Sampled(at, burnt)], |tr|) <==> burnt - Base(tr).value >= 0.05;
  }

  lemma QuietWindow(tr: seq<Event>, now: real, alive: bool, wedge: real, cap: real, i: nat)
    requires Monotone(tr, now) && Working(tr) && Verdict(tr, now, alive, wedge, cap) == Some(Wedged)
    requires i < |tr| && now - tr[i].at < wedge
    ensures forall k :: i <= k < |tr| ==> !IsAdvance(tr, k)
  {
    hide Verdict, Working, IsAdvance, Base, IsOutput, LastStart;
    WedgedExactly(tr, now, alive, wedge, cap);
    forall k | i <= k < |tr| ensures !IsAdvance(tr, k) { assert tr[i].at <= tr[k].at; }
  }

  lemma NoAdvance(tr: seq<Event>, k: nat)
    requires k < |tr| && tr[k].Sampled? && !IsAdvance(tr, k)
    ensures Base(tr[..k]).Some? && tr[k].cpu - Base(tr[..k]).value < 0.05
  {
  }

  /** While totals do not fall, no sample is below the base it is compared with. */
  lemma BelowBase(tr: seq<Event>, i: nat)
    requires Rising(tr) && i < |tr| && tr[i].Sampled?
    ensures Base(tr[..i]).Some? ==> Base(tr[..i]).value <= tr[i].cpu
  {
    BaseIsSample(tr[..i]);
    if Base(tr[..i]).Some? {
      var k :| 0 <= k < i && tr[..i][k].Sampled? && tr[..i][k].cpu == Base(tr[..i]).value && OneProbe(tr[..i], k);
      assert tr[k] == tr[..i][k];
      forall m | k < m < i ensures !tr[m].Attached? { assert tr[m] == tr[..i][m]; }
    }
  }

  lemma {:induction false} BaseStays(tr: seq<Event>, i: nat, j: nat)
    requires i <= j < |tr| && forall k :: i <= k < j ==> !tr[k].Attached? && !IsAdvance(tr, k)
    ensures Base(tr[..j]) == Base(tr[..i])
  {
    if i < j {
      BaseStays(tr, i, j - 1);
      assert Init(tr[..j]) == tr[..j - 1];
      assert tr[..j][..j - 1] == tr[..j - 1];
    }
  }

  /** The base is a sample of the current probe. */
  lemma {:induction false} BaseIsSample(tr: seq<Event>)
    ensures Base(tr).Some? ==>
              exists k :: 0 <= k < |tr| && tr[k].Sampled? && tr[k].cpu == Base(tr).value && OneProbe(tr, k)
  {
    if tr != [] && Base(tr).Some? && !IsAdvance(tr, |tr| - 1) {
      BaseIsSample(Init(tr));
      var k :| 0 <= k < |tr| - 1 && Init(tr)[k].Sampled? && Init(tr)[k].cpu == Base(tr).value && OneProbe(Init(tr), k);
      forall m | k < m < |tr| ensures !tr[m].Attached? { if m < |tr| - 1 { assert tr[m] == Init(tr)[m]; } }
      assert OneProbe(tr, k);
    } else if tr != [] && Base(tr).Some? {
      assert OneProbe(tr, |tr| - 1);
    }
  }

  /** Totals do fall when a child of the session exits, and then the claim fails: five CPU seconds burnt in the
      last minute, below the total of the child that left, and the session still counts as wedged. */
  lemma FallingTotalHidesWork() returns (tr: seq<Event>)
    ensures Monotone(tr, 700.0) && Working(tr) && !Rising(tr)
    ensures Verdict(tr, 700.0, true, 600.0, 5400.0) == Some(Wedged)
    ensures |tr| == 5 && tr[4] == Sampled(700.0, 10.0) && tr[3] == Sampled(650.0, 5.0) && OneProbe(tr, 3)
  {
    hide LastStart, LastOutput, LastBeat, FailRun, Working, Base, Advanced, Throttled, Monotone, ChecksIn;
    EmptyTrace();
    var t1 := [] + [Attached(0.0, true)];
    var t2 := t1 + [Started(0.0)];
    var t3 := t2 + [Sampled(0.0, 100.0)];
    var t4 := t3 + [Sampled(650.0, 5.0)];
    tr := t4 + [Sampled(700.0, 10.0)];
    Extend([], Attached(0.0, true), 0.0, 60.0);
    Extend(t1, Started(0.0), 0.0, 60.0);
    Extend(t2, Sampled(0.0, 100.0), 0.0, 60.0);
    Extend(t3, Sampled(650.0, 5.0), 0.0, 60.0);
    Extend(t4, Sampled(700.0, 10.0), 650.0, 60.0);
    assert tr[2].cpu > tr[3].cpu;
  }

  lemma EmptyTrace()
    ensures Monotone([], 0.0) && LastStart([]) == None && LastOutput([]) == None && !Working([])
    ensures Base([]) == None && Advanced([]) == None
  {
  }

  // ------------------------------------------------------------------ what each operation adds to the trace

  /** A working probe is sampled, or found to raise. */
  function AfterSample(tr: seq<Event>, answer: Option<real>, at: real): seq<Event> {
    if !Working(tr) then tr
    else tr + [if answer.Some? then Sampled(at, answer.value) else ProbeBroke(at)]
  }

  /** A due heartbeat calls the sink, if there is one. */
  function AfterHeartbeat(tr: seq<Event>, at: real, interval: real, hasSink: bool, ok: bool): seq<Event> {
    if hasSink && Due(tr, at, interval) then tr + [Beat(at, ok)] else tr
  }

  /** At each check since position `from`, the verdict on the trace so far was to go on. */
  ghost predicate Spared(tr: seq<Event>, from: nat, wedge: real, cap: real) {
    forall j :: from <= j < |tr| && tr[j].Checked? ==> Verdict(tr[..j + 1], tr[j].at, true, wedge, cap) == None
  }

  /** Every check but the last of a kill found nothing overdue. */
  ghost predicate SparedUntil(tr: seq<Event>, from: nat, wedge: real, cap: real, killed: bool) {
    if killed then tr != [] && Spared(Init(tr), from, wedge, cap) else Spared(tr, from, wedge, cap)
  }

  lemma SparedMore(tr: seq<Event>, more: seq<Event>, from: nat, wedge: real, cap: real)
    requires SparedUntil(tr, from, wedge, cap, false) && tr <= more && from <= |tr|
    requires forall j :: |tr| <= j < |more| - 1 ==> !more[j].Checked?
    requires |more| > |tr| && more[|more| - 1].Checked?
    ensures SparedUntil(more, from, wedge, cap, true)
    ensures Verdict(more, more[|more| - 1].at, true, wedge, cap) == None ==> SparedUntil(more, from, wedge, cap, false)
  {
    hide Verdict;
    forall j | from <= j < |more| - 1 && more[j].Checked?
      ensures Verdict(more[..j + 1], more[j].at, true, wedge, cap) == None
    {
      assert more[..j + 1] == tr[..j + 1];
    }
    assert more[..|more|] == more;
    assert forall j :: 0 <= j < |more| ==> more[..|more| - 1][..j] == more[..j];
  }

  lemma NoCheckYet(tr: seq<Event>, wedge: real, cap: real)
    ensures SparedUntil(tr, |tr|, wedge, cap, false)
  {
  }

  // ------------------------------------------------------------------ the objects

  /** Clock, probe and sink, with arbitrary answers; the clock does not go back. */
  class World {
    var now: real
    var asked: nat
    const elapse: nat -> real
    const probe: nat -> Option<real>
    const sink: nat -> bool

    constructor (now: real, elapse: nat -> real, probe: nat -> Option<real>, sink: nat -> bool)
      ensures this.now == now
    {
      this.now, this.asked, this.elapse, this.probe, this.sink := now, 0, elapse, probe, sink;
    }

    method Clock() returns (t: real)
      modifies this
      ensures t == now && old(now) <= now && asked == old(asked) + 1
    {
      if elapse(asked) > 0.0 { now := now + elapse(asked); }
      asked := asked + 1;
      t := now;
    }

    method Probe() returns (sample: Option<real>)
      modifies `asked
      ensures sample == probe(old(asked)) && asked == old(asked) + 1
    {
      sample := probe(asked);
      asked := asked + 1;
    }

    method Sink() returns (ok: bool)
      modifies `asked
      ensures ok == sink(old(asked)) && asked == old(asked) + 1
    {
      ok := sink(asked);
      asked := asked + 1;
    }

    /** `stop.wait(step)` without the event being set: at least the step goes by. */
    method Wait(step: real)
      requires step > 0.0
      modifies this
      ensures now >= old(now) + step
    {
      now := now + step;
      var t := Clock();
    }
  }

  class SessionWatchdog {
    const world: World
    const hasSink: bool
    const wedge: real
    const cap: real
    const interval: real
    var hasProbe: bool
    var probeBroken: bool
    var lastCpu: Option<real>
    var firstCpu: Option<real>
    var lastAdvance: Option<real>
    var start: Option<real>
    var lastOutput: Option<real>
    var lastHb: Option<real>
    var hbFailures: nat
    var hbWrites: nat
    var firedReason: Option<Reason>
    ghost var trace: seq<Event>

    /** The fields are what the trace says, and the trace is throttled. */
    ghost predicate Valid()
      reads this, world
    {
      && start == LastStart(trace) && lastOutput == LastOutput(trace)
      && hbFailures == FailRun(trace) && (hasSink ==> lastHb == LastBeat(trace))
      && ((hasProbe && !probeBroken) <==> Working(trace))
      && lastCpu == Base(trace) && lastAdvance == Advanced(trace)
      && Monotone(trace, world.now) && Throttled(trace, interval)
    }

    constructor (world: World, hasSink: bool, wedge: real, cap: real, interval: real, hasProbe: bool)
      ensures Valid() && this.world == world && this.wedge == wedge && this.cap == cap && this.interval == interval
      ensures trace == [Attached(world.now, hasProbe)]
    {
      this.world, this.hasSink, this.wedge, this.cap, this.interval := world, hasSink, wedge, cap, interval;
      this.hasProbe, probeBroken, lastCpu, firstCpu, lastAdvance := hasProbe, false, None, None, None;
      start, lastOutput, lastHb, hbFailures, hbWrites, firedReason := None, None, None, 0, 0, None;
      trace := [Attached(world.now, hasProbe)];
      new;
      Snoc([], Attached(world.now, hasProbe));
    }

    method Start()
      requires Valid()
      modifies this, world
      ensures Valid() && start.Some? && old(trace) < trace && old(world.now) <= start.value <= world.now
      ensures firedReason == None
      ensures trace == AfterSample(old(trace) + [Started(start.value)], world.probe(old(world.asked) + 1), world.now)
    {
      hide Monotone, Throttled, Working, Base, Advanced, LastBeat, LastOutput, LastStart, FailRun, ChecksIn;
      ghost var was := world.now;
      var now := world.Clock();
      Extend(trace, Started(now), was, interval);
      start, lastOutput, lastHb, firedReason := Some(now), Some(now), None, None;
      trace := trace + [Started(now)];
      SampleCpu();
    }

    method SetCpuProbe(probe: bool)
      requires Valid()
      modifies this, world
      ensures Valid() && old(trace) < trace && start == old(start) && old(world.now) <= world.now
      ensures trace == AfterSample(old(trace) + [Attached(old(world.now), probe)], world.probe(old(world.asked)),
                                   world.now)
    {
      hide Monotone, Throttled, Working, Base, Advanced, LastBeat, LastOutput, LastStart, FailRun, ChecksIn;
      Extend(trace, Attached(world.now, probe), world.now, interval);
      hasProbe, probeBroken, lastCpu, firstCpu := probe, false, None, None;
      trace := trace + [Attached(world.now, probe)];
      SampleCpu();
    }

    method SampleCpu()
      requires Valid()
      modifies this, world
      ensures Valid() && old(trace) <= trace && start == old(start) && firedReason == old(firedReason)
      ensures lastOutput == old(lastOutput) && old(world.now) <= world.now
      ensures trace == AfterSample(old(trace), world.probe(old(world.asked)), world.now)
      ensures Working(trace) ==> |trace| == |old(trace)| + 1 && Last(trace).Sampled?
      ensures ChecksIn(trace) == ChecksIn(old(trace))
    {
      hide Monotone, Throttled, Working, Base, Advanced, LastBeat, LastOutput, LastStart, FailRun, ChecksIn;
      if !hasProbe || probeBroken { return; }
      var answer := world.Probe();
      if answer.None? {
        Extend(trace, ProbeBroke(world.now), world.now, interval);
        probeBroken := true;
        trace := trace + [ProbeBroke(world.now)];
        return;
      }
      var sample := answer.value;
      ghost var was := world.now;
      var now := world.Clock();
      Extend(trace, Sampled(now, sample), was, interval);
      trace := trace + [Sampled(now, sample)];
      if lastCpu.None? {
        lastCpu, firstCpu, lastAdvance := Some(sample), Some(sample), Some(now);
      } else if sample - lastCpu.value >= CPU_EPSILON {
        lastAdvance, lastCpu := Some(now), Some(sample);
      }
    }

    method NoteOutput()
      requires Valid()
      modifies this, world
      ensures Valid() && old(trace) < trace && start == old(start) && old(world.now) <= world.now
      ensures lastOutput.Some? && old(world.now) <= lastOutput.value <= world.now
      ensures trace == AfterHeartbeat(old(trace) + [Wrote(lastOutput.value)], world.now, interval, hasSink,
                                      world.sink(old(world.asked) + 2))
    {
      hide Monotone, Throttled, Working, Base, Advanced, LastBeat, LastOutput, LastStart, FailRun, ChecksIn;
      ghost var was := world.now;
      var now := world.Clock();
      Extend(trace, Wrote(now), was, interval);
      lastOutput := Some(now);
      trace := trace + [Wrote(now)];
      ghost var wrote := trace;
      Heartbeat();
      assert wrote <= trace;
    }

    method Tick(alive: bool)
      requires Valid()
      modifies this, world
      ensures Valid() && old(trace) <= trace && start == old(start) && old(world.now) <= world.now
      ensures firedReason == old(firedReason)
      ensures trace == if alive
                       then AfterHeartbeat(old(trace), world.now, interval, hasSink, world.sink(old(world.asked) + 1))
                       else old(trace)
      ensures ChecksIn(trace) == ChecksIn(old(trace))
    {
      if alive { Heartbeat(); }
    }

    /** The sink is called exactly when a heartbeat is due at the moment the clock is read. */
    method Heartbeat()
      requires Valid()
      modifies this, world
      ensures Valid() && start == old(start) && lastOutput == old(lastOutput) && firedReason == old(firedReason)
      ensures old(world.now) <= world.now
      ensures ChecksIn(trace) == ChecksIn(old(trace))
      ensures trace == AfterHeartbeat(old(trace), world.now, interval, hasSink, world.sink(old(world.asked) + 1))
      ensures hbWrites == old(hbWrites)
                          + if |trace| > |old(trace)| && world.sink(old(world.asked) + 1) then 1 else 0
    {
      hide Monotone, Throttled, Working, Base, Advanced, LastBeat, LastOutput, LastStart, FailRun, ChecksIn;
      ghost var was := world.now;
      var now := world.Clock();
      Later(trace, was, now);
      var every := interval;
      if hbFailures >= FAILURE_BACKOFF_COUNT { every := interval * 2.0; }
      if !(lastHb.None? || now - lastHb.value >= every) { return; }
      if !hasSink {
        lastHb := Some(now);
        return;
      }
      var ok := world.Sink();
      Extend(trace, Beat(now, ok), now, interval);
      trace := trace + [Beat(now, ok)];
      lastHb := Some(now);
      if ok {
        hbWrites, hbFailures := hbWrites + 1, 0;
      } else {
        hbFailures := hbFailures + 1;
      }
    }

    /** Samples the probe once more, then decides on the whole trace; the check itself is recorded. */
    method OverdueReason(alive: bool) returns (reason: Option<Reason>)
      requires Valid()
      modifies this, world
      ensures Valid() && old(trace) <= trace && start == old(start) && old(world.now) <= world.now
      ensures firedReason == old(firedReason)
      ensures reason == Verdict(trace, world.now, alive, wedge, cap)
      ensures reason.None? && start.Some? ==> world.now - start.value < cap
      ensures ChecksIn(trace) == ChecksIn(old(trace)) + [world.now]
      ensures exists at :: old(world.now) <= at <= world.now
                && trace == AfterSample(old(trace), world.probe(old(world.asked)), at) + [Checked(world.now)]
    {
      hide Monotone, Throttled, Working, Base, Advanced, LastBeat, LastOutput, LastStart, FailRun, ChecksIn;
      SampleCpu();
      ghost var was := world.now;
      var now := world.Clock();
      Extend(trace, Checked(now), was, interval);
      trace := trace + [Checked(now)];
      reason :=
        if start.Some? && now - start.value >= cap then Some(WallClockExceeded)
        else if alive && lastOutput.Some? && now - lastOutput.value >= wedge then
          if hasProbe && !probeBroken && lastAdvance.Some? && now - lastAdvance.value < wedge then None
          else Some(Wedged)
        else None;
    }
  }

  // ------------------------------------------------------------------ supervision

  datatype Ending = Stopped | ProcessGone | Killed(reason: Reason) | IterationsUsed

  /** The first check comes within `s` of `start`, and each check within `s` of the one before. */
  ghost predicate Regular(start: real, checks: seq<real>, s: real) {
    && (checks != [] ==> checks[0] - start <= s)
    && forall i :: 0 < i < |checks| ==> checks[i] - checks[i - 1] <= s
  }

  lemma OneMore(a: real, b: real, step: real, x: real, y: real)
    requires step > 0.0 && x * step == b && y * step == a && x + 1.0 > y
    ensures b + step > a
  {
    var d := x + 1.0 - y;
    assert d * step > 0.0;
    assert d * step == x * step + step - y * step;
  }

  lemma Quotient(a: real, step: real)
    requires step > 0.0
    ensures (a / step) * step == a
  {
  }

  /** Every step uses up at least one of the steps that fit before the limit. */
  lemma Fewer(a: real, b: real, step: real)
    requires step > 0.0 && b + step <= a
    ensures (b / step).Floor < (a / step).Floor
  {
    Quotient(a, step);
    Quotient(b, step);
    if b / step + 1.0 > a / step { OneMore(a, b, step, b / step, a / step); }
  }

  /** If all checks but the last lie below the cap, and they come at gaps of at most `s`, the last comes within the
      cap and `s`. */
  lemma CheckedInTime(start: real, cap: real, checks: seq<real>, s: real)
    requires checks != [] && Regular(start, checks, s)
    requires forall i :: 0 <= i < |checks| - 1 ==> checks[i] - start < cap
    ensures checks[|checks| - 1] <= start + (if cap > 0.0 then cap else 0.0) + s
  {
    var last := |checks| - 1;
    if last > 0 { assert checks[last] - checks[last - 1] <= s; }
  }

  lemma KillTime(start: real, cap: real, checks: seq<real>)
    requires checks != [] && forall i :: 0 <= i < |checks| - 1 ==> checks[i] - start < cap
    ensures forall s: real :: Regular(start, checks, s) ==>
              checks[|checks| - 1] <= start + (if cap > 0.0 then cap else 0.0) + s
  {
    forall s: real | Regular(start, checks, s)
      ensures checks[|checks| - 1] <= start + (if cap > 0.0 then cap else 0.0) + s
    {
      CheckedInTime(start, cap, checks, s);
    }
  }

  /** One round of supervision on a live process: a heartbeat if due, then a check. */
  method CheckLive(dog: SessionWatchdog) returns (reason: Option<Reason>)
    requires dog.Valid() && dog.start.Some?
    modifies dog, dog.world
    ensures dog.Valid() && dog.start == old(dog.start) && dog.firedReason == old(dog.firedReason)
    ensures old(dog.trace) <= dog.trace && ChecksIn(dog.trace) == ChecksIn(old(dog.trace)) + [dog.world.now]
    ensures reason == Verdict(dog.trace, dog.world.now, true, dog.wedge, dog.cap)
    ensures reason.None? ==> dog.world.now - dog.start.value < dog.cap
    ensures old(dog.world.now) <= dog.world.now
    ensures |dog.trace| > |old(dog.trace)| && Last(dog.trace) == Checked(dog.world.now)
    ensures forall j :: |old(dog.trace)| <= j < |dog.trace| - 1 ==> !dog.trace[j].Checked?
  {
    hide Verdict, Due, Monotone, Throttled, Working, Base, Advanced, LastBeat, LastOutput, LastStart, FailRun,
      ChecksIn;
    dog.Tick(true);
    reason := dog.OverdueReason(true);
  }

  /** Before round `i` nothing stops the supervision, and after its wait the process is there. */
  predicate Goes(alive: nat -> bool, stopAt: nat -> bool, i: nat) { !stopAt(i) && alive(i + 1) }

  /** After `n` rounds nothing has ended the supervision but, if anything, the last check. */
  ghost predicate WentOn(n: nat, alive: nat -> bool, stopAt: nat -> bool, maxIters: Option<nat>) {
    (forall i :: 0 <= i < n ==> Goes(alive, stopAt, i)) && (maxIters.Some? && n > 0 ==> n < maxIters.value)
  }

  /** Which of the answers ended it, after `n` checks. */
  ghost predicate EndedWell(ending: Ending, n: nat, alive: nat -> bool, stopAt: nat -> bool, maxIters: Option<nat>) {
    && (forall i :: 0 <= i < n ==> Goes(alive, stopAt, i))
    && (maxIters.Some? && n > 1 ==> n <= maxIters.value)
    && match ending
       case Stopped => stopAt(n)
       case ProcessGone => !stopAt(n) && !alive(n + 1)
       case IterationsUsed => n > 0 && maxIters.Some? && n >= maxIters.value
       case Killed(_) => n > 0
  }

  lemma WentNowhere(alive: nat -> bool, stopAt: nat -> bool, maxIters: Option<nat>)
    ensures WentOn(0, alive, stopAt, maxIters)
  {
  }

  lemma EndOrGoOn(n: nat, alive: nat -> bool, stopAt: nat -> bool, maxIters: Option<nat>)
    requires WentOn(n, alive, stopAt, maxIters)
    ensures stopAt(n) ==> EndedWell(Stopped, n, alive, stopAt, maxIters)
    ensures !stopAt(n) && !alive(n + 1) ==> EndedWell(ProcessGone, n, alive, stopAt, maxIters)
    ensures !stopAt(n) && alive(n + 1) ==>
      && (forall reason :: EndedWell(Killed(reason), n + 1, alive, stopAt, maxIters))
      && (if maxIters.Some? && n + 1 >= maxIters.value then EndedWell(IterationsUsed, n + 1, alive, stopAt, maxIters)
          else WentOn(n + 1, alive, stopAt, maxIters))
  {
    hide Goes;
    assert Goes(alive, stopAt, n) <==> !stopAt(n) && alive(n + 1) by { GoesMeans(alive, stopAt, n); }
  }

  lemma GoesMeans(alive: nat -> bool, stopAt: nat -> bool, i: nat)
    ensures Goes(alive, stopAt, i) <==> !stopAt(i) && alive(i + 1)
  {
  }

  /** `supervise`, for arbitrary answers of `is_alive` and of the stop event. It always comes to an end. `checks` are
      the checks it made; all but the last lie below the cap, and a kill comes with the last one, so that a session
      checked at gaps of at most `s` is killed by cap + s. */
  method Supervise(dog: SessionWatchdog, step: real, alive: nat -> bool, stopAt: nat -> bool, maxIters: Option<nat>)
    returns (ending: Ending, ghost checks: seq<real>)
    requires dog.Valid() && dog.start.Some? && step > 0.0
    modifies dog, dog.world
    ensures dog.Valid() && dog.start == old(dog.start) && old(dog.trace) <= dog.trace
    ensures ChecksIn(dog.trace) == ChecksIn(old(dog.trace)) + checks
    ensures ending.Killed? ==> dog.firedReason == Some(ending.reason)
                               && Verdict(dog.trace, dog.world.now, true, dog.wedge, dog.cap) == Some(ending.reason)
    ensures ending.Killed? ==> checks != [] && checks[|checks| - 1] == dog.world.now
    ensures ending.Killed? ==> forall s: real :: Regular(dog.start.value, checks, s) ==>
              dog.world.now <= dog.start.value + (if dog.cap > 0.0 then dog.cap else 0.0) + s
    ensures !ending.Killed? ==> dog.firedReason == old(dog.firedReason)
    ensures forall i :: 0 <= i < |checks| - (if ending.Killed? then 1 else 0) ==> checks[i] - dog.start.value < dog.cap
    ensures maxIters.None? && (forall i: nat :: alive(i) && !stopAt(i)) ==> ending.Killed?
    ensures EndedWell(ending, |checks|, alive, stopAt, maxIters)
    ensures SparedUntil(dog.trace, |old(dog.trace)|, dog.wedge, dog.cap, ending.Killed?)
  {
    hide Spared, SparedUntil, EndedWell, WentOn, Verdict, Monotone, Throttled, Working, Base, Advanced, LastBeat,
      LastOutput, LastStart, FailRun, ChecksIn, Regular, IsOutput;
    NoCheckYet(dog.trace, dog.wedge, dog.cap);
    WentNowhere(alive, stopAt, maxIters);
    checks := [];
    var iters: nat := 0;
    ghost var limit := dog.start.value + dog.cap;
    while true
      invariant dog.Valid() && dog.start == old(dog.start) && dog.firedReason == old(dog.firedReason)
      invariant old(dog.trace) <= dog.trace && ChecksIn(dog.trace) == ChecksIn(old(dog.trace)) + checks
      invariant forall i :: 0 <= i < |checks| ==> checks[i] - dog.start.value < dog.cap
      invariant checks != [] ==> checks[|checks| - 1] <= dog.world.now < dog.start.value + dog.cap
      invariant iters == |checks| && WentOn(iters, alive, stopAt, maxIters)
      invariant SparedUntil(dog.trace, |old(dog.trace)|, dog.wedge, dog.cap, false)
      decreases checks == [], ((limit - dog.world.now) / step).Floor
    {
      EndOrGoOn(iters, alive, stopAt, maxIters);
      if stopAt(iters) { return Stopped, checks; }
      ghost var before := dog.world.now;
      dog.world.Wait(step);
      Later(dog.trace, before, dog.world.now);
      iters := iters + 1;
      if !alive(iters) { return ProcessGone, checks; }
      ghost var tr := dog.trace;
      var reason := CheckLive(dog);
      SparedMore(tr, dog.trace, |old(dog.trace)|, dog.wedge, dog.cap);
      checks := checks + [dog.world.now];
      if reason.Some? {
        dog.firedReason := reason;
        KillTime(dog.start.value, dog.cap, checks);
        return Killed(reason.value), checks;
      }
      Fewer(limit - before, limit - dog.world.now, step);
      if maxIters.Some? && iters >= maxIters.value { return IterationsUsed, checks; }
    }
  }
}
