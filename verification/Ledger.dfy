/** InMemoryLedger: task rows shared by reference with the queue, merged build_run_specs rows, and the write log. */
module Ledger {
  import opened Models
  import opened GitOps

  datatype Key = Key(run: string, slug: string)

  datatype Field =
    | ClaimedBy | ClaimedAt | HeartbeatAt | CommitSha | CiVerdict | VerifyResult
    | ParkReason | AttemptNo | BranchName | BaseSha

  datatype Value = Null | Text(text: string) | Number(number: int) | Sha(commit: Commit) | Branch(ref: Ref)

  type Fields = map<Field, Value>

  const PASS := Text("PASS")

  /** Python truthiness of `row.get(field)`. */
  predicate Truthy(data: Fields, f: Field) {
    f in data && data[f] != Null && data[f] != Text("") && data[f] != Number(0)
  }

  datatype Task = Task(
    buildOrder: nat, dependsOn: seq<string>, independent: bool, status: TaskStatus, data: Fields)

  datatype Brs = Brs(status: TaskStatus, data: Fields)

  /** The ledger's contents as a value. */
  datatype LedgerState = LedgerState(tasks: map<Key, Task>, brs: map<Key, Brs>)

  datatype WriteEntry = Created(key: Key) | Updated(key: Key, status: TaskStatus) | Claimed(key: Key)

  /** The claims in a write log, in order. */
  function ClaimLog(log: seq<WriteEntry>): seq<Key> {
    if log == [] then []
    else ClaimLog(log[..|log| - 1]) + if log[|log| - 1].Claimed? then [log[|log| - 1].key] else []
  }

  lemma ClaimLogSnoc(log: seq<WriteEntry>, e: WriteEntry)
    ensures ClaimLog(log + [e]) == ClaimLog(log) + if e.Claimed? then [e.key] else []
  {
    assert (log + [e])[..|log|] == log;
  }

  // ------------------------------------------------------------------ specification functions

  function NonNull(f: Fields): Fields {
    map k | k in f && f[k] != Null :: f[k]
  }

  /** `_upsert_brs`: null fields never overwrite what is recorded. */
  function UpsertBrs(s: LedgerState, key: Key, status: TaskStatus, f: Fields): LedgerState {
    var before := if key in s.brs then s.brs[key].data else map[];
    s.(brs := s.brs[key := Brs(status, before + NonNull(f))])
  }

  predicate HasPass(s: LedgerState, key: Key) {
    key in s.brs && VerifyResult in s.brs[key].data && s.brs[key].data[VerifyResult] == PASS
  }

  function WriteRow(s: LedgerState, key: Key, status: TaskStatus, f: Fields): LedgerState
    requires key in s.tasks
  {
    s.(tasks := s.tasks[key := s.tasks[key].(status := status, data := s.tasks[key].data + f)])
  }

  predicate Carries(f: Fields, v: Value) { VerifyResult in f && f[VerifyResult] == v }

  /** `update_task_status`: the PASS check comes first, then the row lookup, then both writes. */
  function Update(s: LedgerState, key: Key, status: TaskStatus, f: Fields): (LedgerState, Outcome) {
    if status == Committed && !HasPass(s, key) && !Carries(f, PASS) then (s, Raise(IntegrityError))
    else if key !in s.tasks then (s, Raise(MissingKey))
    else (UpsertBrs(WriteRow(s, key, status, f), key, status, f), Ok)
  }

  predicate Claimable(t: Task) {
    t.status == Queued && (ClaimedBy !in t.data || t.data[ClaimedBy] == Null)
  }

  /** `claim_task`: only a queued, unclaimed row can be claimed. */
  function Claim(s: LedgerState, key: Key, session: string, now: int): (LedgerState, bool) {
    if key in s.tasks && Claimable(s.tasks[key]) then
      (UpsertBrs(
         WriteRow(s, key, Building, map[ClaimedBy := Text(session), ClaimedAt := Number(now)]),
         key, Building, map[ClaimedBy := Text(session)]), true)
    else (s, false)
  }

  function FreshTask(buildOrder: nat, dependsOn: seq<string>, independent: bool): Task {
    Task(buildOrder, dependsOn, independent, Queued,
         map[AttemptNo := Number(0), ClaimedBy := Null, ClaimedAt := Null, CommitSha := Null, ParkReason := Null])
  }

  // ------------------------------------------------------------------ commit evidence

  /** F1: every committed row is backed by a merged ledger row that says PASS. */
  ghost predicate Evidence(s: LedgerState) {
    forall k :: k in s.tasks && s.tasks[k].status == Committed ==> HasPass(s, k)
  }

  /** Two ledger states say the same about row `k`. */
  ghost predicate SameAt(a: LedgerState, b: LedgerState, k: Key) {
    && (k in a.tasks <==> k in b.tasks) && (k in a.tasks ==> a.tasks[k] == b.tasks[k])
    && (k in a.brs <==> k in b.brs) && (k in a.brs ==> a.brs[k] == b.brs[k])
  }

  /** The verdict the merged ledger row will carry once `f` has been merged in is PASS. */
  predicate PassAfter(s: LedgerState, key: Key, f: Fields) {
    if VerifyResult in f && f[VerifyResult] != Null then f[VerifyResult] == PASS else HasPass(s, key)
  }

  /** One status write changes one row, in both tables. */
  lemma WriteEffect(s: LedgerState, key: Key, status: TaskStatus, f: Fields)
    requires key in s.tasks
    ensures var r := UpsertBrs(WriteRow(s, key, status, f), key, status, f);
            && r.tasks[key] == s.tasks[key].(status := status, data := s.tasks[key].data + f)
            && (forall k :: k != key ==> SameAt(r, s, k))
            && HasPass(r, key) == PassAfter(s, key, f)
  {
  }

  /** The merged row keeps every field it had, except that what is written and is not null replaces it. */
  lemma UpsertMerges(s: LedgerState, key: Key, status: TaskStatus, f: Fields, k: Field)
    ensures var r := UpsertBrs(s, key, status, f);
            && key in r.brs && r.brs[key].status == status
            && (k in f && f[k] != Null ==> k in r.brs[key].data && r.brs[key].data[k] == f[k])
            && (k !in f || f[k] == Null ==>
                  if key in s.brs && k in s.brs[key].data
                  then k in r.brs[key].data && r.brs[key].data[k] == s.brs[key].data[k]
                  else k !in r.brs[key].data)
  {
  }

  /** A new row is queued for attempt 0, and nothing has been recorded in it. */
  lemma FreshIsUnused(buildOrder: nat, dependsOn: seq<string>, independent: bool, f: Field)
    ensures var t := FreshTask(buildOrder, dependsOn, independent);
            && t.status == Queued && Claimable(t) && !Truthy(t.data, f)
            && AttemptNo in t.data && t.data[AttemptNo] == Number(0)
            && t.buildOrder == buildOrder && t.dependsOn == dependsOn && t.independent == independent
  {
  }

  /** A recorded PASS survives any field merge, unless the merge itself carries another verdict. */
  lemma PassSurvivesMerge(s: LedgerState, key: Key, status: TaskStatus, f: Fields, k: Key)
    requires HasPass(s, k)
    ensures HasPass(UpsertBrs(s, key, status, f), k)
            <==> (k != key || VerifyResult !in f || f[VerifyResult] in {Null, PASS})
  {
  }

  /** `update_task_status` alone keeps the evidence exactly when it does not overwrite the verdict of a
      row that is, or is being made, committed. */
  lemma UpdateKeepsEvidence(s: LedgerState, key: Key, status: TaskStatus, f: Fields)
    requires Evidence(s)
    ensures Evidence(Update(s, key, status, f).0) <==>
            (Update(s, key, status, f).1.Raise? || status != Committed
             || VerifyResult !in f || f[VerifyResult] in {Null, PASS})
  {
    var (after, o) := Update(s, key, status, f);
    if o.Ok? {
      assert forall k :: k != key && k in s.tasks ==> after.tasks[k] == s.tasks[k];
      assert after.tasks[key].status == status;
      if status == Committed && HasPass(s, key) {
        PassSurvivesMerge(s, key, status, f, key);
      }
    }
  }

  lemma ClaimEffect(s: LedgerState, key: Key, session: string, now: int)
    ensures var (r, ok) := Claim(s, key, session, now);
            && (forall k :: k != key ==> SameAt(r, s, k))
            && HasPass(r, key) == HasPass(s, key)
            && (ok <==> && key in s.tasks && s.tasks[key].status == Queued
                        && (ClaimedBy !in s.tasks[key].data || s.tasks[key].data[ClaimedBy] == Null))
            && (if ok
                then r.tasks[key].status == Building
                     && r.tasks[key].data == s.tasks[key].data[ClaimedBy := Text(session)][ClaimedAt := Number(now)]
                else r == s)
  {
  }

  // ------------------------------------------------------------------ the ledger object

  /** A foreman_tasks row. `next_queued` hands out the row itself, so queue and ledger alias it. */
  class TaskRow {
    const key: Key
    const buildOrder: nat
    const dependsOn: seq<string>
    const independent: bool
    var status: TaskStatus
    var data: Fields

    constructor (key: Key, buildOrder: nat, dependsOn: seq<string>, independent: bool)
      ensures this.key == key && View() == FreshTask(buildOrder, dependsOn, independent)
    {
      this.key, this.buildOrder, this.dependsOn, this.independent := key, buildOrder, dependsOn, independent;
      var initial := FreshTask(buildOrder, dependsOn, independent);
      this.status, this.data := initial.status, initial.data;
    }

    function View(): Task reads this {
      Task(buildOrder, dependsOn, independent, status, data)
    }
  }

  class InMemoryLedger {
    var order: seq<Key>               // insertion order of the row dictionary
    var taskRows: map<Key, TaskRow>
    var brs: map<Key, Brs>
    var writeLog: seq<WriteEntry>
    ghost var state: LedgerState      // the contents of all rows, as a value
    ghost var claimed: seq<Key>       // the keys claimed so far, in order

    ghost predicate Valid()
      reads this`taskRows, this`brs, this`state, this`writeLog, this`claimed, Rows()
    {
      && claimed == ClaimLog(writeLog)
      && state.brs == brs && state.tasks.Keys == taskRows.Keys
      && forall k :: k in taskRows ==> taskRows[k].key == k && taskRows[k].View() == state.tasks[k]
    }

    /** The iteration order lists every key once. */
    ghost predicate Ordered() reads this`order, this`taskRows {
      NoDups(order) && forall k :: k in order <==> k in taskRows
    }

    ghost function Rows(): set<TaskRow> reads this`taskRows { taskRows.Values }

    /** `task` is the ledger's own record, not a copy. */
    ghost predicate Owns(task: TaskRow) reads this`taskRows {
      task.key in taskRows && taskRows[task.key] == task
    }

    lemma RowState(task: TaskRow)
      requires Valid() && Owns(task)
      ensures task.key in state.tasks && state.tasks[task.key] == task.View()
    {
    }

    lemma ClaimedAreLogged()
      requires Valid()
      ensures claimed == ClaimLog(writeLog)
    {
    }

    lemma OrderedKeys()
      requires Valid() && Ordered()
      ensures NoDups(order) && forall k :: k in order <==> k in state.tasks
    {
    }

    lemma OrderedRows()
      requires Valid() && Ordered()
      ensures forall k :: k in order ==> k in state.tasks
    {
    }

    constructor ()
      ensures Valid() && Ordered() && state == LedgerState(map[], map[]) && claimed == []
    {
      order, taskRows, brs, writeLog, claimed := [], map[], map[], [], [];
      state := LedgerState(map[], map[]);
    }

    method CreateTaskRow(key: Key, buildOrder: nat, dependsOn: seq<string>, independent: bool)
      requires Valid() && Ordered()
      modifies this
      ensures Valid() && Ordered() && fresh(Rows() - old(Rows()))
      ensures order == if key in old(order) then old(order) else old(order) + [key]
      ensures state == old(state).(tasks := old(state).tasks[key := FreshTask(buildOrder, dependsOn, independent)])
      ensures brs == old(brs) && writeLog == old(writeLog) + [Created(key)] && claimed == old(claimed)
    {
      ClaimLogSnoc(writeLog, Created(key));
      if key !in taskRows {
        NoDupsSnoc(order, key);
        order := order + [key];
      }
      var row := new TaskRow(key, buildOrder, dependsOn, independent);
      taskRows := taskRows[key := row];
      writeLog := writeLog + [Created(key)];
      state := state.(tasks := state.tasks[key := row.View()]);
    }

    method UpdateTaskStatus(key: Key, status: TaskStatus, f: Fields) returns (o: Outcome)
      requires Valid()
      modifies this`brs, this`writeLog, this`state, if key in taskRows then {taskRows[key]} else {}
      ensures Valid() && (state, o) == Update(old(state), key, status, f)
      ensures writeLog == old(writeLog) + if o.Ok? then [Updated(key, status)] else []
    {
      if status == Committed && !HasPassLedgerRow(key) && !Carries(f, PASS) {
        return Raise(IntegrityError);
      }
      if key !in taskRows { return Raise(MissingKey); }
      WriteBoth(key, status, f, f);
      LogUpdate(key, status);
      return Ok;
    }

    method LogUpdate(key: Key, status: TaskStatus)
      requires Valid()
      modifies this`writeLog
      ensures Valid() && writeLog == old(writeLog) + [Updated(key, status)]
    {
      ClaimLogSnoc(writeLog, Updated(key, status));
      writeLog := writeLog + [Updated(key, status)];
    }

    method LogClaim(key: Key)
      requires Valid()
      modifies this`writeLog, this`claimed
      ensures Valid() && writeLog == old(writeLog) + [Claimed(key)] && claimed == old(claimed) + [key]
    {
      ClaimLogSnoc(writeLog, Claimed(key));
      writeLog, claimed := writeLog + [Claimed(key)], claimed + [key];
    }

    /** The row write and the merged build_run_specs upsert every status write performs. */
    method WriteBoth(key: Key, status: TaskStatus, rowFields: Fields, brsFields: Fields)
      requires Valid() && key in taskRows
      modifies this`brs, this`state, taskRows[key]
      ensures Valid()
      ensures state == UpsertBrs(WriteRow(old(state), key, status, rowFields), key, status, brsFields)
    {
      var row := taskRows[key];
      row.status := status;
      row.data := row.data + rowFields;
      var merged := if key in brs then brs[key].data else map[];
      brs := brs[key := Brs(status, merged + NonNull(brsFields))];
      state := LedgerState(state.tasks[key := row.View()], brs);
    }

    predicate HasPassLedgerRow(key: Key)
      requires Valid()
      reads this`taskRows, this`brs, this`state, this`writeLog, this`claimed, Rows()
      ensures HasPassLedgerRow(key) <==> HasPass(state, key)
    {
      key in brs && VerifyResult in brs[key].data && brs[key].data[VerifyResult] == PASS
    }

    method ClaimTask(key: Key, session: string, now: int) returns (ok: bool)
      requires Valid()
      modifies this`brs, this`writeLog, this`claimed, this`state, if key in taskRows then {taskRows[key]} else {}
      ensures Valid() && (state, ok) == Claim(old(state), key, session, now)
      ensures writeLog == old(writeLog) + if ok then [Claimed(key)] else []
      ensures claimed == old(claimed) + if ok then [key] else []
    {
      if key !in taskRows || !Claimable(taskRows[key].View()) { return false; }
      WriteBoth(key, Building, map[ClaimedBy := Text(session), ClaimedAt := Number(now)],
                map[ClaimedBy := Text(session)]);
      LogClaim(key);
      return true;
    }
  }
}
