/** Status machine of a Foreman task, and the exceptions the orchestrator raises. */
module Models {
  datatype Option<+T> = None | Some(value: T)

  /** A call that either returns normally or raises. */
  datatype Outcome = Ok | Raise(exn: Exn)

  datatype Exn = InvalidTransition | IntegrityError | MissingKey | GitFailure | RunLocked

  datatype TaskStatus =
    | Queued | Building | Verifying | CiGating | Merging | Committed | Parked | DependentHalted

  const VALID_TRANSITIONS: map<TaskStatus, set<TaskStatus>> := map[
    Queued := {Building, DependentHalted, Parked},
    Building := {Verifying, Parked},
    Verifying := {CiGating, Merging, Building, Parked},
    CiGating := {Merging, Parked},
    Merging := {Committed, Parked}
  ]

  const TERMINAL_STATUSES: set<TaskStatus> := {Committed, Parked, DependentHalted}

  predicate CanMove(current: TaskStatus, next: TaskStatus) {
    current in VALID_TRANSITIONS && next in VALID_TRANSITIONS[current]
  }

  predicate Terminal(s: TaskStatus) { s in TERMINAL_STATUSES }

  /** The life cycle: which status can follow which. Parking is open exactly to unfinished tasks, nothing leaves
      a terminal status and nothing returns to the queue. */
  lemma TransitionTable(s: TaskStatus, t: TaskStatus)
    ensures CanMove(s, Parked) <==> !Terminal(s)
    ensures Terminal(s) ==> !CanMove(s, t)
    ensures CanMove(s, DependentHalted) <==> s == Queued
    ensures CanMove(s, Building) <==> s == Queued || s == Verifying
    ensures CanMove(s, Verifying) <==> s == Building
    ensures CanMove(s, CiGating) <==> s == Verifying
    ensures CanMove(s, Merging) <==> s == Verifying || s == CiGating
    ensures CanMove(s, Committed) <==> s == Merging
    ensures !CanMove(s, Queued)
  {
  }

  predicate NoDups<T(==)>(s: seq<T>) {
    forall i, j :: 0 <= i < j < |s| ==> s[i] != s[j]
  }

  lemma NoDupsParts<T>(a: seq<T>, b: seq<T>)
    requires NoDups(a + b)
    ensures NoDups(a) && NoDups(b) && forall i, j :: 0 <= i < |a| && 0 <= j < |b| ==> a[i] != b[j]
  {
    forall i, j | 0 <= i < |a| && 0 <= j < |b| ensures a[i] != b[j] {
      assert (a + b)[i] == a[i] && (a + b)[|a| + j] == b[j];
    }
    assert forall i :: 0 <= i < |a| ==> (a + b)[i] == a[i];
    assert forall j :: 0 <= j < |b| ==> (a + b)[|a| + j] == b[j];
  }

  lemma NoDupsSnoc<T>(s: seq<T>, x: T)
    requires NoDups(s) && x !in s
    ensures NoDups(s + [x])
  {
  }
}
