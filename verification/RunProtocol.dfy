/**
 One run as the Engine and the Coordinator change it together.

 The state is the event log and the scope rows the database's triggers keep beside it.
 A step is one committed transaction: a freeze, an executor's report, one of the
 Coordinator's scope transitions with the guard its SQL applies, or one recorded
 decision of the recovery ladder taken under the scope locks.
 */
module RunProtocol {
  import opened EventLog
  import opened ScopePhases
  import opened RecoveryLadder

  /** A row of `txn_scope`: its state, its fence, and whether the Engine asked for its cancellation. */
  datatype Row = Row(state: RowState, fenced: bool, requested: bool, pivot: Option<Id>)

  /**
   `absent` holds the scopes whose pivot the status query has disproved but whose
   `vertex/failed` is not in the log yet: the one gap in which rows and log differ.
   */
  datatype Run = Run(log: Log, rows: map<Id, Row>, absent: map<Id, Id>)

  const Start := Run([], map[], map[])

  /** What the lock additionally reports about sealed tries. */
  datatype Tries = Tries(sealed: set<Id>, expired: set<Id>)

  function View(rows: map<Id, Row>, tries: Tries): (locked: Locked) {
    map s | s in rows :: LockedScope(rows[s].state, rows[s].fenced, s in tries.sealed, s in tries.expired)
  }

  datatype Step =
    | Freeze(proposedSeq: nat, created: seq<Body>)
    | Note(note: Body)
    | Report(report: Body)
    | EnsureScope(s: Id)
    | Seal(v: Id, s: Id, key: Id)
    | AdmitPivot(s: Id, v: Id)
    | ResolveAbsent(s: Id)
    | FailAbsent(s: Id)
    | FailUnknown(s: Id, v: Id)
    | PassPivot(s: Id, v: Id)
    | ConfirmTry(v: Id, s: Id, key: Id)
    | Commit(s: Id)
    | Suspend(s: Id)
    | StartCancel(s: Id)
    | CompleteCancel(s: Id)
    | Recover(v: Id, tries: Tries)

  /** The log grew by exactly these events, numbered above everything before them. */
  ghost predicate Appended(log: Log, next: Log, bodies: seq<Body>) {
    && |next| == |log| + |bodies|
    && next[..|log|] == log
    && (forall k :: |log| <= k < |next| ==> next[k].body == bodies[k - |log|])
    && Numbered(next)
  }

  /** A freeze creates distinct vertices that no earlier event created. */
  ghost predicate FreshWork(log: Log, created: seq<Body>) {
    && (forall i :: 0 <= i < |created| ==> created[i].Created? && !IsCreated(log, created[i].vertex))
    && (forall i, j :: 0 <= i < j < |created| && created[i].Created? && created[j].Created? ==>
      created[i].vertex != created[j].vertex)
  }

  /** Records with no scope of their own. */
  predicate IsNote(log: Log, b: Body) {
    b.Proposed? || b.Other? || (b.Unreadable? && IsPlanner(log, b.planner))
  }

  /** An executor's report carries its own vertex's scope. */
  ghost predicate IsReport(log: Log, b: Body) {
    match b
    case Started(v, s, pivot) => !pivot && CreatedOf(log, v).Some? && CreatedOf(log, v).value.scope == s
    case Succeeded(v, s, _) => CreatedOf(log, v).Some? && CreatedOf(log, v).value.scope == s
    case Failed(v, s, absent) => !absent && CreatedOf(log, v).Some? && CreatedOf(log, v).value.scope == s
    case Retried(v) => CreatedOf(log, v).Some?
    case _ => false
  }

  /** The fence a scoped failure sets: only on an open scope, and only once. */
  function FenceOn(rows: map<Id, Row>, scope: Option<Id>): (r: map<Id, Row>) {
    if scope.Some? && scope.value in rows && rows[scope.value].state == RowOpen
    then rows[scope.value := rows[scope.value].(fenced := true)] else rows
  }

  function AskRows(rows: map<Id, Row>, scopes: set<Id>): (r: map<Id, Row>) {
    map s | s in rows :: if s in scopes then rows[s].(fenced := true, requested := true) else rows[s]
  }

  function SetState(rows: map<Id, Row>, s: Id, state: RowState): (r: map<Id, Row>)
    requires s in rows
  {
    rows[s := rows[s].(state := state)]
  }

  ghost predicate Grew(a: Run, b: Run, bodies: seq<Body>, rows: map<Id, Row>) {
    Appended(a.log, b.log, bodies) && b.rows == rows && b.absent == a.absent
  }

  predicate InState(a: Run, s: Id, state: RowState) {
    s in a.rows && a.rows[s].state == state
  }

  ghost predicate Takes(policy: Policy, price: Pricing, a: Run, step: Step, b: Run) {
    match step
    case Freeze(proposedSeq, created) =>
      FreshWork(a.log, created) && Grew(a, b, [Frozen(proposedSeq)] + created, a.rows)
    case Note(n) =>
      IsNote(a.log, n) && Grew(a, b, [n], a.rows)
    case Report(r) =>
      IsReport(a.log, r) && Grew(a, b, [r], if r.Failed? then FenceOn(a.rows, r.scope) else a.rows)
    case EnsureScope(s) =>
      s !in a.rows && Grew(a, b, [ScopeState(s, DeclaredOpen)], a.rows[s := Row(RowOpen, false, false, None)])
    case Seal(v, s, key) =>
      s in a.rows && Grew(a, b, [Try(v, s, key), Succeeded(v, Some(s))], a.rows)
    case AdmitPivot(s, v) =>
      && InState(a, s, RowOpen) && !a.rows[s].fenced
      && CreatedOf(a.log, v).Some? && CreatedOf(a.log, v).value.scope == Some(s)
      && Grew(a, b, [Started(v, Some(s), true)], a.rows[s := a.rows[s].(state := RowInflight, pivot := Some(v))])
    case ResolveAbsent(s) =>
      && InState(a, s, RowInflight) && a.rows[s].pivot.Some?
      && b == Run(a.log, a.rows[s := a.rows[s].(state := RowOpen, fenced := true, pivot := None)],
        a.absent[s := a.rows[s].pivot.value])
    case FailAbsent(s) =>
      && s in a.absent
      && Appended(a.log, b.log, [Failed(a.absent[s], Some(s), true)])
      && b.rows == FenceOn(a.rows, Some(s)) && b.absent == a.absent - {s}
    case FailUnknown(s, v) =>
      && InState(a, s, RowInflight) && a.rows[s].pivot == Some(v)
      && Grew(a, b, [Failed(v, Some(s), false), ScopeState(s, DeclaredSuspended)], SetState(a.rows, s, RowSuspended))
    case PassPivot(s, v) =>
      && InState(a, s, RowInflight) && a.rows[s].pivot == Some(v)
      && Grew(a, b, [PivotPassed(v, s), Succeeded(v, Some(s))], SetState(a.rows, s, RowPassed))
    case ConfirmTry(v, s, key) =>
      s in a.rows && Grew(a, b, [Confirm(v, s, key)], a.rows)
    case Commit(s) =>
      InState(a, s, RowPassed) && Grew(a, b, [ScopeState(s, DeclaredCommitted)], SetState(a.rows, s, RowCommitted))
    case Suspend(s) =>
      && s in a.rows && a.rows[s].state != RowCommitted
      && Grew(a, b, [ScopeState(s, DeclaredSuspended)], SetState(a.rows, s, RowSuspended))
    case StartCancel(s) =>
      InState(a, s, RowOpen) && Grew(a, b, [Cancel(s, false)], SetState(a.rows, s, RowCancelling))
    case CompleteCancel(s) =>
      InState(a, s, RowCancelling) && Grew(a, b, [Cancel(s, true)], SetState(a.rows, s, RowCancelled))
    case Recover(v, tries) =>
      v in Outstanding(a.log) && Recovers(a, b, SelectBoundary(a.log, v, policy, price, Some(View(a.rows, tries))))
  }

  /** The drafts of a decision that acts, and what the request trigger does to the rows it names. */
  ghost predicate Recovers(a: Run, b: Run, d: Decision) {
    && d.action != Wait
    && Grew(a, b, Drafts(d), if d.action == Request then AskRows(a.rows, d.requestScopes) else a.rows)
  }

  /** A run: the states it passed through, each reached from the one before by some step. */
  ghost predicate IsRun(policy: Policy, price: Pricing, run: seq<Run>, steps: seq<Step>) {
    && |run| == |steps| + 1
    && run[0] == Start
    && forall k :: 0 <= k < |steps| ==> Takes(policy, price, run[k], steps[k], run[k + 1])
  }
}
