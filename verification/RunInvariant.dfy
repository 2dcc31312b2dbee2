/**
 What every step of a run keeps: the ladder's fold, the oracles' fold and the scope
 rows tell the same story about every scope.
 */
module RunInvariant {
  import opened EventLog
  import opened ScopePhases
  import opened RunOracles
  import opened RecoveryLadder
  import opened RunProtocol
  import opened LadderFacts

  /** The phase a row stands for, telling a requested scope from a merely fenced one. */
  function RowPhase(row: Row): (p: Phase) {
    match row.state
    case RowOpen => if row.requested then Asked else if row.fenced then Fenced else Open
    case RowInflight => Inflight
    case RowPassed => Passed
    case RowCommitted => Committed
    case RowCancelling => Cancelling
    case RowCancelled => Cancelled
    case RowSuspended => Suspended
  }

  /** What the oracles' dates say about a scope in a given phase. */
  predicate DatesFit(p: Phase, h: History) {
    && (h.openedAt.Some? <==> p != Unmaterialized)
    && (p == Unmaterialized || p == Open ==> h.pivotAt.None?)
    && (p == Unmaterialized || p == Open || p == Fenced || p == Asked || p == Inflight || p == Passed
        ==> h.cancellingAt.None? && h.closedAt.None? && h.suspendedAt.None?)
    && (p == Cancelling ==> h.closedAt.None? && h.suspendedAt.None?)
    && (p == Committed || p == Cancelled ==> h.closedAt.Some?)
    && (p == Suspended ==> h.suspendedAt.Some?)
    && (p == Inflight || p == Passed ==> h.pivotAt.Some?)
  }

  /** One scope, as the fold, the oracles and the row each see it. */
  predicate Agrees(i: Option<ScopeInfo>, h: History, row: Option<Row>, gap: bool) {
    var p := if i.Some? then i.value.phase else Unmaterialized;
    var asked := i.Some? && i.value.requestedFor.Some?;
    && DatesFit(p, h)
    && h.members == (if i.Some? then i.value.members else {})
    && (asked ==> p == Asked || p == Cancelling || p == Cancelled || p == Suspended)
    && (p == Asked ==> asked)
    && match row
       case None => p == Unmaterialized && !gap
       case Some(r) =>
         && (r.requested <==> asked)
         && (r.requested || gap ==> r.fenced)
         && (if gap && r.state == RowOpen then p == Inflight && !asked else p == RowPhase(r))
         && (gap ==> r.state != RowInflight && r.state != RowPassed && r.state != RowCommitted)
         && (r.state == RowInflight ==> !r.fenced)
  }

  function RowOf(rows: map<Id, Row>, s: Id): (r: Option<Row>) { if s in rows then Some(rows[s]) else None }

  ghost predicate AgreesAt(a: Run, s: Id) {
    Agrees(Scope(a.log, s), HistOf(a.log, s), RowOf(a.rows, s), s in a.absent)
  }

  ghost predicate Coherent(a: Run) { forall s :: AgreesAt(a, s) }

  /* ---------------------------------------------------------------- one appended event */

  lemma AppendedOne(log: Log, next: Log, b: Body)
    requires Appended(log, next, [b])
    ensures next == log + [next[|log|]] && next[|log|].body == b
  {
  }

  lemma AppendedTwo(log: Log, next: Log, b: Body, c: Body) returns (mid: Log)
    requires Appended(log, next, [b, c])
    ensures Appended(log, mid, [b]) && Appended(mid, next, [c])
  {
    mid := next[..|log| + 1];
    assert mid[..|log|] == log;
  }

  /** How one appended event changes what is known of one scope. */
  lemma {:induction false} OneEvent(a: Run, b: Run, body: Body, s: Id)
    requires Appended(a.log, b.log, [body])
    requires AgreesAt(a, s)
    requires var e := b.log[|a.log|];
      Agrees(Scope(a.log, s), HistOf(a.log, s), RowOf(a.rows, s), s in a.absent) ==>
      Agrees(if s in Touches(body) then Some(Apply(Scope(a.log, s), e)) else Scope(a.log, s),
             if ScopeColumn(body) == Some(s) then RunOracles.Record(HistOf(a.log, s), e) else HistOf(a.log, s),
             RowOf(b.rows, s), s in b.absent)
    ensures AgreesAt(b, s)
  {
    AppendedOne(a.log, b.log, body);
    ScopeAppend(a.log, b.log[|a.log|], s);
    HistAppend(a.log, b.log[|a.log|], s);
  }

  lemma CreatedKeeps(a: Run, b: Run, body: Body)
    requires Coherent(a) && body.Created? && Grew(a, b, [body], a.rows)
    ensures Coherent(b)
  {
    AppendedOne(a.log, b.log, body);
    forall s ensures AgreesAt(b, s) { assert AgreesAt(a, s); OneEvent(a, b, body, s); }
  }

  lemma QuietKeeps(a: Run, b: Run, body: Body)
    requires Coherent(a) && Grew(a, b, [body], a.rows)
    requires Touches(body) == {} || body.Succeeded? || (body.Started? && !body.pivot) || body.Confirm?
      || (body.Try? && body.txn in a.rows)
    ensures Coherent(b)
  {
    AppendedOne(a.log, b.log, body);
    forall s ensures AgreesAt(b, s) { assert AgreesAt(a, s); OneEvent(a, b, body, s); }
  }

  lemma FailedKeeps(a: Run, b: Run, body: Body)
    requires Coherent(a) && body.Failed? && !body.absent && Grew(a, b, [body], FenceOn(a.rows, body.scope))
    ensures Coherent(b)
  {
    AppendedOne(a.log, b.log, body);
    forall s ensures AgreesAt(b, s) { assert AgreesAt(a, s); OneEvent(a, b, body, s); }
  }

  lemma {:induction false} FreezeKeeps(a: Run, b: Run, created: seq<Body>)
    requires Coherent(a) && Grew(a, b, created, a.rows)
    requires forall k :: 0 <= k < |created| ==> created[k].Created?
    ensures Coherent(b)
    decreases |created|
  {
    if created == [] {
      assert b.log == a.log;
    } else {
      var mid := Run(b.log[..|a.log| + 1], a.rows, a.absent);
      assert mid.log[..|a.log|] == a.log;
      assert Grew(a, mid, [created[0]], a.rows);
      CreatedKeeps(a, mid, created[0]);
      assert b.log[..|mid.log|] == mid.log;
      FreezeKeeps(mid, b, created[1..]);
    }
  }

  lemma EnsureKeeps(a: Run, b: Run, s: Id)
    requires Coherent(a) && s !in a.rows
      && Grew(a, b, [ScopeState(s, DeclaredOpen)], a.rows[s := Row(RowOpen, false, false, None)])
    ensures Coherent(b)
  {
    hide Scope, HistOf;
    AppendedOne(a.log, b.log, ScopeState(s, DeclaredOpen));
    forall t ensures AgreesAt(b, t) {
      assert AgreesAt(a, t);
      OneEvent(a, b, ScopeState(s, DeclaredOpen), t);
    }
  }

  lemma AdmitKeeps(a: Run, b: Run, s: Id, v: Id)
    requires Coherent(a) && InState(a, s, RowOpen) && !a.rows[s].fenced
    requires Grew(a, b, [Started(v, Some(s), true)], a.rows[s := a.rows[s].(state := RowInflight, pivot := Some(v))])
    ensures Coherent(b)
  {
    hide Scope, HistOf;
    AppendedOne(a.log, b.log, Started(v, Some(s), true));
    forall t ensures AgreesAt(b, t) {
      assert AgreesAt(a, t);
      OneEvent(a, b, Started(v, Some(s), true), t);
    }
  }

  lemma ResolveAbsentKeeps(policy: Policy, price: Pricing, a: Run, b: Run, s: Id)
    requires Coherent(a) && Takes(policy, price, a, ResolveAbsent(s), b)
    ensures Coherent(b)
  {
    forall t ensures AgreesAt(b, t) { assert AgreesAt(a, t); }
  }

  lemma FailAbsentKeeps(a: Run, b: Run, s: Id)
    requires Coherent(a) && s in a.absent && Appended(a.log, b.log, [Failed(a.absent[s], Some(s), true)])
    requires b.rows == FenceOn(a.rows, Some(s)) && b.absent == a.absent - {s}
    ensures Coherent(b)
  {
    hide Scope, HistOf;
    AppendedOne(a.log, b.log, Failed(a.absent[s], Some(s), true));
    forall t ensures AgreesAt(b, t) {
      assert AgreesAt(a, t);
      OneEvent(a, b, Failed(a.absent[s], Some(s), true), t);
    }
  }

  /** The row moves to a settled state and the log says so. */
  lemma SuspendKeeps(a: Run, b: Run, s: Id)
    requires Coherent(a) && s in a.rows && a.rows[s].state != RowCommitted
    requires Grew(a, b, [ScopeState(s, DeclaredSuspended)], SetState(a.rows, s, RowSuspended))
    ensures Coherent(b)
  {
    hide Scope, HistOf;
    AppendedOne(a.log, b.log, ScopeState(s, DeclaredSuspended));
    forall t ensures AgreesAt(b, t) {
      assert AgreesAt(a, t);
      OneEvent(a, b, ScopeState(s, DeclaredSuspended), t);
    }
  }

  lemma CommitKeeps(a: Run, b: Run, s: Id)
    requires Coherent(a) && InState(a, s, RowPassed)
    requires Grew(a, b, [ScopeState(s, DeclaredCommitted)], SetState(a.rows, s, RowCommitted))
    ensures Coherent(b)
  {
    hide Scope, HistOf;
    AppendedOne(a.log, b.log, ScopeState(s, DeclaredCommitted));
    forall t ensures AgreesAt(b, t) {
      assert AgreesAt(a, t);
      OneEvent(a, b, ScopeState(s, DeclaredCommitted), t);
    }
  }

  lemma PassedKeeps(a: Run, b: Run, s: Id, v: Id)
    requires Coherent(a) && InState(a, s, RowInflight)
      && Grew(a, b, [PivotPassed(v, s)], SetState(a.rows, s, RowPassed))
    ensures Coherent(b)
  {
    hide Scope, HistOf;
    AppendedOne(a.log, b.log, PivotPassed(v, s));
    forall t ensures AgreesAt(b, t) {
      assert AgreesAt(a, t);
      OneEvent(a, b, PivotPassed(v, s), t);
    }
  }

  lemma CancelKeeps(a: Run, b: Run, s: Id, completed: bool)
    requires Coherent(a) && InState(a, s, if completed then RowCancelling else RowOpen)
    requires Grew(a, b, [Cancel(s, completed)], SetState(a.rows, s, if completed then RowCancelled else RowCancelling))
    ensures Coherent(b)
  {
    hide Scope, HistOf;
    AppendedOne(a.log, b.log, Cancel(s, completed));
    forall t ensures AgreesAt(b, t) {
      assert AgreesAt(a, t);
      OneEvent(a, b, Cancel(s, completed), t);
    }
  }

  /** A request is coherent when it names only open, unrequested rows the log agrees about. */
  lemma AskKeeps(a: Run, b: Run, v: Id, scopes: set<Id>)
    requires Coherent(a) && Grew(a, b, [CancelRequested(v, scopes)], AskRows(a.rows, scopes))
    requires forall s :: s in scopes ==> PhaseOf(a.log, s) == Open || PhaseOf(a.log, s) == Fenced
    ensures Coherent(b)
  {
    AppendedOne(a.log, b.log, CancelRequested(v, scopes));
    forall t ensures AgreesAt(b, t) {
      assert AgreesAt(a, t);
      OneEvent(a, b, CancelRequested(v, scopes), t);
    }
  }

  /** A recorded boundary touches no scope, so everything stays as it was. */
  lemma RecordKeeps(a: Run, b: Run, d: Decision)
    requires Coherent(a) && d.action == Record && Grew(a, b, Drafts(d), a.rows)
    ensures Coherent(b)
  {
    var boundary := Boundary(d.failed, d.selected, d.cancelled);
    if d.selected.None? {
      QuietKeeps(a, b, boundary);
    } else {
      assert Drafts(d) == [boundary, Shadowed(d.shadowed)];
      var mid := AppendedTwo(a.log, b.log, boundary, Shadowed(d.shadowed));
      QuietKeeps(a, Run(mid, a.rows, a.absent), boundary);
      QuietKeeps(Run(mid, a.rows, a.absent), b, Shadowed(d.shadowed));
    }
  }

  lemma RecoverKeeps(policy: Policy, price: Pricing, a: Run, b: Run, v: Id, tries: Tries)
    requires Coherent(a) && Takes(policy, price, a, Recover(v, tries), b)
    ensures Coherent(b)
  {
    hide SelectBoundary, Coherent, Outstanding, View, Disagreeing, IsLegalSelection, IsFinalEscalation, Appended;
    var locked := Some(View(a.rows, tries));
    var d := SelectBoundary(a.log, v, policy, price, locked);
    DecisionFacts(a.log, v, policy, price, locked);
    if d.action == Request {
      AskKeeps(a, b, v, d.requestScopes);
    } else {
      RecordKeeps(a, b, d);
    }
  }

  /** Two events in one transaction, by way of the state between them. */
  lemma SealKeeps(a: Run, b: Run, v: Id, s: Id, key: Id)
    requires Coherent(a) && s in a.rows && Grew(a, b, [Try(v, s, key), Succeeded(v, Some(s))], a.rows)
    ensures Coherent(b)
  {
    var mid := AppendedTwo(a.log, b.log, Try(v, s, key), Succeeded(v, Some(s)));
    QuietKeeps(a, Run(mid, a.rows, a.absent), Try(v, s, key));
    QuietKeeps(Run(mid, a.rows, a.absent), b, Succeeded(v, Some(s)));
  }

  lemma FailUnknownKeeps(a: Run, b: Run, s: Id, v: Id)
    requires Coherent(a) && InState(a, s, RowInflight)
    requires Grew(a, b, [Failed(v, Some(s), false), ScopeState(s, DeclaredSuspended)],
      SetState(a.rows, s, RowSuspended))
    ensures Coherent(b)
  {
    var mid := AppendedTwo(a.log, b.log, Failed(v, Some(s), false), ScopeState(s, DeclaredSuspended));
    var m := Run(mid, a.rows, a.absent);
    FailedKeeps(a, m, Failed(v, Some(s), false));
    SuspendKeeps(m, b, s);
  }

  lemma PassPivotKeeps(a: Run, b: Run, s: Id, v: Id)
    requires Coherent(a) && InState(a, s, RowInflight)
    requires Grew(a, b, [PivotPassed(v, s), Succeeded(v, Some(s))], SetState(a.rows, s, RowPassed))
    ensures Coherent(b)
  {
    var mid := AppendedTwo(a.log, b.log, PivotPassed(v, s), Succeeded(v, Some(s)));
    var m := Run(mid, SetState(a.rows, s, RowPassed), a.absent);
    PassedKeeps(a, m, s, v);
    QuietKeeps(m, b, Succeeded(v, Some(s)));
  }

  lemma FreezeBatchKeeps(a: Run, b: Run, proposedSeq: nat, created: seq<Body>)
    requires Coherent(a) && Grew(a, b, [Frozen(proposedSeq)] + created, a.rows)
    requires forall k :: 0 <= k < |created| ==> created[k].Created?
    ensures Coherent(b)
  {
    var mid := Run(b.log[..|a.log| + 1], a.rows, a.absent);
    assert mid.log[..|a.log|] == a.log;
    QuietKeeps(a, mid, Frozen(proposedSeq));
    assert b.log[..|mid.log|] == mid.log;
    FreezeKeeps(mid, b, created);
  }

  /** Every step keeps the three readings of every scope in agreement. */
  lemma StepKeepsCoherent(policy: Policy, price: Pricing, a: Run, step: Step, b: Run)
    requires Coherent(a) && Takes(policy, price, a, step, b)
    ensures Coherent(b)
  {
    hide Coherent, SelectBoundary, Appended;
    match step
    case Freeze(proposedSeq, created) => FreezeBatchKeeps(a, b, proposedSeq, created);
    case Note(n) => QuietKeeps(a, b, n);
    case Report(r) => if r.Failed? { FailedKeeps(a, b, r); } else { QuietKeeps(a, b, r); }
    case EnsureScope(s) => EnsureKeeps(a, b, s);
    case Seal(v, s, key) => SealKeeps(a, b, v, s, key);
    case AdmitPivot(s, v) => AdmitKeeps(a, b, s, v);
    case ResolveAbsent(s) => ResolveAbsentKeeps(policy, price, a, b, s);
    case FailAbsent(s) => FailAbsentKeeps(a, b, s);
    case FailUnknown(s, v) => FailUnknownKeeps(a, b, s, v);
    case PassPivot(s, v) => PassPivotKeeps(a, b, s, v);
    case ConfirmTry(v, s, key) => QuietKeeps(a, b, Confirm(v, s, key));
    case Commit(s) => CommitKeeps(a, b, s);
    case Suspend(s) => SuspendKeeps(a, b, s);
    case StartCancel(s) => CancelKeeps(a, b, s, false);
    case CompleteCancel(s) => CancelKeeps(a, b, s, true);
    case Recover(v, tries) => RecoverKeeps(policy, price, a, b, v, tries);
  }

  lemma StartCoherent()
    ensures Coherent(Start)
  {
  }
}
