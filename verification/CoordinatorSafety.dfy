/**
 What every execution of the Coordinator keeps, however its workers interleave and stop.

 Each action refines a step of the run protocol, so everything proved of runs holds of
 executions. Beyond that: the log always passes the trace checker, a scope commits only
 after every confirmable try sealed before its pivot was confirmed, and a cancellation
 completes only after every try it had to undo was undone.
 */
module CoordinatorSafety {
  import opened EventLog
  import opened ScopePhases
  import opened RunOracles
  import opened RecoveryLadder
  import opened RunProtocol
  import opened RunInvariant
  import opened RecoverySafety
  import opened RunSafety
  import opened Coordinator
  import opened TraceCheck

  /* ---------------------------------------------------------------- one scope's story */

  /**
   What the log tells of one scope: the keys tried, those tried before the pivot passed,
   those tried before a cancellation was requested, and those confirmed.
   */
  datatype Story = Story(tries: set<Id>, due: set<Id>, owed: set<Id>, confirmed: set<Id>, passed: bool,
      cancelled: bool, completed: bool)

  const Blank := Story({}, {}, {}, {}, false, false, false)

  function Tell(t: Story, b: Body, s: Id): (r: Story) {
    match b
    case Try(_, txn, key) => if txn == s then t.(tries := t.tries + {key}) else t
    case Confirm(_, txn, key) => if txn == s then t.(confirmed := t.confirmed + {key}) else t
    case PivotPassed(_, txn) => if txn == s then t.(due := t.tries, passed := true) else t
    case Cancel(txn, completed) =>
      if txn != s then t else if completed then t.(cancelled := true, completed := true)
        else t.(cancelled := true, owed := t.tries)
    case _ => t
  }

  function StoryOf(log: Log, s: Id): (t: Story) {
    if log == [] then Blank else Tell(StoryOf(log[..|log| - 1], s), log[|log| - 1].body, s)
  }

  function TellAll(t: Story, bodies: seq<Body>, s: Id): (r: Story) {
    if bodies == [] then t else Tell(TellAll(t, bodies[..|bodies| - 1], s), bodies[|bodies| - 1], s)
  }

  lemma {:induction false} StoryAppended(log: Log, next: Log, bodies: seq<Body>, s: Id)
    requires Appended(log, next, bodies)
    ensures StoryOf(next, s) == TellAll(StoryOf(log, s), bodies, s)
  {
    if bodies == [] {
      assert next == log;
    } else {
      var n := |next| - 1;
      assert next[n].body == bodies[|bodies| - 1];
      assert next[..n][..|log|] == log;
      StoryAppended(log, next[..n], bodies[..|bodies| - 1], s);
    }
  }

  /** Events no part of a transaction. */
  predicate Plain(b: Body) { !b.Try? && !b.Confirm? && !b.Cancel? && !b.PivotPassed? && !b.ScopeState? }

  lemma {:induction false} PlainTellsNothing(t: Story, bodies: seq<Body>, s: Id)
    requires forall k :: 0 <= k < |bodies| ==> Plain(bodies[k])
    ensures TellAll(t, bodies, s) == t
  {
    if bodies != [] { PlainTellsNothing(t, bodies[..|bodies| - 1], s); }
  }

  /* ---------------------------------------------------------------- the invariant */

  predicate Undone(state: RowState) { state == RowCancelling || state == RowCancelled || state == RowSuspended }
  predicate PastPivot(state: RowState) { state == RowPassed || state == RowCommitted || state == RowSuspended }

  predicate StateIs(c: Db, s: Id, p: RowState -> bool) { s in c.run.rows && p(c.run.rows[s].state) }

  ghost predicate ScopeOk(c: Db, s: Id) {
    var t := StoryOf(c.run.log, s);
    && (t.passed ==> StateIs(c, s, PastPivot))
    && (t.cancelled ==> StateIs(c, s, Undone))
    && (t.completed ==> t.cancelled)
    && (s in c.run.rows && c.run.rows[s].state == RowPassed ==> t.passed)
    && t.due <= t.tries && t.owed <= t.tries
    && (forall key :: key in t.tries <==> key in c.brackets && c.brackets[key].scope == s)
    && (forall key :: key in t.tries && c.brackets[key].state == Confirmed ==> key in t.confirmed && t.passed)
    && (forall key :: key in t.tries && c.brackets[key].state == Released ==> t.completed)
    && (forall key :: key in t.owed && c.brackets[key].invertible ==> (s, c.brackets[key].vertex) in c.members)
  }

  ghost predicate BelongsTo(c: Db, v: Id, s: Id) {
    s in c.run.rows && CreatedOf(c.run.log, v).Some? && CreatedOf(c.run.log, v).value.scope == Some(s)
  }

  ghost predicate WorkerOk(c: Db, p: At) {
    match p
    case Idle => true
    case Calling(v, s, _, _, _) => BelongsTo(c, v, s)
    case PivotOut(v, s) => InState(c.run, s, RowInflight) && c.run.rows[s].pivot == Some(v)
    case Disproved(v, s) => s in c.run.absent && c.run.absent[s] == v
    case AfterPivot(_, s) => InState(c.run, s, RowPassed)
    case Confirming(_, s, left) =>
      && InState(c.run, s, RowPassed)
      && forall key :: key in StoryOf(c.run.log, s).due && key in c.brackets && c.brackets[key].confirmable
           ==> key in left || key in StoryOf(c.run.log, s).confirmed
    case Undoing(s) => StateIs(c, s, Undone)
    case Inverting(s, _) => StateIs(c, s, Undone)
    case Inverted(s, m) => StateIs(c, s, Undone) && (s, m) in c.inverses
  }

  /** The scope whose pivot a worker is carrying through. */
  function Carries(p: At): (s: Option<Id>) {
    match p
    case PivotOut(_, s) => Some(s)
    case AfterPivot(_, s) => Some(s)
    case Confirming(_, s, _) => Some(s)
    case Disproved(_, s) => Some(s)
    case _ => None
  }

  ghost predicate OneCarrier(c: Db) {
    forall w, x :: w in c.at && x in c.at && w != x && Carries(c.at[w]).Some? ==> Carries(c.at[w]) != Carries(c.at[x])
  }

  /** What must be true of a scope the moment an event about it is written. */
  ghost predicate Fits(c: Db, t: Story, b: Body) {
    match b
    case PivotPassed(_, _) => !t.passed
    case Confirm(_, _, _) => t.passed && !t.completed
    case Cancel(s, completed) =>
      !t.passed && (completed ==> forall key :: key in t.owed && key in c.brackets && c.brackets[key].invertible ==>
        (s, c.brackets[key].vertex) in c.inverses)
    case ScopeState(_, declared) =>
      declared == DeclaredCommitted ==> forall key ::
        key in t.due && key in c.brackets && c.brackets[key].confirmable ==> key in t.confirmed
    case _ => true
  }

  ghost predicate FitsAt(c: Db, k: nat)
    requires k < |c.run.log|
  {
    var b := c.run.log[k].body;
    ScopeColumn(b).Some? ==> Fits(c, StoryOf(c.run.log[..k], ScopeColumn(b).value), b)
  }

  /** A member is completed only after its inverse succeeded. */
  ghost predicate MembersDone(c: Db) {
    forall s, m :: (s, m) in c.members && c.members[(s, m)] ==> (s, m) in c.inverses
  }

  ghost predicate Safe(c: Db) {
    && Inv(c.run)
    && (forall s :: ScopeOk(c, s))
    && (forall w :: w in c.at ==> WorkerOk(c, c.at[w]))
    && OneCarrier(c)
    && MembersDone(c)
    && (forall k :: 0 <= k < |c.run.log| ==> FitsAt(c, k))
  }

  lemma SafeParts(c: Db)
    requires Safe(c)
    ensures Inv(c.run) && OneCarrier(c) && MembersDone(c)
  {
    hide Inv, ScopeOk, WorkerOk, OneCarrier, MembersDone, FitsAt;
  }

  lemma SafeScope(c: Db, s: Id)
    requires Safe(c)
    ensures ScopeOk(c, s)
  {
    hide Inv, ScopeOk, WorkerOk, OneCarrier, MembersDone, FitsAt;
  }

  lemma SafeWorker(c: Db, w: Worker)
    requires Safe(c) && w in c.at
    ensures WorkerOk(c, c.at[w])
  {
    hide Inv, ScopeOk, WorkerOk, OneCarrier, MembersDone, FitsAt;
  }

  lemma SafeFit(c: Db, k: nat)
    requires Safe(c) && k < |c.run.log|
    ensures FitsAt(c, k)
  {
    hide Inv, ScopeOk, WorkerOk, OneCarrier, MembersDone, FitsAt;
  }

  lemma Assemble(c: Db)
    requires Inv(c.run) && OneCarrier(c) && MembersDone(c)
    requires forall s :: ScopeOk(c, s)
    requires forall w :: w in c.at ==> WorkerOk(c, c.at[w])
    requires forall k :: 0 <= k < |c.run.log| ==> FitsAt(c, k)
    ensures Safe(c)
  {
    hide Inv, ScopeOk, WorkerOk, OneCarrier, MembersDone, FitsAt;
  }

  /* ---------------------------------------------------------------- refinement of the run protocol */

  /** The protocol step an action amounts to; none when it changes nothing a run shows. */
  function Abstract(c: Db, move: Move): (step: Option<Step>) {
    match move
    case Engine(step) => Some(step)
    case Ensure(s) => Some(EnsureScope(s))
    case SealCall(w) => if Stands(c, w).Calling? then Some(Seal(Stands(c, w).v, Stands(c, w).s, Stands(c, w).key))
      else None
    case FinishCall(w) => if Stands(c, w).Calling? then Some(Report(Succeeded(Stands(c, w).v, Some(Stands(c, w).s))))
      else None
    case FailCall(w) => if Stands(c, w).Calling?
      then Some(Report(Failed(Stands(c, w).v, Some(Stands(c, w).s), false))) else None
    case Admit(_, v, s) => Some(AdmitPivot(s, v))
    case PivotSucceeds(w) => if Stands(c, w).PivotOut? then Some(PassPivot(Stands(c, w).s, Stands(c, w).v)) else None
    case PivotAbsent(w) => if Stands(c, w).PivotOut? then Some(ResolveAbsent(Stands(c, w).s)) else None
    case PivotUnknown(w) => if Stands(c, w).PivotOut? then Some(FailUnknown(Stands(c, w).s, Stands(c, w).v)) else None
    case ReportAbsent(w) => if Stands(c, w).Disproved? then Some(FailAbsent(Stands(c, w).s)) else None
    case ConfirmOne(w) =>
      if Stands(c, w).Confirming? && Stands(c, w).left != [] && Stands(c, w).left[0] in c.brackets
      then Some(ConfirmTry(c.brackets[Stands(c, w).left[0]].vertex, Stands(c, w).s, Stands(c, w).left[0])) else None
    case ConfirmFails(w) => if Stands(c, w).Confirming? then Some(Suspend(Stands(c, w).s)) else None
    case CommitScope(w) => if Stands(c, w).Confirming? then Some(Commit(Stands(c, w).s)) else None
    case BeginCancel(_, s) => Some(StartCancel(s))
    case SuspendInstead(_, s) => Some(Suspend(s))
    case InverseFails(w) => if Stands(c, w).Inverting? then Some(Suspend(Stands(c, w).s)) else None
    case FinishCancel(w) => if Stands(c, w).Undoing? then Some(CompleteCancel(Stands(c, w).s)) else None
    case _ => None
  }

  lemma CallRefines(policy: Policy, price: Pricing, c: Db, move: Move, d: Db)
    requires Safe(c) && Acts(policy, price, c, move, d)
    requires move.StartCall? || move.SealCall? || move.FinishCall? || move.FailCall? || move.Ensure?
    ensures Abstract(c, move).Some? ==> Takes(policy, price, c.run, Abstract(c, move).value, d.run)
    ensures Abstract(c, move).None? ==> d.run == c.run
  {
    hide Inv, ScopeOk, OneCarrier, FitsAt, StoryOf, Outstanding, SelectBoundary, Appended, CreatedOf, Recovers,
      FreshWork, IsNote;
  }

  lemma PivotRefines(policy: Policy, price: Pricing, c: Db, move: Move, d: Db)
    requires Safe(c) && Acts(policy, price, c, move, d)
    requires move.Admit? || move.PivotSucceeds? || move.PivotAbsent? || move.PivotUnknown? || move.ReportAbsent?
    ensures Abstract(c, move).Some? ==> Takes(policy, price, c.run, Abstract(c, move).value, d.run)
    ensures Abstract(c, move).None? ==> d.run == c.run
  {
    hide Inv, ScopeOk, OneCarrier, FitsAt, StoryOf, Outstanding, SelectBoundary, Appended, CreatedOf, Recovers,
      FreshWork, IsNote;
  }

  lemma ConfirmRefines(policy: Policy, price: Pricing, c: Db, move: Move, d: Db)
    requires Safe(c) && Acts(policy, price, c, move, d)
    requires move.ReadSealed? || move.ConfirmOne? || move.ConfirmFails? || move.CommitScope?
    ensures Abstract(c, move).Some? ==> Takes(policy, price, c.run, Abstract(c, move).value, d.run)
    ensures Abstract(c, move).None? ==> d.run == c.run
  {
    hide Inv, ScopeOk, OneCarrier, FitsAt, StoryOf, Outstanding, SelectBoundary, Appended, CreatedOf, Recovers,
      FreshWork, IsNote;
  }

  lemma CancelRefines(policy: Policy, price: Pricing, c: Db, move: Move, d: Db)
    requires Safe(c) && Acts(policy, price, c, move, d)
    requires move.BeginCancel? || move.SuspendInstead? || move.ResumeCancel? || move.FinishCancel?
    ensures Abstract(c, move).Some? ==> Takes(policy, price, c.run, Abstract(c, move).value, d.run)
    ensures Abstract(c, move).None? ==> d.run == c.run
  {
    hide Inv, ScopeOk, OneCarrier, FitsAt, StoryOf, Outstanding, SelectBoundary, Appended, CreatedOf, Recovers,
      FreshWork, IsNote;
  }

  lemma InverseRefines(policy: Policy, price: Pricing, c: Db, move: Move, d: Db)
    requires Safe(c) && Acts(policy, price, c, move, d)
    requires move.ClaimMember? || move.InverseSucceeds? || move.InverseFails? || move.CompleteMember? || move.Stop?
    ensures Abstract(c, move).Some? ==> Takes(policy, price, c.run, Abstract(c, move).value, d.run)
    ensures Abstract(c, move).None? ==> d.run == c.run
  {
    hide Inv, ScopeOk, OneCarrier, FitsAt, StoryOf, Outstanding, SelectBoundary, Appended, CreatedOf, Recovers,
      FreshWork, IsNote;
  }

  /** Every move is a step of the run protocol, or leaves the run as it was. */
  lemma MoveRefinesStep(policy: Policy, price: Pricing, c: Db, move: Move, d: Db)
    requires Safe(c) && Acts(policy, price, c, move, d)
    ensures Abstract(c, move).Some? ==> Takes(policy, price, c.run, Abstract(c, move).value, d.run)
    ensures Abstract(c, move).None? ==> d.run == c.run
  {
    hide Takes, Safe;
    match move
    case Engine(_) =>
    case StartCall(_, _, _, _, _, _) => CallRefines(policy, price, c, move, d);
    case SealCall(_) => CallRefines(policy, price, c, move, d);
    case FinishCall(_) => CallRefines(policy, price, c, move, d);
    case FailCall(_) => CallRefines(policy, price, c, move, d);
    case Ensure(_) => CallRefines(policy, price, c, move, d);
    case Admit(_, _, _) => PivotRefines(policy, price, c, move, d);
    case PivotSucceeds(_) => PivotRefines(policy, price, c, move, d);
    case PivotAbsent(_) => PivotRefines(policy, price, c, move, d);
    case PivotUnknown(_) => PivotRefines(policy, price, c, move, d);
    case ReportAbsent(_) => PivotRefines(policy, price, c, move, d);
    case ReadSealed(_, _) => ConfirmRefines(policy, price, c, move, d);
    case ConfirmOne(_) => ConfirmRefines(policy, price, c, move, d);
    case ConfirmFails(_) => ConfirmRefines(policy, price, c, move, d);
    case CommitScope(_) => ConfirmRefines(policy, price, c, move, d);
    case BeginCancel(_, _) => CancelRefines(policy, price, c, move, d);
    case SuspendInstead(_, _) => CancelRefines(policy, price, c, move, d);
    case ResumeCancel(_, _) => CancelRefines(policy, price, c, move, d);
    case FinishCancel(_) => CancelRefines(policy, price, c, move, d);
    case ClaimMember(_, _) => InverseRefines(policy, price, c, move, d);
    case InverseSucceeds(_) => InverseRefines(policy, price, c, move, d);
    case InverseFails(_) => InverseRefines(policy, price, c, move, d);
    case CompleteMember(_) => InverseRefines(policy, price, c, move, d);
    case Stop(_) => InverseRefines(policy, price, c, move, d);
  }

  /* ---------------------------------------------------------------- stories only grow */

  lemma {:induction false} StoryGrows(log: Log, k: nat, s: Id)
    requires k <= |log|
    ensures StoryOf(log[..k], s).tries <= StoryOf(log, s).tries
    ensures StoryOf(log[..k], s).due <= StoryOf(log[..k], s).tries
      && StoryOf(log[..k], s).owed <= StoryOf(log[..k], s).tries
  {
    if k == |log| {
      assert log[..k] == log;
      StoryNested(log, s);
    } else {
      StoryGrows(log[..|log| - 1], k, s);
      assert log[..|log| - 1][..k] == log[..k];
    }
  }

  lemma {:induction false} StoryNested(log: Log, s: Id)
    ensures StoryOf(log, s).due <= StoryOf(log, s).tries && StoryOf(log, s).owed <= StoryOf(log, s).tries
  {
    if log != [] { StoryNested(log[..|log| - 1], s); }
  }

  /** What was fitting stays so: bracket rows keep what they name, and inverses are never taken back. */
  ghost predicate Extends(c: Db, d: Db) {
    && |c.run.log| <= |d.run.log| && d.run.log[..|c.run.log|] == c.run.log
    && c.inverses <= d.inverses
    && forall key :: key in c.brackets ==>
      key in d.brackets && d.brackets[key] == c.brackets[key].(state := d.brackets[key].state)
  }

  lemma OldFits(c: Db, d: Db, k: nat)
    requires Safe(c) && Extends(c, d) && k < |c.run.log|
    ensures FitsAt(d, k)
  {
    hide Safe;
    SafeFit(c, k);
    assert d.run.log[k] == c.run.log[k] && d.run.log[..k] == c.run.log[..k];
    var b := c.run.log[k].body;
    if ScopeColumn(b).Some? {
      var s := ScopeColumn(b).value;
      StoryGrows(c.run.log, k, s);
      SafeScope(c, s);
    }
  }

  /* ---------------------------------------------------------------- the Engine's steps */

  lemma EngineIsPlain(policy: Policy, price: Pricing, a: Run, step: Step, b: Run) returns (bodies: seq<Body>)
    requires step.Freeze? || step.Note? || step.Report? || step.Recover?
    requires Takes(policy, price, a, step, b)
    ensures Appended(a.log, b.log, bodies) && forall k :: 0 <= k < |bodies| ==> Plain(bodies[k])
    ensures b.absent == a.absent && b.rows.Keys == a.rows.Keys
    ensures forall s :: s in a.rows ==>
      b.rows[s].state == a.rows[s].state && b.rows[s].pivot == a.rows[s].pivot
        && (a.rows[s].fenced ==> b.rows[s].fenced)
  {
    hide SelectBoundary, Outstanding, IsCreated, CreatedOf, Appended;
    match step
    case Freeze(proposedSeq, created) => bodies := [Frozen(proposedSeq)] + created;
    case Note(n) => bodies := [n];
    case Report(r) => bodies := [r];
    case Recover(v, tries) => bodies := Drafts(SelectBoundary(a.log, v, policy, price, Some(View(a.rows, tries))));
  }

  lemma {:induction false} CreatedStays(log: Log, next: Log, v: Id)
    requires |log| <= |next| && next[..|log|] == log && CreatedOnce(next) && CreatedOf(log, v).Some?
    ensures CreatedOf(next, v) == CreatedOf(log, v)
  {
    CreatedOfSome(log, v);
    var i :| 0 <= i < |log| && log[i].body == CreatedOf(log, v).value;
    assert next[i] == log[i];
    CreatedOfAt(next, i);
  }

  lemma EngineKeeps(policy: Policy, price: Pricing, c: Db, step: Step, d: Db)
    requires Safe(c) && (step.Freeze? || step.Note? || step.Report? || step.Recover?)
    requires Takes(policy, price, c.run, step, d.run) && d == c.(run := d.run) && Inv(d.run)
    ensures Safe(d)
  {
    var bodies := EngineIsPlain(policy, price, c.run, step, d.run);
    hide Takes, Inv, Safe, ScopeOk, WorkerOk, OneCarrier, FitsAt, MembersDone;
    PlainKeeps(c, d, bodies);
  }

  /** Events no part of a transaction, with every scope left in its state. */
  lemma PlainKeeps(c: Db, d: Db, bodies: seq<Body>)
    requires Safe(c) && Inv(d.run) && d == c.(run := d.run) && Appended(c.run.log, d.run.log, bodies)
    requires forall k :: 0 <= k < |bodies| ==> Plain(bodies[k])
    requires d.run.absent == c.run.absent && d.run.rows.Keys == c.run.rows.Keys
    requires forall s :: s in c.run.rows ==>
      d.run.rows[s].state == c.run.rows[s].state && d.run.rows[s].pivot == c.run.rows[s].pivot
    ensures Safe(d)
  {
    hide Inv, Safe, ScopeOk, WorkerOk, OneCarrier, FitsAt, MembersDone, Plain;
    SafeParts(c);
    CarriersSame(c, d);
    MembersSame(c, d);
    forall s ensures StoryOf(d.run.log, s) == StoryOf(c.run.log, s) {
      StoryAppended(c.run.log, d.run.log, bodies, s);
      PlainTellsNothing(StoryOf(c.run.log, s), bodies, s);
    }
    forall s ensures ScopeOk(d, s) {
      SafeScope(c, s);
      SameStates(c, d, s);
    }
    forall w | w in d.at ensures WorkerOk(d, d.at[w]) {
      SafeWorker(c, w);
      PlainWorker(c, d, c.at[w]);
    }
    forall k | 0 <= k < |d.run.log| ensures FitsAt(d, k) {
      if k < |c.run.log| {
        OldFits(c, d, k);
      } else {
        assert d.run.log[k].body == bodies[k - |c.run.log|];
        PlainFits(d, k);
      }
    }
    Assemble(d);
  }

  lemma PlainFits(d: Db, k: nat)
    requires k < |d.run.log| && Plain(d.run.log[k].body)
    ensures FitsAt(d, k)
  {
  }

  lemma MembersSame(c: Db, d: Db)
    requires MembersDone(c) && d.members == c.members && c.inverses <= d.inverses
    ensures MembersDone(d)
  {
  }

  lemma PlainWorker(c: Db, d: Db, p: At)
    requires WorkerOk(c, p) && Inv(d.run) && Extends(c, d) && c.brackets == d.brackets && c.inverses == d.inverses
    requires d.run.absent == c.run.absent && d.run.rows.Keys == c.run.rows.Keys
    requires forall s :: s in c.run.rows ==>
      d.run.rows[s].state == c.run.rows[s].state && d.run.rows[s].pivot == c.run.rows[s].pivot
    requires forall s :: StoryOf(d.run.log, s) == StoryOf(c.run.log, s)
    ensures WorkerOk(d, p)
  {
    if p.Calling? { CreatedStays(c.run.log, d.run.log, p.v); }
  }

  /* ---------------------------------------------------------------- moves that write nothing */

  /** One worker moved on, and nothing but cancel members and inverses changed besides. */
  ghost predicate Quietly(c: Db, d: Db, w: Worker) {
    && d.run == c.run && d.brackets == c.brackets && c.inverses <= d.inverses && c.members.Keys == d.members.Keys
    && w in d.at && d.at == c.at[w := d.at[w]]
    && (Carries(d.at[w]).None? || (w in c.at && Carries(d.at[w]) == Carries(c.at[w])))
  }

  lemma QuietlyKeeps(c: Db, d: Db, w: Worker)
    requires Safe(c) && Quietly(c, d, w) && WorkerOk(d, d.at[w]) && MembersDone(d)
    ensures Safe(d)
  {
    hide Inv, Safe, ScopeOk, WorkerOk, OneCarrier, FitsAt, MembersDone, Carries;
    SafeParts(c);
    forall s ensures ScopeOk(d, s) {
      SafeScope(c, s);
      SameScope(c, d, s);
    }
    forall x | x in d.at ensures WorkerOk(d, d.at[x]) {
      if x != w {
        SafeWorker(c, x);
        SameWorker(c, d, c.at[x]);
      }
    }
    CarriersKept(c, d, w, d.at[w]);
    forall k | 0 <= k < |d.run.log| ensures FitsAt(d, k) { OldFits(c, d, k); }
    Assemble(d);
  }

  lemma StartCallKeeps(c: Db, w: Worker, v: Id, s: Id, key: Id, confirmable: bool, invertible: bool, d: Db)
    requires Safe(c) && StartsCall(c, w, v, s, key, confirmable, invertible, d)
    ensures Safe(d)
  {
    hide Safe, CreatedOf;
    SafeParts(c);
    QuietlyKeeps(c, d, w);
  }

  lemma ReadSealedKeeps(c: Db, w: Worker, keys: seq<Id>, d: Db)
    requires Safe(c) && ReadsSealed(c, w, keys, d)
    ensures Safe(d)
  {
    hide Safe, StoryOf;
    SafeParts(c);
    SafeWorker(c, w);
    SafeScope(c, Stands(c, w).s);
    QuietlyKeeps(c, d, w);
  }

  lemma MemberKeeps(c: Db, move: Move, d: Db)
    requires Safe(c)
    requires (move.ResumeCancel? && ResumesCancel(c, move.w, move.s, d))
      || (move.ClaimMember? && ClaimsMember(c, move.w, move.m, d))
      || (move.InverseSucceeds? && SucceedsInverse(c, move.w, d))
        || (move.CompleteMember? && CompletesMember(c, move.w, d)) || (move.Stop? && Stops(c, move.w, d))
    ensures Safe(d)
  {
    hide Safe, Inv, OneCarrier;
    SafeParts(c);
    if move.w in c.at { SafeWorker(c, move.w); }
    QuietlyKeeps(c, d, move.w);
  }

  lemma SameScope(c: Db, d: Db, s: Id)
    requires ScopeOk(c, s) && d.run == c.run && d.brackets == c.brackets && c.members.Keys == d.members.Keys
    ensures ScopeOk(d, s)
  {
    hide StoryOf;
  }

  lemma SameWorker(c: Db, d: Db, p: At)
    requires WorkerOk(c, p) && d.run == c.run && d.brackets == c.brackets && c.inverses <= d.inverses
    ensures WorkerOk(d, p)
  {
  }

  /* ---------------------------------------------------------------- moves that write */

  /** An event that fits wherever it is written. */
  predicate AlwaysFits(b: Body) { Plain(b) || (b.ScopeState? && b.declared != DeclaredCommitted) || b.Try? }

  lemma NewFits(c: Db, d: Db, bodies: seq<Body>)
    requires Safe(c) && Extends(c, d) && Appended(c.run.log, d.run.log, bodies) && bodies != []
    requires AlwaysFits(bodies[0])
      || (ScopeColumn(bodies[0]).Some? && Fits(d, StoryOf(c.run.log, ScopeColumn(bodies[0]).value), bodies[0]))
    requires forall k :: 1 <= k < |bodies| ==> AlwaysFits(bodies[k])
    ensures forall k :: 0 <= k < |d.run.log| ==> FitsAt(d, k)
  {
    hide Safe;
    var n := |c.run.log|;
    forall k | 0 <= k < |d.run.log| ensures FitsAt(d, k) {
      if k < n {
        OldFits(c, d, k);
      } else {
        assert d.run.log[k].body == bodies[k - n];
        if k == n { assert d.run.log[..k] == c.run.log; }
      }
    }
  }

  /** One worker moved to where it carries what it carried before, or nothing. */
  lemma CarriersKept(c: Db, d: Db, w: Worker, to: At)
    requires OneCarrier(c) && d.at == c.at[w := to]
      && (Carries(to).None? || (w in c.at && Carries(to) == Carries(c.at[w])))
    ensures OneCarrier(d)
  {
  }

  /** Whether a worker's standing depends on the scope staying in flight or passed. */
  predicate Holds(p: At, s: Id) { (p.PivotOut? || p.AfterPivot? || p.Confirming?) && p.s == s }

  lemma NoOtherHolds(c: Db, w: Worker, s: Id)
    requires OneCarrier(c) && w in c.at && Holds(c.at[w], s)
    ensures forall x :: x in c.at && x != w ==> !Holds(c.at[x], s)
  {
  }

  lemma NobodyHolds(c: Db, s: Id)
    requires Safe(c) && s in c.run.rows && c.run.rows[s].state != RowInflight && c.run.rows[s].state != RowPassed
    ensures forall x :: x in c.at ==> !Holds(c.at[x], s)
  {
    hide Safe;
    forall x | x in c.at ensures !Holds(c.at[x], s) { SafeWorker(c, x); }
  }

  /** A scope leaves the states its own worker relies on; the brackets and every other scope are untouched. */
  lemma ClosingWorker(c: Db, d: Db, s: Id, p: At)
    requires WorkerOk(c, p) && Inv(d.run) && Extends(c, d) && d.brackets == c.brackets && c.inverses == d.inverses
    requires d.run.rows.Keys == c.run.rows.Keys && d.run.absent == c.run.absent
    requires forall r :: r in c.run.rows && r != s ==> d.run.rows[r] == c.run.rows[r]
    requires s in c.run.rows && (Undone(c.run.rows[s].state) ==> Undone(d.run.rows[s].state))
    requires forall r ::
      StoryOf(d.run.log, r).due == StoryOf(c.run.log, r).due
        && StoryOf(d.run.log, r).confirmed >= StoryOf(c.run.log, r).confirmed
    requires !Holds(p, s)
    ensures WorkerOk(d, p)
  {
    hide StoryOf, Inv;
    if p.Calling? {
      assert CreatedOnce(d.run.log) by { InvCreatedOnce(d.run); }
      CreatedStays(c.run.log, d.run.log, p.v);
    }
  }

  lemma InvCreatedOnce(a: Run)
    requires Inv(a)
    ensures CreatedOnce(a.log) && Numbered(a.log) && Coherent(a)
  {
  }

  /** Writing a scope's new state and nothing else. */
  lemma {:induction false} DeclareKeeps(c: Db, d: Db, w: Worker, s: Id, declared: Declared, state: RowState)
    requires Safe(c) && Inv(d.run) && w in d.at && d.at == c.at[w := Idle]
    requires (declared == DeclaredSuspended && state == RowSuspended)
      || (declared == DeclaredCommitted && state == RowCommitted)
    requires Writes(c, d, [ScopeState(s, declared)], Upsert(c.run.rows, s, state)) && d.brackets == c.brackets
      && Leaves(c, d, w, Idle)
    requires s in c.run.rows && (state == RowCommitted ==> c.run.rows[s].state == RowPassed)
    requires forall x :: x in c.at && x != w ==> !Holds(c.at[x], s)
    requires declared == DeclaredCommitted ==> Fits(c, StoryOf(c.run.log, s), ScopeState(s, declared))
    ensures Safe(d)
  {
    hide Inv, FitsAt, ScopeOk, WorkerOk, OneCarrier, Safe, MembersDone, Holds, Fits;
    var bodies := [ScopeState(s, declared)];
    SafeParts(c);
    MembersSame(c, d);
    forall r ensures StoryOf(d.run.log, r) == StoryOf(c.run.log, r) { StoryAppended(c.run.log, d.run.log, bodies, r); }
    forall r ensures ScopeOk(d, r) {
      SafeScope(c, r);
      DeclareScope(c, d, s, state, r);
    }
    forall x | x in c.at && x != w ensures WorkerOk(d, c.at[x]) {
      SafeWorker(c, x);
      ClosingWorker(c, d, s, c.at[x]);
    }
    CarriersKept(c, d, w, Idle);
    IdleIsOk(d);
    DeclareFits(c, d, s, declared);
    WriteKeeps(c, d, w, Idle, bodies);
  }

  lemma {:induction false} DeclareScope(c: Db, d: Db, s: Id, state: RowState, r: Id)
    requires ScopeOk(c, r) && StoryOf(d.run.log, r) == StoryOf(c.run.log, r) && d.brackets == c.brackets
      && d.members == c.members
    requires s in c.run.rows && d.run.rows == Upsert(c.run.rows, s, state)
    requires state == RowSuspended || (state == RowCommitted && c.run.rows[s].state == RowPassed)
    ensures ScopeOk(d, r)
  {
    hide StoryOf;
  }

  lemma {:induction false} DeclareFits(c: Db, d: Db, s: Id, declared: Declared)
    requires d.brackets == c.brackets
    requires declared == DeclaredCommitted ==> Fits(c, StoryOf(c.run.log, s), ScopeState(s, declared))
    ensures AlwaysFits(ScopeState(s, declared)) || Fits(d, StoryOf(c.run.log, s), ScopeState(s, declared))
  {
  }

  lemma IdleIsOk(d: Db)
    ensures WorkerOk(d, Idle)
  {
  }

  /** Putting the pieces together after one worker wrote something. */
  lemma WriteKeeps(c: Db, d: Db, w: Worker, to: At, bodies: seq<Body>)
    requires Safe(c) && Inv(d.run) && Extends(c, d) && Appended(c.run.log, d.run.log, bodies) && bodies != []
    requires d.at == c.at[w := to] && WorkerOk(d, to) && OneCarrier(d)
    requires forall s :: ScopeOk(d, s)
    requires forall x :: x in c.at && x != w ==> WorkerOk(d, c.at[x])
    requires MembersDone(d)
    requires AlwaysFits(bodies[0])
      || (ScopeColumn(bodies[0]).Some? && Fits(d, StoryOf(c.run.log, ScopeColumn(bodies[0]).value), bodies[0]))
    requires forall k :: 1 <= k < |bodies| ==> AlwaysFits(bodies[k])
    ensures Safe(d)
  {
    hide Inv, FitsAt, ScopeOk, WorkerOk, OneCarrier, StoryOf, Fits, AlwaysFits, Safe, MembersDone;
    NewFits(c, d, bodies);
    forall x | x in d.at ensures WorkerOk(d, d.at[x]) {
      if x != w { assert WorkerOk(d, c.at[x]); }
    }
    Assemble(d);
  }

  lemma EnsureKeeps(c: Db, s: Id, d: Db)
    requires Safe(c) && Opens(c, s, d) && Inv(d.run)
    ensures Safe(d)
  {
    hide Inv, FitsAt, ScopeOk, WorkerOk, OneCarrier, Safe, MembersDone;
    var bodies := [ScopeState(s, DeclaredOpen)];
    SafeParts(c);
    CarriersSame(c, d);
    MembersSame(c, d);
    forall r ensures StoryOf(d.run.log, r) == StoryOf(c.run.log, r) { StoryAppended(c.run.log, d.run.log, bodies, r); }
    forall r ensures ScopeOk(d, r) {
      SafeScope(c, r);
      OpenedScope(c, d, s, r);
    }
    forall x | x in d.at ensures WorkerOk(d, d.at[x]) {
      SafeWorker(c, x);
      OpenedWorker(c, d, s, c.at[x]);
    }
    NewFits(c, d, bodies);
    Assemble(d);
  }

  lemma {:induction false} OpenedScope(c: Db, d: Db, s: Id, r: Id)
    requires ScopeOk(c, r) && s !in c.run.rows && d.run.rows == Upsert(c.run.rows, s, RowOpen)
    requires d.brackets == c.brackets && d.members == c.members && StoryOf(d.run.log, r) == StoryOf(c.run.log, r)
    ensures ScopeOk(d, r)
  {
    hide StoryOf;
  }

  lemma OpenedWorker(c: Db, d: Db, s: Id, p: At)
    requires WorkerOk(c, p) && Inv(d.run) && Extends(c, d) && d.brackets == c.brackets && d.inverses == c.inverses
      && d.run.absent == c.run.absent
    requires s !in c.run.rows && d.run.rows == Upsert(c.run.rows, s, RowOpen)
      && forall r :: StoryOf(d.run.log, r) == StoryOf(c.run.log, r)
    ensures WorkerOk(d, p)
  {
    hide StoryOf, Inv;
    if p.Calling? {
      InvCreatedOnce(d.run);
      CreatedStays(c.run.log, d.run.log, p.v);
    }
  }

  lemma CarriersSame(c: Db, d: Db)
    requires OneCarrier(c) && d.at == c.at
    ensures OneCarrier(d)
  {
  }

  /** A failure report: it may fence, and moves no scope between states. */
  lemma FinishCallKeeps(c: Db, w: Worker, d: Db)
    requires Safe(c) && FinishesCall(c, w, d) && Inv(d.run)
    ensures Safe(d)
  {
    hide Inv, FitsAt, ScopeOk, WorkerOk, OneCarrier, Safe, MembersDone;
    var p := Stands(c, w);
    var bodies := [Succeeded(p.v, Some(p.s))];
    SafeParts(c);
    MembersSame(c, d);
    forall r ensures StoryOf(d.run.log, r) == StoryOf(c.run.log, r) { StoryAppended(c.run.log, d.run.log, bodies, r); }
    forall r ensures ScopeOk(d, r) {
      SafeScope(c, r);
      SameStates(c, d, r);
    }
    forall x | x in c.at && x != w ensures WorkerOk(d, c.at[x]) {
      SafeWorker(c, x);
      PlainWorker(c, d, c.at[x]);
    }
    CarriersKept(c, d, w, Idle);
    IdleIsOk(d);
    WriteKeeps(c, d, w, Idle, bodies);
  }

  lemma FailCallKeeps(c: Db, w: Worker, d: Db)
    requires Safe(c) && FailsCall(c, w, d) && Inv(d.run)
    ensures Safe(d)
  {
    hide Inv, FitsAt, ScopeOk, WorkerOk, OneCarrier, Safe, MembersDone;
    var p := Stands(c, w);
    var bodies := [Failed(p.v, Some(p.s), false)];
    SafeParts(c);
    MembersSame(c, d);
    forall r ensures StoryOf(d.run.log, r) == StoryOf(c.run.log, r) { StoryAppended(c.run.log, d.run.log, bodies, r); }
    forall r ensures ScopeOk(d, r) {
      SafeScope(c, r);
      SameStates(c, d, r);
    }
    forall x | x in c.at && x != w ensures WorkerOk(d, c.at[x]) {
      SafeWorker(c, x);
      PlainWorker(c, d, c.at[x]);
    }
    CarriersKept(c, d, w, Idle);
    IdleIsOk(d);
    WriteKeeps(c, d, w, Idle, bodies);
  }

  lemma ReportAbsentKeeps(c: Db, w: Worker, d: Db)
    requires Safe(c) && ReportsAbsent(c, w, d) && Inv(d.run)
    ensures Safe(d)
  {
    hide Inv, FitsAt, ScopeOk, WorkerOk, OneCarrier, Safe, MembersDone;
    var p := Stands(c, w);
    var bodies := [Failed(p.v, Some(p.s), true)];
    SafeParts(c);
    MembersSame(c, d);
    forall r ensures StoryOf(d.run.log, r) == StoryOf(c.run.log, r) { StoryAppended(c.run.log, d.run.log, bodies, r); }
    forall r ensures ScopeOk(d, r) {
      SafeScope(c, r);
      SameStates(c, d, r);
    }
    forall x | x in c.at && x != w ensures WorkerOk(d, c.at[x]) { AbsentWorker(c, d, w, x); }
    CarriersKept(c, d, w, Idle);
    IdleIsOk(d);
    WriteKeeps(c, d, w, Idle, bodies);
  }

  lemma {:induction false} SameStates(c: Db, d: Db, r: Id)
    requires ScopeOk(c, r) && StoryOf(d.run.log, r) == StoryOf(c.run.log, r) && d.brackets == c.brackets
      && d.members == c.members
    requires d.run.rows.Keys == c.run.rows.Keys && forall s :: s in c.run.rows ==>
      d.run.rows[s].state == c.run.rows[s].state
    ensures ScopeOk(d, r)
  {
    hide StoryOf;
  }

  lemma AbsentWorker(c: Db, d: Db, w: Worker, x: Worker)
    requires Safe(c) && w in c.at && c.at[w].Disproved? && x in c.at && x != w && Inv(d.run) && Extends(c, d)
    requires d.run.rows == FenceOn(c.run.rows, Some(c.at[w].s)) && d.run.absent == c.run.absent - {c.at[w].s}
    requires d.brackets == c.brackets && d.inverses == c.inverses
    requires forall s :: StoryOf(d.run.log, s) == StoryOf(c.run.log, s)
    ensures WorkerOk(d, c.at[x])
  {
    hide Inv, StoryOf, Safe;
    var q := c.at[x];
    SafeParts(c);
    SafeWorker(c, x);
    if q.Disproved? {
      assert Carries(q) != Carries(c.at[w]);
    } else if q.Calling? {
      InvCreatedOnce(d.run);
      CreatedStays(c.run.log, d.run.log, q.v);
    }
  }

  lemma SealKeeps(c: Db, w: Worker, d: Db)
    requires Safe(c) && SealsCall(c, w, d) && Inv(d.run)
    ensures Safe(d)
  {
    hide Inv, FitsAt, ScopeOk, WorkerOk, OneCarrier, Safe, MembersDone;
    var p := Stands(c, w);
    var bodies := [Try(p.v, p.s, p.key), Succeeded(p.v, Some(p.s))];
    SafeParts(c);
    MembersSame(c, d);
    forall r ensures StoryOf(d.run.log, r) == Tell(StoryOf(c.run.log, r), bodies[0], r) {
      StoryOfTwo(c.run.log, d.run.log, bodies, r);
    }
    forall r ensures ScopeOk(d, r) {
      SafeScope(c, r);
      SealScope(c, d, p, r);
    }
    forall x | x in c.at && x != w ensures WorkerOk(d, c.at[x]) {
      SafeWorker(c, x);
      SealWorker(c, d, p, c.at[x]);
    }
    CarriersKept(c, d, w, Idle);
    IdleIsOk(d);
    WriteKeeps(c, d, w, Idle, bodies);
  }

  /** The second event of a pair is a success, which tells a story nothing. */
  lemma {:induction false} StoryOfTwo(log: Log, next: Log, bodies: seq<Body>, s: Id)
    requires |bodies| == 2 && bodies[1].Succeeded? && Appended(log, next, bodies)
    ensures StoryOf(next, s) == Tell(StoryOf(log, s), bodies[0], s)
  {
    StoryAppended(log, next, bodies, s);
    assert bodies[..1] == [bodies[0]];
    assert TellAll(StoryOf(log, s), bodies[..1], s) == Tell(TellAll(StoryOf(log, s), [], s), bodies[0], s) by {
      assert bodies[..1][..0] == [];
    }
  }

  lemma {:induction false} SealScope(c: Db, d: Db, p: At, r: Id)
    requires ScopeOk(c, r) && p.Calling? && p.key !in c.brackets && d.run.rows == c.run.rows && d.members == c.members
    requires d.brackets == c.brackets[p.key := Bracket(p.s, p.v, Sealed, p.confirmable, p.invertible)]
    requires StoryOf(d.run.log, r) == Tell(StoryOf(c.run.log, r), Try(p.v, p.s, p.key), r)
    ensures ScopeOk(d, r)
  {
    hide StoryOf;
  }

  lemma SealWorker(c: Db, d: Db, p: At, q: At)
    requires Safe(c) && p.Calling? && p.key !in c.brackets && WorkerOk(c, q) && Inv(d.run) && Extends(c, d)
    requires d.run.rows == c.run.rows && d.run.absent == c.run.absent && d.inverses == c.inverses
    requires d.brackets == c.brackets[p.key := Bracket(p.s, p.v, Sealed, p.confirmable, p.invertible)]
    requires forall r :: StoryOf(d.run.log, r) == Tell(StoryOf(c.run.log, r), Try(p.v, p.s, p.key), r)
    ensures WorkerOk(d, q)
  {
    hide Inv, StoryOf, Safe;
    if q.Calling? {
      InvCreatedOnce(d.run);
      CreatedStays(c.run.log, d.run.log, q.v);
    } else if q.Confirming? {
      SafeScope(c, q.s);
    }
  }

  /* ---------------------------------------------------------------- the pivot */

  lemma AdmitKeeps(c: Db, w: Worker, v: Id, s: Id, d: Db)
    requires Safe(c) && AdmitsPivot(c, w, v, s, d) && Inv(d.run)
    ensures Safe(d)
  {
    hide Inv, FitsAt, ScopeOk, WorkerOk, OneCarrier, Safe, MembersDone, CreatedOf, Holds, Carries;
    var bodies := [Started(v, Some(s), true)];
    NobodyHolds(c, s);
    NobodyCarries(c, s);
    SafeParts(c);
    MembersSame(c, d);
    forall r ensures StoryOf(d.run.log, r) == StoryOf(c.run.log, r) { StoryAppended(c.run.log, d.run.log, bodies, r); }
    forall r ensures ScopeOk(d, r) {
      SafeScope(c, r);
      OpenMovesOn(c, d, s, r);
    }
    forall x | x in c.at && x != w ensures WorkerOk(d, c.at[x]) {
      SafeWorker(c, x);
      ClosingWorker(c, d, s, c.at[x]);
    }
    NewCarrier(c, d, w, v, s);
    OutIsOk(d, v, s);
    WriteKeeps(c, d, w, PivotOut(v, s), bodies);
  }

  lemma OutIsOk(d: Db, v: Id, s: Id)
    requires InState(d.run, s, RowInflight) && d.run.rows[s].pivot == Some(v)
    ensures WorkerOk(d, PivotOut(v, s))
  {
  }

  /** An open, unfenced scope has no pivot on its way and none disproved. */
  lemma NobodyCarries(c: Db, s: Id)
    requires Safe(c) && InState(c.run, s, RowOpen) && !c.run.rows[s].fenced
    ensures forall x :: x in c.at ==> Carries(c.at[x]) != Some(s)
  {
    hide Safe, Inv;
    SafeParts(c);
    InvCreatedOnce(c.run);
    assert AgreesAt(c.run, s);
    forall x | x in c.at ensures Carries(c.at[x]) != Some(s) { SafeWorker(c, x); }
  }

  lemma NewCarrier(c: Db, d: Db, w: Worker, v: Id, s: Id)
    requires OneCarrier(c) && d.at == c.at[w := PivotOut(v, s)] && forall x :: x in c.at ==> Carries(c.at[x]) != Some(s)
    ensures OneCarrier(d)
  {
  }

  lemma {:induction false} OpenMovesOn(c: Db, d: Db, s: Id, r: Id)
    requires ScopeOk(c, r) && StoryOf(d.run.log, r) == StoryOf(c.run.log, r) && d.brackets == c.brackets
      && d.members == c.members
    requires InState(c.run, s, RowOpen) && s in d.run.rows && d.run.rows[s].state == RowInflight
    requires forall q :: q != s ==> RowOf(d.run.rows, q) == RowOf(c.run.rows, q)
    ensures ScopeOk(d, r)
  {
    hide StoryOf;
    if r != s { assert RowOf(d.run.rows, r) == RowOf(c.run.rows, r); }
  }

  lemma PassKeeps(c: Db, w: Worker, d: Db)
    requires Safe(c) && PassesPivot(c, w, d) && Inv(d.run)
    ensures Safe(d)
  {
    hide Inv, FitsAt, ScopeOk, WorkerOk, OneCarrier, Safe, MembersDone;
    var p := Stands(c, w);
    var bodies := [PivotPassed(p.v, p.s), Succeeded(p.v, Some(p.s))];
    SafeParts(c);
    MembersSame(c, d);
    NoOtherHolds(c, w, p.s);
    forall r ensures StoryOf(d.run.log, r) == Tell(StoryOf(c.run.log, r), bodies[0], r) {
      StoryOfTwo(c.run.log, d.run.log, bodies, r);
    }
    forall r ensures ScopeOk(d, r) {
      SafeScope(c, r);
      PassScope(c, d, p.v, p.s, r);
    }
    forall x | x in c.at && x != w ensures WorkerOk(d, c.at[x]) {
      SafeWorker(c, x);
      PassWorker(c, d, p.v, p.s, c.at[x]);
    }
    CarriersKept(c, d, w, AfterPivot(p.v, p.s));
    AfterIsOk(d, p.v, p.s);
    SafeScope(c, p.s);
    NotYet(c, p.s);
    WriteKeeps(c, d, w, AfterPivot(p.v, p.s), bodies);
  }

  lemma AfterIsOk(d: Db, v: Id, s: Id)
    requires InState(d.run, s, RowPassed)
    ensures WorkerOk(d, AfterPivot(v, s))
  {
  }

  /** A scope in flight or still open has not passed a pivot, and none of these is cancelled. */
  lemma {:induction false} NotYet(c: Db, s: Id)
    requires ScopeOk(c, s) && s in c.run.rows
    ensures !PastPivot(c.run.rows[s].state) ==> !StoryOf(c.run.log, s).passed
    ensures c.run.rows[s].state == RowPassed ==> StoryOf(c.run.log, s).passed
    ensures !Undone(c.run.rows[s].state) ==> !StoryOf(c.run.log, s).cancelled && !StoryOf(c.run.log, s).completed
  {
  }

  lemma {:induction false} PassScope(c: Db, d: Db, v: Id, s: Id, r: Id)
    requires ScopeOk(c, r) && InState(c.run, s, RowInflight) && d.run.rows == SetState(c.run.rows, s, RowPassed)
    requires d.brackets == c.brackets && d.members == c.members
    requires StoryOf(d.run.log, r) == Tell(StoryOf(c.run.log, r), PivotPassed(v, s), r)
    ensures ScopeOk(d, r)
  {
    hide StoryOf;
  }

  lemma PassWorker(c: Db, d: Db, v: Id, s: Id, q: At)
    requires WorkerOk(c, q) && Inv(d.run) && Extends(c, d) && d.brackets == c.brackets && d.inverses == c.inverses
      && d.run.absent == c.run.absent
    requires InState(c.run, s, RowInflight) && d.run.rows == SetState(c.run.rows, s, RowPassed) && !Holds(q, s)
    requires forall r :: StoryOf(d.run.log, r) == Tell(StoryOf(c.run.log, r), PivotPassed(v, s), r)
    ensures WorkerOk(d, q)
  {
    hide Inv, StoryOf;
    if q.Calling? {
      InvCreatedOnce(d.run);
      CreatedStays(c.run.log, d.run.log, q.v);
    }
  }

  lemma AbsentKeeps(c: Db, w: Worker, d: Db)
    requires Safe(c) && DisprovesPivot(c, w, d) && Inv(d.run)
    ensures Safe(d)
  {
    hide Inv, FitsAt, ScopeOk, WorkerOk, OneCarrier, Safe, MembersDone, StoryOf;
    var p := Stands(c, w);
    SafeParts(c);
    MembersSame(c, d);
    NoOtherHolds(c, w, p.s);
    forall r ensures ScopeOk(d, r) {
      SafeScope(c, r);
      ReopenScope(c, d, p.s, r);
    }
    forall x | x in d.at ensures WorkerOk(d, d.at[x]) {
      if x != w { ReopenWorker(c, d, w, x); } else { DisprovedIsOk(d, p.v, p.s); }
    }
    CarriersKept(c, d, w, Disproved(p.v, p.s));
    assert d.run.log[..|c.run.log|] == c.run.log;
    forall k | 0 <= k < |d.run.log| ensures FitsAt(d, k) { OldFits(c, d, k); }
    Assemble(d);
  }

  lemma DisprovedIsOk(d: Db, v: Id, s: Id)
    requires s in d.run.absent && d.run.absent[s] == v
    ensures WorkerOk(d, Disproved(v, s))
  {
  }

  lemma ReopenScope(c: Db, d: Db, s: Id, r: Id)
    requires ScopeOk(c, r) && d.run.log == c.run.log && d.brackets == c.brackets && d.members == c.members
    requires InState(c.run, s, RowInflight) && InState(d.run, s, RowOpen) && forall q :: q != s ==>
      RowOf(d.run.rows, q) == RowOf(c.run.rows, q)
    ensures ScopeOk(d, r)
  {
    hide StoryOf;
    if r != s { assert RowOf(d.run.rows, r) == RowOf(c.run.rows, r); }
  }

  lemma ReopenWorker(c: Db, d: Db, w: Worker, x: Worker)
    requires Safe(c) && w in c.at && c.at[w].PivotOut? && x in c.at && x != w && !Holds(c.at[x], c.at[w].s)
    requires d.run.log == c.run.log && d.brackets == c.brackets && d.inverses == c.inverses
    requires d.run.absent == c.run.absent[c.at[w].s := c.at[w].v]
    requires d.run.rows.Keys == c.run.rows.Keys && forall q :: q in c.run.rows && q != c.at[w].s ==>
      d.run.rows[q] == c.run.rows[q]
    ensures WorkerOk(d, c.at[x])
  {
    hide Inv, StoryOf, Safe;
    SafeParts(c);
    SafeWorker(c, x);
    SafeWorker(c, w);
    assert Carries(c.at[x]).Some? ==> Carries(c.at[x]) != Carries(c.at[w]);
  }

  lemma UnknownKeeps(c: Db, w: Worker, d: Db)
    requires Safe(c) && LosesPivot(c, w, d) && Inv(d.run)
    ensures Safe(d)
  {
    hide Inv, FitsAt, ScopeOk, WorkerOk, OneCarrier, Safe, MembersDone;
    var p := Stands(c, w);
    var bodies := [Failed(p.v, Some(p.s), false), ScopeState(p.s, DeclaredSuspended)];
    SafeParts(c);
    SafeWorker(c, w);
    MembersSame(c, d);
    OutIsInflight(c, p);
    NoOtherHolds(c, w, p.s);
    forall r ensures StoryOf(d.run.log, r) == StoryOf(c.run.log, r) { StoryOfFailure(c.run.log, d.run.log, bodies, r); }
    forall r ensures ScopeOk(d, r) {
      SafeScope(c, r);
      DeclareScope(c, d, p.s, RowSuspended, r);
    }
    forall x | x in c.at && x != w ensures WorkerOk(d, c.at[x]) {
      SafeWorker(c, x);
      ClosingWorker(c, d, p.s, c.at[x]);
    }
    CarriersKept(c, d, w, Idle);
    IdleIsOk(d);
    WriteKeeps(c, d, w, Idle, bodies);
  }

  lemma OutIsInflight(c: Db, p: At)
    requires p.PivotOut? && WorkerOk(c, p)
    ensures InState(c.run, p.s, RowInflight)
    ensures Upsert(FenceOn(c.run.rows, Some(p.s)), p.s, RowSuspended) == Upsert(c.run.rows, p.s, RowSuspended)
  {
  }

  lemma {:induction false} StoryOfFailure(log: Log, next: Log, bodies: seq<Body>, s: Id)
    requires |bodies| == 2 && bodies[0].Failed? && bodies[1].ScopeState? && Appended(log, next, bodies)
    ensures StoryOf(next, s) == StoryOf(log, s)
  {
    StoryAppended(log, next, bodies, s);
    assert bodies[..1] == [bodies[0]] && bodies[..1][..0] == [];
    assert TellAll(StoryOf(log, s), bodies[..1], s) == StoryOf(log, s);
  }

  /* ---------------------------------------------------------------- confirming */

  lemma ConfirmKeeps(c: Db, w: Worker, d: Db)
    requires Safe(c) && ConfirmsOne(c, w, d) && Inv(d.run)
    ensures Safe(d)
  {
    hide Inv, FitsAt, ScopeOk, WorkerOk, OneCarrier, Safe, MembersDone;
    var p := Stands(c, w);
    var key := p.left[0];
    var to := Confirming(p.v, p.s, p.left[1..]);
    var bodies := [Confirm(c.brackets[key].vertex, p.s, key)];
    SafeParts(c);
    SafeWorker(c, w);
    MembersSame(c, d);
    ConfirmingIsPassed(c, p);
    forall r ensures StoryOf(d.run.log, r) == Tell(StoryOf(c.run.log, r), bodies[0], r) {
      StoryAppended(c.run.log, d.run.log, bodies, r);
    }
    forall r ensures ScopeOk(d, r) {
      SafeScope(c, r);
      ConfirmScope(c, d, key, r);
    }
    forall x | x in c.at && x != w ensures WorkerOk(d, c.at[x]) {
      SafeWorker(c, x);
      ConfirmWorker(c, d, key, c.at[x]);
    }
    NextToConfirm(c, d, p);
    CarriersKept(c, d, w, to);
    SafeScope(c, p.s);
    NotYet(c, p.s);
    WriteKeeps(c, d, w, to, bodies);
  }

  lemma ConfirmingIsPassed(c: Db, p: At)
    requires p.Confirming? && WorkerOk(c, p)
    ensures InState(c.run, p.s, RowPassed)
  {
  }

  lemma NextToConfirm(c: Db, d: Db, p: At)
    requires p.Confirming? && p.left != [] && WorkerOk(c, p) && p.left[0] in c.brackets
      && c.brackets[p.left[0]].scope == p.s
    requires d.run.rows == c.run.rows
      && d.brackets == c.brackets[p.left[0] := c.brackets[p.left[0]].(state := Confirmed)]
    requires StoryOf(d.run.log, p.s) == Tell(StoryOf(c.run.log, p.s),
      Confirm(c.brackets[p.left[0]].vertex, p.s, p.left[0]), p.s)
    ensures WorkerOk(d, Confirming(p.v, p.s, p.left[1..]))
  {
    hide StoryOf;
    assert p.left == [p.left[0]] + p.left[1..];
  }

  lemma {:induction false} ConfirmScope(c: Db, d: Db, key: Id, r: Id)
    requires ScopeOk(c, r) && key in c.brackets && d.run.rows == c.run.rows && d.members == c.members
      && InState(c.run, c.brackets[key].scope, RowPassed)
    requires d.brackets == c.brackets[key := c.brackets[key].(state := Confirmed)]
    requires StoryOf(d.run.log, r) == Tell(StoryOf(c.run.log, r),
      Confirm(c.brackets[key].vertex, c.brackets[key].scope, key), r)
    ensures ScopeOk(d, r)
  {
    hide StoryOf;
  }

  lemma ConfirmWorker(c: Db, d: Db, key: Id, q: At)
    requires WorkerOk(c, q) && key in c.brackets && Inv(d.run) && Extends(c, d)
    requires d.run.rows == c.run.rows && d.run.absent == c.run.absent && d.inverses == c.inverses
    requires d.brackets == c.brackets[key := c.brackets[key].(state := Confirmed)]
    requires forall r :: StoryOf(d.run.log, r) == Tell(StoryOf(c.run.log, r),
      Confirm(c.brackets[key].vertex, c.brackets[key].scope, key), r)
    ensures WorkerOk(d, q)
  {
    hide Inv, StoryOf;
    if q.Calling? {
      InvCreatedOnce(d.run);
      CreatedStays(c.run.log, d.run.log, q.v);
    }
  }

  lemma CommitKeeps(c: Db, w: Worker, d: Db)
    requires Safe(c) && CommitsScope(c, w, d) && Inv(d.run)
    ensures Safe(d)
  {
    hide Inv, FitsAt, ScopeOk, WorkerOk, OneCarrier, Safe, MembersDone, StoryOf, Fits;
    var p := Stands(c, w);
    SafeParts(c);
    SafeWorker(c, w);
    ConfirmingIsPassed(c, p);
    NoOtherHolds(c, w, p.s);
    AllConfirmed(c, p);
    DeclareKeeps(c, d, w, p.s, DeclaredCommitted, RowCommitted);
  }

  lemma AllConfirmed(c: Db, p: At)
    requires p.Confirming? && p.left == [] && WorkerOk(c, p)
    ensures Fits(c, StoryOf(c.run.log, p.s), ScopeState(p.s, DeclaredCommitted))
  {
    hide StoryOf;
  }

  lemma ConfirmFailsKeeps(c: Db, w: Worker, d: Db)
    requires Safe(c) && FailsConfirm(c, w, d) && Inv(d.run)
    ensures Safe(d)
  {
    hide Inv, FitsAt, ScopeOk, WorkerOk, OneCarrier, Safe, MembersDone, StoryOf, Fits;
    var p := Stands(c, w);
    SafeParts(c);
    SafeWorker(c, w);
    ConfirmingIsPassed(c, p);
    NoOtherHolds(c, w, p.s);
    DeclareKeeps(c, d, w, p.s, DeclaredSuspended, RowSuspended);
  }

  /* ---------------------------------------------------------------- cancelling */

  lemma SuspendKeeps(c: Db, w: Worker, s: Id, d: Db)
    requires Safe(c) && SuspendsScope(c, w, s, d) && Inv(d.run)
    ensures Safe(d)
  {
    hide Inv, FitsAt, ScopeOk, WorkerOk, OneCarrier, Safe, MembersDone, StoryOf, Fits, Holds;
    NobodyHolds(c, s);
    DeclareKeeps(c, d, w, s, DeclaredSuspended, RowSuspended);
  }

  lemma InverseFailsKeeps(c: Db, w: Worker, d: Db)
    requires Safe(c) && FailsInverse(c, w, d) && Inv(d.run)
    ensures Safe(d)
  {
    hide Inv, FitsAt, ScopeOk, WorkerOk, OneCarrier, Safe, MembersDone, StoryOf, Fits, Holds;
    var p := Stands(c, w);
    SafeWorker(c, w);
    InvertingIsUndone(c, p);
    NobodyHolds(c, p.s);
    DeclareKeeps(c, d, w, p.s, DeclaredSuspended, RowSuspended);
  }

  lemma InvertingIsUndone(c: Db, p: At)
    requires p.Inverting? && WorkerOk(c, p)
    ensures p.s in c.run.rows && Undone(c.run.rows[p.s].state)
  {
  }

  lemma BeginCancelKeeps(c: Db, w: Worker, s: Id, d: Db)
    requires Safe(c) && BeginsCancel(c, w, s, d) && Inv(d.run)
    ensures Safe(d)
  {
    hide Inv, Safe, NewMembers;
    BegunKeeps(c, d, w, s);
  }

  lemma BegunKeeps(c: Db, d: Db, w: Worker, s: Id)
    requires Safe(c) && Inv(d.run) && InState(c.run, s, RowOpen)
      && Writes(c, d, [Cancel(s, false)], SetState(c.run.rows, s, RowCancelling))
    requires d.brackets == c.brackets && d.members == NewMembers(c.brackets, s) + c.members
      && d.inverses == c.inverses && d.at == c.at[w := Undoing(s)]
    ensures Safe(d)
  {
    hide Inv, FitsAt, ScopeOk, WorkerOk, OneCarrier, Safe, MembersDone, Holds, NewMembers;
    var bodies := [Cancel(s, false)];
    SafeParts(c);
    NobodyHolds(c, s);
    SafeScope(c, s);
    NotYet(c, s);
    NewMembersOpen(c, d, s);
    forall r ensures StoryOf(d.run.log, r) == Tell(StoryOf(c.run.log, r), bodies[0], r) {
      StoryAppended(c.run.log, d.run.log, bodies, r);
    }
    forall r ensures ScopeOk(d, r) {
      SafeScope(c, r);
      BeginScope(c, d, s, r);
    }
    forall x | x in c.at && x != w ensures WorkerOk(d, c.at[x]) {
      SafeWorker(c, x);
      ClosingWorker(c, d, s, c.at[x]);
    }
    UndoingIsOk(d, s);
    CarriersKept(c, d, w, Undoing(s));
    WriteKeeps(c, d, w, Undoing(s), bodies);
  }

  lemma NewMembersOpen(c: Db, d: Db, s: Id)
    requires d.members == NewMembers(c.brackets, s) + c.members && d.inverses == c.inverses
    requires MembersDone(c)
    ensures MembersDone(d)
  {
  }

  lemma UndoingIsOk(d: Db, s: Id)
    requires StateIs(d, s, Undone)
    ensures WorkerOk(d, Undoing(s))
  {
  }

  /** Every try of an open scope is still sealed, so every one with an inverse becomes a member. */
  lemma {:induction false} BeginScope(c: Db, d: Db, s: Id, r: Id)
    requires ScopeOk(c, r) && InState(c.run, s, RowOpen) && d.run.rows == SetState(c.run.rows, s, RowCancelling)
    requires d.brackets == c.brackets && d.members == NewMembers(c.brackets, s) + c.members
    requires StoryOf(d.run.log, r) == Tell(StoryOf(c.run.log, r), Cancel(s, false), r)
    ensures ScopeOk(d, r)
  {
    hide StoryOf;
    if r == s {
      forall key | key in StoryOf(d.run.log, s).owed && d.brackets[key].invertible
        ensures (s, d.brackets[key].vertex) in d.members {
        assert ToInvert(c.brackets, s, key);
        assert (s, c.brackets[key].vertex) in NewMembers(c.brackets, s);
      }
    }
  }

  lemma FinishKeeps(c: Db, w: Worker, d: Db)
    requires Safe(c) && FinishesCancel(c, w, d) && Inv(d.run)
    ensures Safe(d)
  {
    hide Inv, FitsAt, ScopeOk, WorkerOk, OneCarrier, Safe, MembersDone, Fits, Release, AllDone;
    var s := Stands(c, w).s;
    var bodies := [Cancel(s, true)];
    SafeParts(c);
    SafeScope(c, s);
    MembersSame(c, d);
    FinishFits(c, d, s);
    forall r ensures StoryOf(d.run.log, r) == Tell(StoryOf(c.run.log, r), bodies[0], r) {
      StoryAppended(c.run.log, d.run.log, bodies, r);
    }
    forall r ensures ScopeOk(d, r) {
      SafeScope(c, r);
      FinishScope(c, d, s, r);
    }
    ReleaseExtends(c, d, s);
    forall x | x in c.at && x != w ensures WorkerOk(d, c.at[x]) {
      SafeWorker(c, x);
      FinishWorker(c, d, s, c.at[x]);
    }
    CarriersKept(c, d, w, Idle);
    IdleIsOk(d);
    WriteKeeps(c, d, w, Idle, bodies);
  }

  lemma ReleaseExtends(c: Db, d: Db, s: Id)
    requires |c.run.log| <= |d.run.log| && d.run.log[..|c.run.log|] == c.run.log && c.inverses <= d.inverses
      && d.brackets == Release(c.brackets, s)
    ensures Extends(c, d)
  {
  }

  lemma {:induction false} FinishFits(c: Db, d: Db, s: Id)
    requires ScopeOk(c, s) && InState(c.run, s, RowCancelling) && AllDone(c, s)
      && d.brackets == Release(c.brackets, s) && d.inverses == c.inverses
    requires MembersDone(c)
    ensures Fits(d, StoryOf(c.run.log, s), Cancel(s, true))
  {
    hide StoryOf;
  }

  lemma {:induction false} FinishScope(c: Db, d: Db, s: Id, r: Id)
    requires ScopeOk(c, r) && InState(c.run, s, RowCancelling) && d.run.rows == SetState(c.run.rows, s, RowCancelled)
    requires d.brackets == Release(c.brackets, s) && d.members == c.members
    requires StoryOf(d.run.log, r) == Tell(StoryOf(c.run.log, r), Cancel(s, true), r)
    ensures ScopeOk(d, r)
  {
    hide StoryOf;
  }

  lemma FinishWorker(c: Db, d: Db, s: Id, q: At)
    requires WorkerOk(c, q) && Inv(d.run) && Extends(c, d) && d.inverses == c.inverses && d.run.absent == c.run.absent
    requires InState(c.run, s, RowCancelling) && d.run.rows == SetState(c.run.rows, s, RowCancelled)
      && d.brackets == Release(c.brackets, s)
    requires forall r :: StoryOf(d.run.log, r) == Tell(StoryOf(c.run.log, r), Cancel(s, true), r)
    ensures WorkerOk(d, q)
  {
    hide Inv, StoryOf;
    if q.Calling? {
      InvCreatedOnce(d.run);
      CreatedStays(c.run.log, d.run.log, q.v);
    }
  }

  /* ---------------------------------------------------------------- every execution */

  lemma MoveKeepsInv(policy: Policy, price: Pricing, c: Db, move: Move, d: Db)
    requires Safe(c) && Acts(policy, price, c, move, d)
    ensures Inv(d.run)
  {
    hide Safe, Acts, Inv, Abstract, Takes;
    SafeParts(c);
    MoveRefinesStep(policy, price, c, move, d);
    if Abstract(c, move).Some? { StepInv(policy, price, c.run, Abstract(c, move).value, d.run); }
  }

  lemma MoveKeepsSafe(policy: Policy, price: Pricing, c: Db, move: Move, d: Db)
    requires Safe(c) && Acts(policy, price, c, move, d)
    ensures Safe(d)
  {
    hide Safe, Inv, Takes, Opens, StartsCall, SealsCall, FinishesCall, FailsCall, AdmitsPivot, PassesPivot,
      DisprovesPivot, LosesPivot, ReportsAbsent, ReadsSealed, ConfirmsOne, FailsConfirm, CommitsScope, BeginsCancel,
      SuspendsScope, ResumesCancel, ClaimsMember, SucceedsInverse, FailsInverse, CompletesMember, FinishesCancel,
      Stops;
    MoveKeepsInv(policy, price, c, move, d);
    match move
    case Engine(step) => EngineKeeps(policy, price, c, step, d);
    case Ensure(s) => EnsureKeeps(c, s, d);
    case StartCall(w, v, s, key, confirmable, invertible) => StartCallKeeps(c, w, v, s, key, confirmable, invertible,
      d);
    case SealCall(w) => SealKeeps(c, w, d);
    case FinishCall(w) => FinishCallKeeps(c, w, d);
    case FailCall(w) => FailCallKeeps(c, w, d);
    case Admit(w, v, s) => AdmitKeeps(c, w, v, s, d);
    case PivotSucceeds(w) => PassKeeps(c, w, d);
    case PivotAbsent(w) => AbsentKeeps(c, w, d);
    case PivotUnknown(w) => UnknownKeeps(c, w, d);
    case ReportAbsent(w) => ReportAbsentKeeps(c, w, d);
    case ReadSealed(w, keys) => ReadSealedKeeps(c, w, keys, d);
    case ConfirmOne(w) => ConfirmKeeps(c, w, d);
    case ConfirmFails(w) => ConfirmFailsKeeps(c, w, d);
    case CommitScope(w) => CommitKeeps(c, w, d);
    case BeginCancel(w, s) => BeginCancelKeeps(c, w, s, d);
    case FinishCancel(w) => FinishKeeps(c, w, d);
    case SuspendInstead(w, s) => SuspendKeeps(c, w, s, d);
    case InverseFails(w) => InverseFailsKeeps(c, w, d);
    case _ => MemberKeeps(c, move, d);
  }

  lemma EmptyIsSafe()
    ensures Safe(Empty)
  {
    StartInv();
    hide Inv;
  }

  lemma {:induction false} ExecutionSafe(policy: Policy, price: Pricing, states: seq<Db>, moves: seq<Move>, k: nat)
    requires IsExecution(policy, price, states, moves) && k < |states|
    ensures Safe(states[k])
  {
    hide Acts, Safe;
    if k == 0 {
      EmptyIsSafe();
    } else {
      ExecutionSafe(policy, price, states, moves, k - 1);
      MoveKeepsSafe(policy, price, states[k - 1], moves[k - 1], states[k]);
    }
  }

  /** Refinement: whatever an execution of the Coordinator shows, some run of the protocol shows. */
  lemma {:induction false} ExecutionIsRun(policy: Policy, price: Pricing, states: seq<Db>, moves: seq<Move>, k: nat)
      returns (run: seq<Run>, steps: seq<Step>)
    requires IsExecution(policy, price, states, moves) && k < |states|
    ensures IsRun(policy, price, run, steps) && |run| > 0 && run[|run| - 1] == states[k].run
  {
    hide Acts, Safe, Takes;
    if k == 0 {
      run, steps := [Start], [];
    } else {
      run, steps := ExecutionIsRun(policy, price, states, moves, k - 1);
      ExecutionSafe(policy, price, states, moves, k - 1);
      var c, move, d := states[k - 1], moves[k - 1], states[k];
      MoveRefinesStep(policy, price, c, move, d);
      if Abstract(c, move).Some? {
        run, steps := run + [d.run], steps + [Abstract(c, move).value];
      }
    }
  }

  /* ---------------------------------------------------------------- the theorems */

  /** The engine's own oracle holds of every log the two services write together. */
  lemma ExecutionCancelsBeforeReplan(policy: Policy, price: Pricing, states: seq<Db>, moves: seq<Move>, k: nat)
    requires IsExecution(policy, price, states, moves) && k < |states|
    ensures CancelBeforeReplan(states[k].run.log) && AskedOnce(states[k].run.log)
  {
    var run, steps := ExecutionIsRun(policy, price, states, moves, k);
    CancelBeforeReplanAlways(policy, price, run, steps, |run| - 1);
    RequestDisciplineExactly(policy, price, run, steps, |run| - 1);
  }

  lemma {:induction false} ToldPassed(log: Log, s: Id)
    ensures StoryOf(log, s).passed <==> exists i :: 0 <= i < |log| && log[i].body.PivotPassed? && log[i].body.txn == s
  {
    if log != [] {
      var n := |log| - 1;
      ToldPassed(log[..n], s);
      if i :| 0 <= i < |log| && log[i].body.PivotPassed? && log[i].body.txn == s {
        if i < n { assert log[..n][i] == log[i]; }
      }
      if StoryOf(log[..n], s).passed {
        var i :| 0 <= i < n && log[..n][i].body.PivotPassed? && log[..n][i].body.txn == s;
        assert log[i].body.PivotPassed? && log[i].body.txn == s;
      }
    }
  }

  lemma {:induction false} ToldCompleted(log: Log, s: Id, i: nat)
    requires i < |log| && log[i].body == Cancel(s, true)
    ensures StoryOf(log, s).completed
  {
    var n := |log| - 1;
    if i < n { ToldCompleted(log[..n], s, i); }
  }

  lemma {:induction false} ToldTry(log: Log, s: Id, i: nat)
    requires i < |log| && log[i].body.Try? && log[i].body.txn == s
    ensures log[i].body.key in StoryOf(log, s).tries
  {
    var n := |log| - 1;
    if i < n { ToldTry(log[..n], s, i); }
  }

  lemma {:induction false} ToldDue(log: Log, s: Id, i: nat, j: nat)
    requires i < j < |log| && log[i].body.Try? && log[i].body.txn == s && log[j].body.PivotPassed?
      && log[j].body.txn == s
    ensures log[i].body.key in StoryOf(log, s).due
  {
    var n := |log| - 1;
    if j < n {
      ToldDue(log[..n], s, i, j);
      StoryNested(log[..n], s);
    } else {
      ToldTry(log[..n], s, i);
    }
  }

  lemma {:induction false} ToldOwed(log: Log, s: Id, i: nat, j: nat)
    requires i < j < |log| && log[i].body.Try? && log[i].body.txn == s && log[j].body == Cancel(s, false)
    ensures log[i].body.key in StoryOf(log, s).owed
  {
    var n := |log| - 1;
    if j < n {
      ToldOwed(log[..n], s, i, j);
      StoryNested(log[..n], s);
    } else {
      ToldTry(log[..n], s, i);
    }
  }

  lemma {:induction false} ToldConfirmed(log: Log, s: Id, key: Id) returns (m: nat)
    requires key in StoryOf(log, s).confirmed
    ensures m < |log| && log[m].body.Confirm? && log[m].body.txn == s && log[m].body.key == key
  {
    var n := |log| - 1;
    if log[n].body.Confirm? && log[n].body.txn == s && log[n].body.key == key {
      m := n;
    } else {
      m := ToldConfirmed(log[..n], s, key);
      assert log[..n][m] == log[m];
    }
  }

  /** Every log the Coordinator can write passes the trace checker. */
  lemma ExecutionIsClean(policy: Policy, price: Pricing, states: seq<Db>, moves: seq<Move>, k: nat)
    requires IsExecution(policy, price, states, moves) && k < |states|
    ensures Clean(Ordered(TraceOf(states[k].run.log)))
  {
    var c := states[k];
    var log := c.run.log;
    var t := TraceOf(log);
    hide Safe, StoryOf, IsExecution, Inv, FitsAt, Allowed, Ordered;
    ExecutionSafe(policy, price, states, moves, k);
    SafeParts(c);
    InvCreatedOnce(c.run);
    AscendingIsOrdered(t);
    forall j | 0 <= j < |t| ensures Allowed(t, j) {
      SafeFit(c, j);
      if ScopeColumn(log[j].body).Some? {
        FitIsAllowed(c, j, ScopeColumn(log[j].body).value);
      } else {
        UnscopedIsAllowed(log, j);
      }
    }
  }

  lemma UnscopedIsAllowed(log: Log, j: nat)
    requires j < |log| && ScopeColumn(log[j].body).None?
    ensures Allowed(TraceOf(log), j)
  {
  }

  lemma FitIsAllowed(c: Db, j: nat, s: Id)
    requires j < |c.run.log| && ScopeColumn(c.run.log[j].body) == Some(s) && FitsAt(c, j)
    ensures Allowed(TraceOf(c.run.log), j)
  {
    var log := c.run.log;
    var t := TraceOf(log);
    ToldPassed(log[..j], s);
    if Earlier(t, j, OfPivotPassed, Some(s)) {
      var i :| 0 <= i < j && t[i].kind == OfPivotPassed && t[i].scope == Some(s);
      assert log[..j][i].body.PivotPassed? && log[..j][i].body.txn == s;
    }
    if Earlier(t, j, OfCancel(true), Some(s)) {
      var i :| 0 <= i < j && t[i].kind == OfCancel(true) && t[i].scope == Some(s);
      ToldCompleted(log[..j], s, i);
    }
  }

  /**
   Committed means confirmed: in every execution, between a scope's pivot passing and the
   scope committing, every confirmable try sealed before the pivot was confirmed.
   */
  lemma CommittedIsConfirmed(policy: Policy, price: Pricing, states: seq<Db>, moves: seq<Move>, n: nat, i: nat, j: nat,
      k: nat, s: Id) returns (m: nat)
    requires IsExecution(policy, price, states, moves) && n < |states|
    requires i < j < k < |states[n].run.log|
    requires var log := states[n].run.log;
      log[i].body.Try? && log[i].body.txn == s && log[j].body.PivotPassed? && log[j].body.txn == s
        && log[k].body == ScopeState(s, DeclaredCommitted)
    requires var key := states[n].run.log[i].body.key; key in states[n].brackets && states[n].brackets[key].confirmable
    ensures j < m < k && states[n].run.log[m].body.Confirm? && states[n].run.log[m].body.txn == s
      && states[n].run.log[m].body.key == states[n].run.log[i].body.key
  {
    hide Safe, IsExecution;
    ExecutionSafe(policy, price, states, moves, n);
    m := SafeConfirms(states[n], i, j, k, s);
  }

  lemma SafeConfirms(c: Db, i: nat, j: nat, k: nat, s: Id) returns (m: nat)
    requires Safe(c) && i < j < k < |c.run.log|
    requires c.run.log[i].body.Try? && c.run.log[i].body.txn == s
    requires c.run.log[j].body.PivotPassed? && c.run.log[j].body.txn == s
    requires c.run.log[k].body == ScopeState(s, DeclaredCommitted)
    requires c.run.log[i].body.key in c.brackets && c.brackets[c.run.log[i].body.key].confirmable
    ensures j < m < k && c.run.log[m].body.Confirm? && c.run.log[m].body.txn == s
      && c.run.log[m].body.key == c.run.log[i].body.key
  {
    hide Safe, StoryOf, FitsAt;
    var log := c.run.log;
    SafeFit(c, k);
    ToldDue(log[..k], s, i, j);
    FitConfirmed(c, k, s, log[i].body.key);
    m := ToldConfirmed(log[..k], s, log[i].body.key);
    SafeFit(c, m);
    var p := FitPassed(c, m, s);
    OnePivot(c, p, j, s);
  }

  lemma {:induction false} FitConfirmed(c: Db, k: nat, s: Id, key: Id)
    requires k < |c.run.log| && FitsAt(c, k) && c.run.log[k].body == ScopeState(s, DeclaredCommitted)
    requires key in StoryOf(c.run.log[..k], s).due && key in c.brackets && c.brackets[key].confirmable
    ensures key in StoryOf(c.run.log[..k], s).confirmed
  {
    hide StoryOf;
  }

  lemma FitPassed(c: Db, m: nat, s: Id) returns (p: nat)
    requires m < |c.run.log| && FitsAt(c, m) && c.run.log[m].body.Confirm? && c.run.log[m].body.txn == s
    ensures p < m && c.run.log[p].body.PivotPassed? && c.run.log[p].body.txn == s
  {
    hide StoryOf;
    ToldPassed(c.run.log[..m], s);
    p :| 0 <= p < m && c.run.log[..m][p].body.PivotPassed? && c.run.log[..m][p].body.txn == s;
  }

  lemma OnePivot(c: Db, i: nat, j: nat, s: Id)
    requires Safe(c) && i < |c.run.log| && j < |c.run.log|
    requires c.run.log[i].body.PivotPassed? && c.run.log[i].body.txn == s && c.run.log[j].body.PivotPassed?
      && c.run.log[j].body.txn == s
    ensures i == j
  {
    hide Safe, FitsAt, StoryOf;
    SafeFit(c, i);
    SafeFit(c, j);
    if i < j { NoSecondPivot(c, i, j, s); }
    if j < i { NoSecondPivot(c, j, i, s); }
  }

  lemma NoSecondPivot(c: Db, i: nat, j: nat, s: Id)
    requires i < j < |c.run.log| && FitsAt(c, j) && c.run.log[j].body.PivotPassed? && c.run.log[j].body.txn == s
    ensures !(c.run.log[i].body.PivotPassed? && c.run.log[i].body.txn == s)
  {
    hide StoryOf;
    var before := c.run.log[..j];
    assert before[i] == c.run.log[i];
    ToldPassed(before, s);
  }

  /** Cancelled means undone: every try with an inverse, sealed before the request, had that inverse succeed. */
  lemma CancelledIsUndone(policy: Policy, price: Pricing, states: seq<Db>, moves: seq<Move>, n: nat, i: nat, j: nat,
      k: nat, s: Id)
    requires IsExecution(policy, price, states, moves) && n < |states|
    requires i < j < k < |states[n].run.log|
    requires var log := states[n].run.log;
      log[i].body.Try? && log[i].body.txn == s && log[j].body == Cancel(s, false) && log[k].body == Cancel(s, true)
    requires var key := states[n].run.log[i].body.key; key in states[n].brackets && states[n].brackets[key].invertible
    ensures (s, states[n].brackets[states[n].run.log[i].body.key].vertex) in states[n].inverses
  {
    hide Safe, StoryOf, IsExecution;
    var c := states[n];
    ExecutionSafe(policy, price, states, moves, n);
    SafeFit(c, k);
    ToldOwed(c.run.log[..k], s, i, j);
  }
}
