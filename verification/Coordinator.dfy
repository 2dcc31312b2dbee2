/**
 The Transaction Coordinator: any number of workers over one run's database.

 A step is one store transaction, with the guard its SQL applies and no other, or the
 return of a tool call. Between transactions a worker is where its program left it, and it
 may stop there for good. Appending `txn/scope` sets the row's state whatever it was, and
 appending `txn/try` looks at no scope at all: that both only ever happen where they should
 is proved, not assumed.
 */
module Coordinator {
  import opened EventLog
  import opened ScopePhases
  import opened RecoveryLadder
  import opened RunProtocol

  type Worker = nat

  datatype BracketState = Sealed | Confirmed | Released

  /** A row of `txn_bracket`, keyed by idempotency key. */
  datatype Bracket = Bracket(scope: Id, vertex: Id, state: BracketState, confirmable: bool, invertible: bool)

  /** Where a worker's program stands between two transactions. */
  datatype At =
    | Idle
    | Calling(v: Id, s: Id, key: Id, confirmable: bool, invertible: bool)
    | PivotOut(v: Id, s: Id)
    | Disproved(v: Id, s: Id)
    | AfterPivot(v: Id, s: Id)
    | Confirming(v: Id, s: Id, left: seq<Id>)
    | Undoing(s: Id)
    | Inverting(s: Id, m: Id)
    | Inverted(s: Id, m: Id)

  /**
   `members` says of each cancel member whether it is completed; `inverses` holds those whose inverse call
   succeeded.
   */
  datatype Db = Db(run: Run, brackets: map<Id, Bracket>, members: map<(Id, Id), bool>, inverses: set<(Id, Id)>,
      at: map<Worker, At>)

  const Empty := Db(Start, map[], map[], {}, map[])

  function Stands(c: Db, w: Worker): (p: At) { if w in c.at then c.at[w] else Idle }

  datatype Move =
    | Engine(step: Step)                                                    // freeze, note, report, recovery
    | Ensure(s: Id)
    | StartCall(w: Worker, v: Id, s: Id, key: Id, confirmable: bool, invertible: bool)
    | SealCall(w: Worker)
    | FinishCall(w: Worker)
    | FailCall(w: Worker)
    | Admit(w: Worker, v: Id, s: Id)
    | PivotSucceeds(w: Worker)
    | PivotAbsent(w: Worker)
    | PivotUnknown(w: Worker)
    | ReportAbsent(w: Worker)
    | ReadSealed(w: Worker, keys: seq<Id>)
    | ConfirmOne(w: Worker)
    | ConfirmFails(w: Worker)
    | CommitScope(w: Worker)
    | BeginCancel(w: Worker, s: Id)
    | SuspendInstead(w: Worker, s: Id)
    | ResumeCancel(w: Worker, s: Id)
    | ClaimMember(w: Worker, m: Id)
    | InverseSucceeds(w: Worker)
    | InverseFails(w: Worker)
    | CompleteMember(w: Worker)
    | FinishCancel(w: Worker)
    | Stop(w: Worker)

  /** What the projection trigger does with a `txn/scope` event: it overwrites. */
  function Upsert(rows: map<Id, Row>, s: Id, state: RowState): (r: map<Id, Row>) {
    rows[s := if s in rows then rows[s].(state := state) else Row(state, false, false, None)]
  }

  /** The sealed brackets of a scope that some companion tool can still act on. */
  predicate ToConfirm(brackets: map<Id, Bracket>, s: Id, key: Id) {
    key in brackets && brackets[key].scope == s && brackets[key].state == Sealed && brackets[key].confirmable
  }

  predicate ToInvert(brackets: map<Id, Bracket>, s: Id, key: Id) {
    key in brackets && brackets[key].scope == s && brackets[key].state == Sealed && brackets[key].invertible
  }

  /** The members a cancellation request records: one for each try that has an inverse. */
  function NewMembers(brackets: map<Id, Bracket>, s: Id): (m: map<(Id, Id), bool>) {
    map key | key in brackets && ToInvert(brackets, s, key) :: (s, brackets[key].vertex) := false
  }

  function Release(brackets: map<Id, Bracket>, s: Id): (r: map<Id, Bracket>) {
    map key | key in brackets :: if brackets[key].scope == s && brackets[key].state == Sealed
      then brackets[key].(state := Released) else brackets[key]
  }

  ghost predicate AllDone(c: Db, s: Id) { forall m :: (s, m) in c.members ==> c.members[(s, m)] }

  /** Everything but the run, the brackets and one worker is as it was. */
  ghost predicate Leaves(c: Db, d: Db, w: Worker, to: At) {
    d.members == c.members && d.inverses == c.inverses && d.at == c.at[w := to]
  }

  ghost predicate Writes(c: Db, d: Db, bodies: seq<Body>, rows: map<Id, Row>) { Grew(c.run, d.run, bodies, rows) }

  /** The first touch of a scope opens its row. */
  ghost predicate Opens(c: Db, s: Id, d: Db) {
    s !in c.run.rows && Writes(c, d, [ScopeState(s, DeclaredOpen)], Upsert(c.run.rows, s, RowOpen))
      && d == c.(run := d.run)
  }

  ghost predicate StartsCall(c: Db, w: Worker, v: Id, s: Id, key: Id, confirmable: bool, invertible: bool, d: Db) {
    && Stands(c, w) == Idle && s in c.run.rows && CreatedOf(c.run.log, v).Some?
      && CreatedOf(c.run.log, v).value.scope == Some(s)
    && d == c.(at := c.at[w := Calling(v, s, key, confirmable, invertible)])
  }

  /** The try and its success are appended together; the bracket's key must be new, and the scope is not looked at. */
  ghost predicate SealsCall(c: Db, w: Worker, d: Db) {
    && Stands(c, w).Calling?
    && var p := Stands(c, w);
       && p.key !in c.brackets
       && Writes(c, d, [Try(p.v, p.s, p.key), Succeeded(p.v, Some(p.s))], c.run.rows)
       && d.brackets == c.brackets[p.key := Bracket(p.s, p.v, Sealed, p.confirmable, p.invertible)]
         && Leaves(c, d, w, Idle)
  }

  /** A call that reserves nothing only reports its success. */
  ghost predicate FinishesCall(c: Db, w: Worker, d: Db) {
    && Stands(c, w).Calling?
    && var p := Stands(c, w);
       Writes(c, d, [Succeeded(p.v, Some(p.s))], c.run.rows) && d.brackets == c.brackets && Leaves(c, d, w, Idle)
  }

  /** The failure is recorded, and fences the scope if it is still open. */
  ghost predicate FailsCall(c: Db, w: Worker, d: Db) {
    && Stands(c, w).Calling?
    && var p := Stands(c, w);
       Writes(c, d, [Failed(p.v, Some(p.s), false)], FenceOn(c.run.rows, Some(p.s))) && d.brackets == c.brackets
         && Leaves(c, d, w, Idle)
  }

  /** Only an open, unfenced scope admits a pivot. */
  ghost predicate AdmitsPivot(c: Db, w: Worker, v: Id, s: Id, d: Db) {
    && Stands(c, w) == Idle && InState(c.run, s, RowOpen) && !c.run.rows[s].fenced
    && CreatedOf(c.run.log, v).Some? && CreatedOf(c.run.log, v).value.scope == Some(s)
    && Writes(c, d, [Started(v, Some(s), true)],
      c.run.rows[s := c.run.rows[s].(state := RowInflight, pivot := Some(v))])
    && d.brackets == c.brackets && Leaves(c, d, w, PivotOut(v, s))
  }

  /** The pivot succeeded, or the status query found that it had. */
  ghost predicate PassesPivot(c: Db, w: Worker, d: Db) {
    && Stands(c, w).PivotOut?
    && var p := Stands(c, w);
       && InState(c.run, p.s, RowInflight) && c.run.rows[p.s].pivot == Some(p.v)
       && Writes(c, d, [PivotPassed(p.v, p.s), Succeeded(p.v, Some(p.s))], SetState(c.run.rows, p.s, RowPassed))
       && d.brackets == c.brackets && Leaves(c, d, w, AfterPivot(p.v, p.s))
  }

  /** The pivot is known not to have happened: the scope reopens fenced, in its own transaction. */
  ghost predicate DisprovesPivot(c: Db, w: Worker, d: Db) {
    && Stands(c, w).PivotOut?
    && var p := Stands(c, w);
       && InState(c.run, p.s, RowInflight) && c.run.rows[p.s].pivot == Some(p.v)
       && d.run == Run(c.run.log, c.run.rows[p.s := c.run.rows[p.s].(state := RowOpen, fenced := true, pivot := None)],
         c.run.absent[p.s := p.v])
       && d.brackets == c.brackets && Leaves(c, d, w, Disproved(p.v, p.s))
  }

  /** Nothing established what the pivot did: it failed, and the scope is suspended. */
  ghost predicate LosesPivot(c: Db, w: Worker, d: Db) {
    && Stands(c, w).PivotOut?
    && var p := Stands(c, w);
       && Writes(c, d, [Failed(p.v, Some(p.s), false), ScopeState(p.s, DeclaredSuspended)],
         Upsert(FenceOn(c.run.rows, Some(p.s)), p.s, RowSuspended))
       && d.brackets == c.brackets && Leaves(c, d, w, Idle)
  }

  /** The failure of a disproved pivot reaches the log. */
  ghost predicate ReportsAbsent(c: Db, w: Worker, d: Db) {
    && Stands(c, w).Disproved?
    && var p := Stands(c, w);
       && Appended(c.run.log, d.run.log, [Failed(p.v, Some(p.s), true)])
       && d.run.rows == FenceOn(c.run.rows, Some(p.s)) && d.run.absent == c.run.absent - {p.s}
       && d.brackets == c.brackets && Leaves(c, d, w, Idle)
  }

  /** What is to be confirmed is read once, after the pivot passed, each key once. */
  ghost predicate ReadsSealed(c: Db, w: Worker, keys: seq<Id>, d: Db) {
    && Stands(c, w).AfterPivot?
    && var p := Stands(c, w);
       && (forall k :: k in keys <==> ToConfirm(c.brackets, p.s, k))
       && (forall i, j :: 0 <= i < j < |keys| ==> keys[i] != keys[j])
       && d == c.(at := c.at[w := Confirming(p.v, p.s, keys)])
  }

  /** The next bracket's confirm succeeded. */
  ghost predicate ConfirmsOne(c: Db, w: Worker, d: Db) {
    && Stands(c, w).Confirming? && Stands(c, w).left != []
    && var p := Stands(c, w); var key := p.left[0];
       && key in c.brackets && c.brackets[key].scope == p.s && c.brackets[key].state == Sealed
       && Writes(c, d, [Confirm(c.brackets[key].vertex, p.s, key)], c.run.rows)
       && d.brackets == c.brackets[key := c.brackets[key].(state := Confirmed)]
         && Leaves(c, d, w, Confirming(p.v, p.s, p.left[1..]))
  }

  ghost predicate FailsConfirm(c: Db, w: Worker, d: Db) {
    && Stands(c, w).Confirming? && Stands(c, w).left != []
    && var s := Stands(c, w).s;
       Writes(c, d, [ScopeState(s, DeclaredSuspended)], Upsert(c.run.rows, s, RowSuspended))
         && d.brackets == c.brackets && Leaves(c, d, w, Idle)
  }

  /** Nothing is left to confirm. */
  ghost predicate CommitsScope(c: Db, w: Worker, d: Db) {
    && Stands(c, w).Confirming? && Stands(c, w).left == []
    && var s := Stands(c, w).s;
       Writes(c, d, [ScopeState(s, DeclaredCommitted)], Upsert(c.run.rows, s, RowCommitted))
         && d.brackets == c.brackets && Leaves(c, d, w, Idle)
  }

  /** A requested or expired scope begins to cancel, and its inverses are recorded as members. */
  ghost predicate BeginsCancel(c: Db, w: Worker, s: Id, d: Db) {
    && Stands(c, w) == Idle && InState(c.run, s, RowOpen)
    && (c.run.rows[s].requested || exists key ::
      key in c.brackets && c.brackets[key].scope == s && c.brackets[key].state == Sealed)
    && Writes(c, d, [Cancel(s, false)], SetState(c.run.rows, s, RowCancelling))
    && d.brackets == c.brackets && d.members == NewMembers(c.brackets, s) + c.members
    && d.inverses == c.inverses && d.at == c.at[w := Undoing(s)]
  }

  /** An unresolved attempt suspends the scope instead. */
  ghost predicate SuspendsScope(c: Db, w: Worker, s: Id, d: Db) {
    && Stands(c, w) == Idle && InState(c.run, s, RowOpen)
    && Writes(c, d, [ScopeState(s, DeclaredSuspended)], Upsert(c.run.rows, s, RowSuspended))
      && d.brackets == c.brackets && Leaves(c, d, w, Idle)
  }

  /** A sweep, or a duplicate request, resumes a cancellation. */
  ghost predicate ResumesCancel(c: Db, w: Worker, s: Id, d: Db) {
    && Stands(c, w) == Idle && (InState(c.run, s, RowCancelling) || InState(c.run, s, RowCancelled))
    && d == c.(at := c.at[w := Undoing(s)])
  }

  ghost predicate ClaimsMember(c: Db, w: Worker, m: Id, d: Db) {
    && Stands(c, w).Undoing?
    && var s := Stands(c, w).s; (s, m) in c.members && !c.members[(s, m)] && d == c.(at := c.at[w := Inverting(s, m)])
  }

  ghost predicate SucceedsInverse(c: Db, w: Worker, d: Db) {
    && Stands(c, w).Inverting?
    && var p := Stands(c, w); d == c.(inverses := c.inverses + {(p.s, p.m)}, at := c.at[w := Inverted(p.s, p.m)])
  }

  ghost predicate FailsInverse(c: Db, w: Worker, d: Db) {
    && Stands(c, w).Inverting?
    && var s := Stands(c, w).s;
       Writes(c, d, [ScopeState(s, DeclaredSuspended)], Upsert(c.run.rows, s, RowSuspended))
         && d.brackets == c.brackets && Leaves(c, d, w, Idle)
  }

  ghost predicate CompletesMember(c: Db, w: Worker, d: Db) {
    && Stands(c, w).Inverted?
    && var p := Stands(c, w);
      (p.s, p.m) in c.members && d == c.(members := c.members[(p.s, p.m) := true], at := c.at[w := Undoing(p.s)])
  }

  /** No member is left: the cancellation completes and the brackets are released. */
  ghost predicate FinishesCancel(c: Db, w: Worker, d: Db) {
    && Stands(c, w).Undoing?
    && var s := Stands(c, w).s;
       && AllDone(c, s) && InState(c.run, s, RowCancelling)
       && Writes(c, d, [Cancel(s, true)], SetState(c.run.rows, s, RowCancelled))
       && d.brackets == Release(c.brackets, s) && Leaves(c, d, w, Idle)
  }

  /** A worker may stop anywhere. */
  ghost predicate Stops(c: Db, w: Worker, d: Db) {
    d == c.(at := c.at[w := Idle])
  }

  ghost predicate Acts(policy: Policy, price: Pricing, c: Db, move: Move, d: Db) {
    match move
    case Engine(step) =>
      && (step.Freeze? || step.Note? || step.Report? || step.Recover?)
      && Takes(policy, price, c.run, step, d.run) && d == c.(run := d.run)
    case Ensure(s) => Opens(c, s, d)
    case StartCall(w, v, s, key, confirmable, invertible) => StartsCall(c, w, v, s, key, confirmable, invertible, d)
    case SealCall(w) => SealsCall(c, w, d)
    case FinishCall(w) => FinishesCall(c, w, d)
    case FailCall(w) => FailsCall(c, w, d)
    case Admit(w, v, s) => AdmitsPivot(c, w, v, s, d)
    case PivotSucceeds(w) => PassesPivot(c, w, d)
    case PivotAbsent(w) => DisprovesPivot(c, w, d)
    case PivotUnknown(w) => LosesPivot(c, w, d)
    case ReportAbsent(w) => ReportsAbsent(c, w, d)
    case ReadSealed(w, keys) => ReadsSealed(c, w, keys, d)
    case ConfirmOne(w) => ConfirmsOne(c, w, d)
    case ConfirmFails(w) => FailsConfirm(c, w, d)
    case CommitScope(w) => CommitsScope(c, w, d)
    case BeginCancel(w, s) => BeginsCancel(c, w, s, d)
    case SuspendInstead(w, s) => SuspendsScope(c, w, s, d)
    case ResumeCancel(w, s) => ResumesCancel(c, w, s, d)
    case ClaimMember(w, m) => ClaimsMember(c, w, m, d)
    case InverseSucceeds(w) => SucceedsInverse(c, w, d)
    case InverseFails(w) => FailsInverse(c, w, d)
    case CompleteMember(w) => CompletesMember(c, w, d)
    case FinishCancel(w) => FinishesCancel(c, w, d)
    case Stop(w) => Stops(c, w, d)
  }

  /** An execution: the states of the database, each reached from the one before by some move. */
  ghost predicate IsExecution(policy: Policy, price: Pricing, states: seq<Db>, moves: seq<Move>) {
    && |states| == |moves| + 1
    && states[0] == Empty
    && forall k :: 0 <= k < |moves| ==> Acts(policy, price, states[k], moves[k], states[k + 1])
  }

  /* ---------------------------------------------------------------- one tool call */

  datatype Outcome = CallSucceeded | CallRetryable | CallPermanent | CallUnknown

  /**
   The retry loop around one tool call. `respond(a)` is what attempt `a` answers; `retried`
   lists the attempt numbers announced with `vertex/retried`. A call ends at the first answer
   that is not retryable, or at the last attempt allowed, and never on an answer it did not get
   unless no attempt was allowed at all.
   */
  method ExecuteWithRetry(maxAttempts: int, respond: int -> Outcome)
      returns (outcome: Outcome, attempts: int, retried: seq<int>)
    ensures maxAttempts <= 0 ==> outcome == CallPermanent && attempts == maxAttempts && retried == []
    ensures maxAttempts > 0 ==> 1 <= attempts <= maxAttempts && outcome == respond(attempts)
    ensures forall a :: 1 <= a < attempts ==> respond(a) == CallRetryable
    ensures maxAttempts > 0 && outcome == CallRetryable ==> attempts == maxAttempts
    ensures maxAttempts > 0 ==> |retried| == attempts - 1 && forall i :: 0 <= i < |retried| ==> retried[i] == i + 2
  {
    retried := [];
    var attempt := 1;
    while attempt <= maxAttempts
      invariant 1 <= attempt && (maxAttempts > 0 ==> attempt <= maxAttempts) && (maxAttempts <= 0 ==> attempt == 1)
      invariant forall a :: 1 <= a < attempt ==> respond(a) == CallRetryable
      invariant |retried| == attempt - 1 && forall i :: 0 <= i < |retried| ==> retried[i] == i + 2
    {
      outcome, attempts := respond(attempt), attempt;
      if outcome != CallRetryable || attempt == maxAttempts { return; }
      retried := retried + [attempt + 1];
      attempt := attempt + 1;
    }
    outcome, attempts := CallPermanent, maxAttempts;
  }
}
