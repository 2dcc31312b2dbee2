/**
 The recovery ladder's reading of the log: each transaction scope's phase.

 The fold is stated per scope, so that a claim about one scope is a claim about one
 recursive function; `ScopeCancellations` is the loop that computes all of them.
 */
module ScopePhases {
  import opened EventLog

  datatype Phase =
    | Unmaterialized
    | Open
    | Fenced
    | Asked        // cancel-requested
    | Cancelling
    | Cancelled
    | Suspended
    | Inflight     // pivot-inflight
    | Passed       // pivot-passed
    | Committed

  datatype ScopeInfo = ScopeInfo(
    phase: Phase,
    members: set<Id>,
    firstMember: nat,
    fencedBy: Option<Id>,
    requestSeq: Option<nat>,
    requestedFor: Option<Id>,
    cancelledSeq: Option<nat>,
    suspendedSeq: Option<nat>)

  /** Phases a replan can have cancelled, or is having cancelled. */
  predicate Cancellable(p: Phase) { p == Open || p == Fenced || p == Asked || p == Cancelling }

  /** Phases no cancellation can close. */
  predicate Unrecoverable(p: Phase) { p == Suspended || p == Inflight || p == Passed }

  /** Phases that refuse every freeze in the run until they settle. */
  predicate Transient(p: Phase) { p == Fenced || p == Asked || p == Cancelling || p == Inflight || p == Passed }

  /** The scopes whose entry an event creates or updates. */
  function Touches(b: Body): (ids: set<Id>) {
    if b.CancelRequested? then b.requested
    else match ScopeColumn(b)
      case Some(s) => {s}
      case None => {}
  }

  function Fresh(runSeq: nat): (i: ScopeInfo) {
    ScopeInfo(Unmaterialized, {}, runSeq, None, None, None, None, None)
  }

  function Materialize(i: ScopeInfo): (r: ScopeInfo) {
    if i.phase == Unmaterialized then i.(phase := Open) else i
  }

  /** One scope's entry after an event that touches it. */
  function Apply(prev: Option<ScopeInfo>, e: Event): (r: ScopeInfo) {
    var i := if prev.Some? then prev.value else Fresh(e.runSeq);
    match e.body
    case CancelRequested(cause, _) =>
      i.(phase := if i.phase == Open || i.phase == Fenced then Asked
        else i.phase, requestSeq := Some(e.runSeq), requestedFor := Some(cause))
    case Created(v, _, _, _) =>
      i.(members := i.members + {v}, firstMember := if e.runSeq < i.firstMember then e.runSeq else i.firstMember)
    case ScopeState(_, DeclaredOpen) => Materialize(i)
    case ScopeState(_, DeclaredSuspended) => i.(phase := Suspended, suspendedSeq := Some(e.runSeq))
    case ScopeState(_, DeclaredCommitted) => i.(phase := Committed)
    case ScopeState(_, DeclaredCancelled) => i.(phase := Cancelled, cancelledSeq := Some(e.runSeq))
    case Try(_, _, _) => Materialize(i)
    case Started(_, _, pivot) => if pivot then i.(phase := Inflight) else i
    case PivotPassed(_, _) => i.(phase := Passed)
    case Failed(v, _, absent) =>
      if i.phase == Open || (i.phase == Inflight && absent) then i.(phase := Fenced, fencedBy := Some(v)) else i
    case Cancel(_, completed) =>
      if completed then i.(phase := Cancelled, cancelledSeq := Some(e.runSeq)) else i.(phase := Cancelling)
    case _ => i
  }

  function Scope(log: Log, s: Id): (r: Option<ScopeInfo>) {
    if log == [] then None
    else
      var prev := Scope(log[..|log| - 1], s);
      var last := log[|log| - 1];
      if s in Touches(last.body) then Some(Apply(prev, last)) else prev
  }

  function PhaseOf(log: Log, s: Id): (p: Phase) {
    match Scope(log, s)
    case Some(i) => i.phase
    case None => Unmaterialized
  }

  function MembersOf(log: Log, s: Id): (m: set<Id>) {
    match Scope(log, s)
    case Some(i) => i.members
    case None => {}
  }

  /** Every scope the log mentions. */
  function ScopeIds(log: Log): (ids: set<Id>) {
    if log == [] then {} else ScopeIds(log[..|log| - 1]) + Touches(log[|log| - 1].body)
  }

  lemma {:induction false} ScopeAppend(log: Log, e: Event, s: Id)
    ensures Scope(log + [e], s) == if s in Touches(e.body) then Some(Apply(Scope(log, s), e)) else Scope(log, s)
    ensures ScopeIds(log + [e]) == ScopeIds(log) + Touches(e.body)
  {
    assert (log + [e])[..|log|] == log;
  }

  lemma {:induction false} MentionedHasEntry(log: Log, s: Id)
    ensures s in ScopeIds(log) <==> Scope(log, s).Some?
  {
    if log != [] { MentionedHasEntry(log[..|log| - 1], s); }
  }

  /** A vertex is a member of exactly the scope its creation event names. */
  lemma MemberIffCreated(log: Log, s: Id, v: Id)
    ensures v in MembersOf(log, s)
        <==> exists i ::
          0 <= i < |log| && log[i].body.Created? && log[i].body.vertex == v && log[i].body.scope == Some(s)
  {
    if log != [] {
      var n := |log| - 1;
      MemberIffCreated(log[..n], s, v);
      if v in MembersOf(log[..n], s) {
        var i :| 0 <= i < n && log[..n][i].body.Created? && log[..n][i].body.vertex == v
          && log[..n][i].body.scope == Some(s);
        assert log[i].body.Created? && log[i].body.vertex == v && log[i].body.scope == Some(s);
      }
      if i :| 0 <= i < |log| && log[i].body.Created? && log[i].body.vertex == v && log[i].body.scope == Some(s) {
        if i < n { assert log[..n][i].body.Created?; }
      }
    }
  }

  method TouchAll(scopes: map<Id, ScopeInfo>, e: Event) returns (r: map<Id, ScopeInfo>)
    requires e.body.CancelRequested?
    ensures r.Keys == scopes.Keys + e.body.requested
    ensures forall s :: s in r ==>
      r[s] == (if s in e.body.requested then Apply(if s in scopes then Some(scopes[s]) else None, e) else scopes[s])
  {
    r := scopes;
    var left := e.body.requested;
    while left != {}
      invariant left <= e.body.requested
      invariant r.Keys == scopes.Keys + (e.body.requested - left)
      invariant forall s :: s in r ==>
        r[s] == (if s in e.body.requested - left then Apply(if s in scopes then Some(scopes[s]) else None, e)
          else scopes[s])
      decreases left
    {
      var s :| s in left;
      r := r[s := Apply(if s in r then Some(r[s]) else None, e)];
      left := left - {s};
    }
  }

  /** The fold over all scopes at once, as one pass over the log. */
  method ScopeCancellations(log: Log) returns (scopes: map<Id, ScopeInfo>)
    ensures scopes.Keys == ScopeIds(log)
    ensures forall s :: s in scopes ==> Scope(log, s) == Some(scopes[s])
  {
    scopes := map[];
    for n := 0 to |log|
      invariant scopes.Keys == ScopeIds(log[..n])
      invariant forall s :: s in scopes ==> Scope(log[..n], s) == Some(scopes[s])
    {
      var e := log[n];
      assert log[..n + 1] == log[..n] + [e];
      ghost var before := scopes;
      if e.body.CancelRequested? {
        scopes := TouchAll(scopes, e);
      } else if ScopeColumn(e.body).Some? {
        var s := ScopeColumn(e.body).value;
        scopes := scopes[s := Apply(if s in scopes then Some(scopes[s]) else None, e)];
      }
      forall s ensures Scope(log[..n + 1], s) == if s in scopes then Some(scopes[s]) else None {
        ScopeAppend(log[..n], e, s);
        MentionedHasEntry(log[..n], s);
      }
      ScopeAppend(log[..n], e, 0);
    }
    assert log[..|log|] == log;
  }
}
