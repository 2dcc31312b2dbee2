/**
 The recovery ladder's decision: where to resume after a failure, what has to be
 cancelled first, and when to escalate.

 `SelectBoundary` is the decision as a function of the log, the policy and the locked
 scope rows; `Decide` computes it with the loops and walks the engine uses. Lists the
 engine sorts before writing are sets here, and the price of a candidate is left to
 a function the caller supplies.
 */
module RecoveryLadder {
  import opened EventLog
  import opened CausalGraph
  import opened ScopePhases

  /** The stored state of a scope row. */
  datatype RowState = RowOpen | RowInflight | RowPassed | RowCommitted | RowCancelling | RowCancelled | RowSuspended

  /** One of the run's scope rows, as it stands under the lock. */
  datatype LockedScope = LockedScope(state: RowState, fenced: bool, hasSealedTry: bool, hasExpiredTry: bool)

  type Locked = map<Id, LockedScope>

  datatype Policy = Policy(maxPerPlanner: nat, maxPerEpisode: nat, budget: Option<real>)

  /** What resuming at a planner is estimated to cost on a given log. */
  type Pricing = (Log, Id) -> real

  datatype Rejection = OpenBracket | BelowFloor | SavepointPrecedes | BudgetExceeded | CounterExhausted

  datatype Candidate =
    | Priced(planner: Id, succeededAt: nat, cost: real, requires_: set<Id>)
    | Rejected(planner: Id, succeededAt: nat, reason: Rejection)

  datatype Action = Record | Request | Wait
  datatype Level = L1 | L2 | L3 | L4

  datatype Decision = Decision(
    action: Action,
    level: Level,
    failed: Id,
    candidates: seq<Candidate>,
    selected: Option<Id>,
    intended: Option<Id>,
    shadowed: set<Id>,
    requestScopes: set<Id>,
    awaited: set<Id>,
    cancelled: set<Id>,
    episode: nat)

  /* ---------------------------------------------------------------- reading the log */

  /** `run_seq` of the latest passed pivot, below which no boundary may be selected. */
  function BacktrackFloor(log: Log): (floor: nat) {
    if log == [] then 0
    else
      var last := log[|log| - 1];
      var floor := BacktrackFloor(log[..|log| - 1]);
      if last.body.PivotPassed? && last.runSeq > floor then last.runSeq else floor
  }

  /** Who made the proposal recorded at a position; an author unless the log says otherwise. */
  function SourceAt(log: Log, runSeq: nat): (s: Source) {
    if log == [] then Submitted
    else
      var last := log[|log| - 1];
      if last.body.Proposed? && last.runSeq == runSeq then last.body.source else SourceAt(log[..|log| - 1], runSeq)
  }

  function AuthoredFrom(log: Log, n: nat, v: Id, current: Source): (byRule: bool)
    requires n <= |log|
    decreases |log| - n
  {
    if n == |log| then false
    else
      var b := log[n].body;
      var now := if b.Frozen? then SourceAt(log, b.proposedSeq) else current;
      if b.Created? && b.vertex == v then now == ByRouter else AuthoredFrom(log, n + 1, v, now)
  }

  /** Whether a rule, rather than a model, authored the work this vertex belongs to. */
  predicate RuleAuthored(log: Log, v: Id) {
    AuthoredFrom(log, 0, v, Submitted)
  }

  /** The vertices created right after a freeze, up to the first event that creates none. */
  function FrozenVertices(log: Log, n: nat): (ids: seq<Id>)
    requires n <= |log|
    decreases |log| - n
  {
    if n == |log| || !log[n].body.Created? then [] else [log[n].body.vertex] + FrozenVertices(log, n + 1)
  }

  /** A freeze that created work, all of which has succeeded. */
  predicate Resolved(log: Log, n: nat)
    requires n < |log|
  {
    && log[n].body.Frozen?
    && FrozenVertices(log, n + 1) != []
    && forall v :: v in FrozenVertices(log, n + 1) ==> SuccessSeq(log, v).Some?
  }

  function LastResolvedBefore(log: Log, n: nat): (runSeq: nat)
    requires n <= |log|
  {
    if n == 0 then 0 else if Resolved(log, n - 1) then log[n - 1].runSeq else LastResolvedBefore(log, n - 1)
  }

  function LastResolved(log: Log): (runSeq: nat) { LastResolvedBefore(log, |log|) }

  /** How many boundaries the log holds after a position. */
  function BoundariesAfter(log: Log, runSeq: nat): (n: nat) {
    if log == [] then 0
    else
      var last := log[|log| - 1];
      BoundariesAfter(log[..|log| - 1], runSeq) + if last.body.Boundary? && last.runSeq > runSeq then 1 else 0
  }

  /** Replans this failure episode has already used. */
  function Episode(log: Log): (n: nat) { BoundariesAfter(log, LastResolved(log)) }

  /** How many boundaries have selected one planner. */
  function TimesSelected(log: Log, p: Id): (n: nat) {
    if log == [] then 0
    else
      var last := log[|log| - 1].body;
      TimesSelected(log[..|log| - 1], p) + if last.Boundary? && last.selected == Some(p) then 1 else 0
  }

  function FailureSeq(log: Log, v: Id): (runSeq: nat) {
    if log == [] then 0
    else
      var last := log[|log| - 1];
      if (last.body.Failed? && last.body.vertex == v) || (last.body.Unreadable? && last.body.planner == v)
        then last.runSeq
      else FailureSeq(log[..|log| - 1], v)
  }

  /** Scopes some boundary has already reported as cancelled. */
  function Reported(log: Log): (ids: set<Id>) {
    if log == [] then {}
    else
      var last := log[|log| - 1].body;
      Reported(log[..|log| - 1]) + if last.Boundary? then last.cited else {}
  }

  /** What a replan at `p` would discard. */
  ghost function ShadowSet(log: Log, p: Id): (ids: set<Id>) { Descendants(log, p) - Hidden(log) }

  /** Materialized scopes holding any vertex that would be discarded. */
  function ScopesMeeting(log: Log, discarded: set<Id>): (ids: set<Id>) {
    set s | s in ScopeIds(log) && PhaseOf(log, s) != Unmaterialized && MembersOf(log, s) * discarded != {}
  }

  function Unresolved(log: Log, v: Id): (ids: set<Id>) {
    set s | s in ScopeIds(log) && Scope(log, s).Some? && Scope(log, s).value.requestedFor == Some(v)
         && (PhaseOf(log, s) == Asked || PhaseOf(log, s) == Cancelling)
  }

  /** Scopes that refuse every freeze in the run until they settle. */
  function RunBlocks(log: Log, locked: Option<Locked>): (ids: set<Id>) {
    (set s | s in ScopeIds(log) && Transient(PhaseOf(log, s)))
    + if locked.None? then {}
      else set s | s in locked.value && locked.value[s].state == RowOpen && locked.value[s].hasExpiredTry
  }

  function DateOr0(at: Option<nat>): (n: nat) { if at.Some? then at.value else 0 }

  /** Cancelled after the failure being answered. */
  predicate CancelledSince(log: Log, s: Id, failedAt: nat) {
    Scope(log, s).Some? && PhaseOf(log, s) == Cancelled && DateOr0(Scope(log, s).value.cancelledSeq) > failedAt
  }

  function CancelledFor(log: Log, v: Id, relevant: set<Id>): (ids: set<Id>) {
    set s | s in ScopeIds(log) && CancelledSince(log, s, FailureSeq(log, v)) && s !in Reported(log)
         && (Scope(log, s).value.requestedFor == Some(v) || s in relevant)
  }

  /* ---------------------------------------------------------------- log against rows */

  function StoredPhase(row: LockedScope): (p: Phase) {
    match row.state
    case RowOpen => if row.fenced then Fenced else Open
    case RowInflight => Inflight
    case RowPassed => Passed
    case RowCommitted => Committed
    case RowCancelling => Cancelling
    case RowCancelled => Cancelled
    case RowSuspended => Suspended
  }

  /** The row cannot tell a requested scope from a fenced one. */
  function Coarse(p: Phase): (q: Phase) { if p == Asked then Fenced else p }

  function Disagreeing(log: Log, locked: Locked): (ids: set<Id>) {
    set s | s in locked && (s !in ScopeIds(log) || Coarse(PhaseOf(log, s)) != StoredPhase(locked[s]))
  }

  /* ---------------------------------------------------------------- the decision */

  datatype Verdict = Refused(reason: Rejection) | Legal(cancel: set<Id>)

  /** Undoing this scope would undo work above the planner. */
  predicate SavepointBefore(log: Log, s: Id, failedAt: nat, succeededAt: nat) {
    && Scope(log, s).Some?
    && (Cancellable(PhaseOf(log, s)) || CancelledSince(log, s, failedAt))
    && Scope(log, s).value.firstMember < succeededAt
  }

  /** Whether one planner is a legal boundary, given what resuming there discards. */
  function Judge(log: Log, v: Id, policy: Policy, planner: Id, succeededAt: nat, discarded: set<Id>): (r: Verdict) {
    var touched := ScopesMeeting(log, discarded);
    if succeededAt < BacktrackFloor(log) then Refused(BelowFloor)
    else if exists s :: s in touched && Unrecoverable(PhaseOf(log, s)) then Refused(OpenBracket)
    else if exists s :: s in touched && SavepointBefore(log, s, FailureSeq(log, v), succeededAt)
      then Refused(SavepointPrecedes)
    else if TimesSelected(log, planner) >= policy.maxPerPlanner then Refused(CounterExhausted)
    else Legal(set s | s in touched && Cancellable(PhaseOf(log, s)))
  }

  function CandidateFor(log: Log, v: Id, policy: Policy, price: Pricing, e: Above, discarded: set<Id>): (c: Candidate) {
    match Judge(log, v, policy, e.planner, e.succeededAt, discarded)
    case Refused(reason) => Rejected(e.planner, e.succeededAt, reason)
    case Legal(cancel) =>
      var cost := price(log, e.planner);
      if policy.budget.Some? && cost > policy.budget.value then Rejected(e.planner, e.succeededAt, BudgetExceeded)
      else Priced(e.planner, e.succeededAt, cost, cancel)
  }

  ghost function Candidates(log: Log, v: Id, policy: Policy, price: Pricing, above: seq<Above>): (cs: seq<Candidate>)
    ensures |cs| == |above|
    ensures forall i :: 0 <= i < |cs| ==>
      cs[i] == CandidateFor(log, v, policy, price, above[i], ShadowSet(log, above[i].planner))
  {
    if above == [] then []
    else
      var n := |above| - 1;
      Candidates(log, v, policy, price, above[..n])
        + [CandidateFor(log, v, policy, price, above[n], ShadowSet(log, above[n].planner))]
  }

  /** The running best: the first candidate of least cost among the first `n`. */
  function Cheapest(cs: seq<Candidate>, n: nat): (best: Option<nat>)
    requires n <= |cs|
    ensures best.Some? ==> best.value < n && cs[best.value].Priced?
  {
    if n == 0 then None
    else
      var best := Cheapest(cs, n - 1);
      if cs[n - 1].Priced? && (best.None? || cs[n - 1].cost < cs[best.value].cost) then Some(n - 1) else best
  }

  function Escalation(base: Decision, level: Level, log: Log, own: Option<Id>): (d: Decision) {
    var v := base.failed;
    if own.Some? && (PhaseOf(log, own.value) == Open || PhaseOf(log, own.value) == Fenced) then
      base.(action := Request, level := L3, requestScopes := {own.value})
    else
      var settling := own.Some? && (PhaseOf(log, own.value) == Asked || PhaseOf(log, own.value) == Cancelling
        || PhaseOf(log, own.value) == Inflight);
      var awaited := Unresolved(log, v) + if settling then {own.value} else {};
      if awaited != {} then base.(action := Wait, level := level, awaited := awaited)
      else base.(action := Record, level := level, cancelled := CancelledFor(log, v, if own.Some? then {own.value}
        else {}))
  }

  function Base(log: Log, v: Id): (d: Decision) {
    Decision(Record, L4, v, [], None, None, {}, {}, {}, {}, Episode(log))
  }

  function SuspendedScopes(log: Log): (ids: set<Id>) {
    set s | s in ScopeIds(log) && PhaseOf(log, s) == Suspended
  }

  /** Those of these scopes nobody has started to cancel. */
  function StillOpen(log: Log, ids: set<Id>): (open: set<Id>) {
    set s | s in ids && (PhaseOf(log, s) == Open || PhaseOf(log, s) == Fenced)
  }

  /** What to do with the cheapest legal boundary once it is known. */
  function Resume(log: Log, v: Id, locked: Option<Locked>, base: Decision, best: Candidate, level: Level,
      discarded: set<Id>): (d: Decision)
    requires best.Priced?
  {
    var toRequest := StillOpen(log, best.requires_);
    var inFlight := best.requires_ + Unresolved(log, v);
    var blocking := RunBlocks(log, locked);
    var aimed := base.(level := level, intended := Some(best.planner));
    if toRequest != {} then aimed.(action := Request, requestScopes := toRequest)
    else if inFlight != {} then aimed.(action := Wait, awaited := inFlight)
    else if blocking != {} then aimed.(action := Wait, awaited := blocking)
    else aimed.(action := Record, selected := Some(best.planner), shadowed := discarded,
      cancelled := CancelledFor(log, v, ScopesMeeting(log, discarded)))
  }

  function NoBoundaryLevel(log: Log, own: Option<Id>): (l: Level) {
    if own.Some? && (PhaseOf(log, own.value) == Cancelled || Cancellable(PhaseOf(log, own.value))) then L3 else L4
  }

  ghost function SelectBoundary(log: Log, v: Id, policy: Policy, price: Pricing,
      locked: Option<Locked>): (d: Decision) {
    var base := Base(log, v);
    var own := FirstScope(log, v);
    if locked.Some? && Disagreeing(log, locked.value) != {}
      then base.(action := Wait, awaited := Disagreeing(log, locked.value))
    else if RuleAuthored(log, v) then Escalation(base, L4, log, own)
    else if Episode(log) >= policy.maxPerEpisode then Escalation(base, L3, log, own)
    else if SuspendedScopes(log) != {} then Escalation(base, L4, log, own)
    else
      var above := AncestorPlanners(log, v);
      var cs := Candidates(log, v, policy, price, above);
      var best := Cheapest(cs, |cs|);
      if best.None? then Escalation(base.(candidates := cs), NoBoundaryLevel(log, own), log, own)
      else
        var level := if above[best.value].depth == above[0].depth then L1 else L2;
        Resume(log, v, locked, base.(candidates := cs), cs[best.value], level, ShadowSet(log, cs[best.value].planner))
  }

  /** The events one decision appends, in order. */
  function Drafts(d: Decision): (bodies: seq<Body>) {
    match d.action
    case Wait => []
    case Request => [CancelRequested(d.failed, d.requestScopes)]
    case Record =>
      [Boundary(d.failed, d.selected, d.cancelled)] + if d.selected.Some? then [Shadowed(d.shadowed)] else []
  }

  /* ---------------------------------------------------------------- the loops */

  method ComputeCandidates(log: Log, v: Id, policy: Policy, price: Pricing, above: seq<Above>)
    returns (cs: seq<Candidate>, best: Option<nat>, discarded: set<Id>)
    ensures cs == Candidates(log, v, policy, price, above)
    ensures best == Cheapest(cs, |cs|)
    ensures best.Some? ==> discarded == ShadowSet(log, cs[best.value].planner)
  {
    hide Judge, Hidden, Descendants;
    cs, best, discarded := [], None, {};
    for n := 0 to |above|
      invariant cs == Candidates(log, v, policy, price, above[..n])
      invariant best == Cheapest(cs, |cs|)
      invariant best.Some? ==> discarded == ShadowSet(log, cs[best.value].planner)
    {
      var below := CausalDescendants(log, above[n].planner);
      var here := below - Hidden(log);
      var c := CandidateFor(log, v, policy, price, above[n], here);
      ghost var was := cs;
      assert above[..n + 1][..n] == above[..n];
      cs := cs + [c];
      CheapestPrefix(was, c);
      if c.Priced? && (best.None? || c.cost < cs[best.value].cost) {
        best, discarded := Some(n), here;
      }
    }
    assert above[..|above|] == above;
  }

  lemma {:induction false} CheapestPrefix(cs: seq<Candidate>, c: Candidate)
    ensures Cheapest(cs + [c], |cs|) == Cheapest(cs, |cs|)
  {
    CheapestLocal(cs, cs + [c], |cs|);
  }

  lemma {:induction false} CheapestLocal(cs: seq<Candidate>, ds: seq<Candidate>, n: nat)
    requires n <= |cs| && n <= |ds| && forall i :: 0 <= i < n ==> cs[i] == ds[i]
    ensures Cheapest(cs, n) == Cheapest(ds, n)
  {
    if n > 0 { CheapestLocal(cs, ds, n - 1); }
  }

  method Decide(log: Log, v: Id, policy: Policy, price: Pricing, locked: Option<Locked>) returns (d: Decision)
    ensures d == SelectBoundary(log, v, policy, price, locked)
  {
    var base := Base(log, v);
    var own := FirstScope(log, v);
    if locked.Some? && Disagreeing(log, locked.value) != {} {
      return base.(action := Wait, awaited := Disagreeing(log, locked.value));
    }
    if RuleAuthored(log, v) { return Escalation(base, L4, log, own); }
    if Episode(log) >= policy.maxPerEpisode { return Escalation(base, L3, log, own); }
    if SuspendedScopes(log) != {} { return Escalation(base, L4, log, own); }
    var above := FindAncestorPlanners(log, v);
    var cs, best, discarded := ComputeCandidates(log, v, policy, price, above);
    if best.None? { return Escalation(base.(candidates := cs), NoBoundaryLevel(log, own), log, own); }
    var level := if above[best.value].depth == above[0].depth then L1 else L2;
    d := Resume(log, v, locked, base.(candidates := cs), cs[best.value], level, discarded);
  }

  /** The selected boundary is the cheapest legal one, and the nearest of those. */
  lemma {:induction false} CheapestIsLeast(cs: seq<Candidate>, n: nat)
    requires n <= |cs|
    ensures Cheapest(cs, n).None? <==> forall i :: 0 <= i < n ==> cs[i].Rejected?
    ensures Cheapest(cs, n).Some? ==>
      var k := Cheapest(cs, n).value;
      forall i :: 0 <= i < n && cs[i].Priced? ==> cs[k].cost <= cs[i].cost && (i < k ==> cs[k].cost < cs[i].cost)
  {
    if n > 0 { CheapestIsLeast(cs, n - 1); }
  }

  /* ---------------------------------------------------------------- outstanding failures */

  datatype Outcome = NoOutcome | DidFail | DidSucceed | DidRetry

  function LastOutcome(log: Log, v: Id): (o: Outcome) {
    if log == [] then NoOutcome
    else
      var b := log[|log| - 1].body;
      if b.Failed? && b.vertex == v then DidFail
      else if b.Succeeded? && b.vertex == v then DidSucceed
      else if b.Retried? && b.vertex == v then DidRetry
      else LastOutcome(log[..|log| - 1], v)
  }

  /** Vertices some escalation has answered. */
  function Escalated(log: Log): (ids: set<Id>) {
    if log == [] then {}
    else
      var b := log[|log| - 1].body;
      Escalated(log[..|log| - 1]) + if b.Boundary? && b.selected.None? then {b.answered} else {}
  }

  /** Vertices some boundary of any kind has answered. */
  function AnsweredBy(log: Log): (ids: set<Id>) {
    if log == [] then {}
    else
      var b := log[|log| - 1].body;
      AnsweredBy(log[..|log| - 1]) + if b.Boundary? then {b.answered} else {}
  }

  predicate Unrecovered(log: Log, v: Id) {
    v !in Hidden(log) && v !in Escalated(log) && LastOutcome(log, v) == DidFail
  }

  function FailuresBefore(log: Log, n: nat): (vs: seq<Id>)
    requires n <= |log|
  {
    if n == 0 then []
    else
      var b := log[n - 1].body;
      FailuresBefore(log, n - 1) + if b.Failed? && Unrecovered(log, b.vertex) then [b.vertex] else []
  }

  function UnrecoveredFailures(log: Log): (vs: seq<Id>) { FailuresBefore(log, |log|) }

  /** Some later freeze gave this planner a child. */
  predicate GotChild(log: Log, p: Id, after: nat) {
    exists k :: 0 <= k < |log| && log[k].runSeq > after && log[k].body.Created? && p in log[k].body.parents
  }

  function StalledBefore(log: Log, n: nat): (ps: seq<Id>)
    requires n <= |log|
  {
    if n == 0 then []
    else
      var so := StalledBefore(log, n - 1);
      var b := log[n - 1].body;
      if b.Unreadable? && b.planner !in AnsweredBy(log) && b.planner !in so
        && !GotChild(log, b.planner, log[n - 1].runSeq) then so + [b.planner] else so
  }

  function StalledPlanners(log: Log): (ps: seq<Id>) { StalledBefore(log, |log|) }

  function Outstanding(log: Log): (vs: seq<Id>) { UnrecoveredFailures(log) + StalledPlanners(log) }

  lemma {:induction false} FailuresExact(log: Log, n: nat, v: Id)
    requires n <= |log|
    ensures v in FailuresBefore(log, n) <==> Unrecovered(log, v) && exists k ::
      0 <= k < n && log[k].body.Failed? && log[k].body.vertex == v
  {
    if n > 0 { FailuresExact(log, n - 1, v); }
  }

  lemma {:induction false} FailedOnce(log: Log, v: Id)
    requires LastOutcome(log, v) == DidFail
    ensures exists k :: 0 <= k < |log| && log[k].body.Failed? && log[k].body.vertex == v
  {
    var n := |log| - 1;
    if !(log[n].body.Failed? && log[n].body.vertex == v) {
      FailedOnce(log[..n], v);
      var k :| 0 <= k < n && log[..n][k].body.Failed? && log[..n][k].body.vertex == v;
      assert log[k].body.Failed? && log[k].body.vertex == v;
    }
  }

  lemma {:induction false} StalledExact(log: Log, n: nat, v: Id)
    requires n <= |log| && v in StalledBefore(log, n)
    ensures v !in AnsweredBy(log) && exists k :: 0 <= k < n && log[k].body == Unreadable(v)
  {
    if v in StalledBefore(log, n - 1) {
      StalledExact(log, n - 1, v);
    } else {
      assert log[n - 1].body == Unreadable(v);
    }
  }

  /** A failure is outstanding exactly when it is unrecovered; a stall only when nothing ever answered it. */
  lemma {:induction false} OutstandingIs(log: Log, v: Id)
    ensures Unrecovered(log, v) ==> v in Outstanding(log)
    ensures v in Outstanding(log) ==>
      Unrecovered(log, v) || (v !in AnsweredBy(log) && exists k :: 0 <= k < |log| && log[k].body == Unreadable(v))
  {
    FailuresExact(log, |log|, v);
    if Unrecovered(log, v) { FailedOnce(log, v); }
    if v in StalledPlanners(log) { StalledExact(log, |log|, v); }
  }

  /** One pass of the recovery loop: the first outstanding failure that can act does. */
  method RecoverOne(log: Log, policy: Policy, price: Pricing, locked: Locked)
      returns (acted: Option<Decision>, drafts: seq<Body>)
    ensures acted.None? ==> drafts == [] && forall v :: v in Outstanding(log) ==>
      SelectBoundary(log, v, policy, price, Some(locked)).action == Wait
    ensures acted.Some? ==> drafts == Drafts(acted.value) && acted.value.action != Wait
    ensures acted.Some? ==>
         exists i :: 0 <= i < |Outstanding(log)|
           && acted.value == SelectBoundary(log, Outstanding(log)[i], policy, price, Some(locked))
           && forall j :: 0 <= j < i ==>
             SelectBoundary(log, Outstanding(log)[j], policy, price, Some(locked)).action == Wait
  {
    hide *;
    var vs := Outstanding(log);
    for i := 0 to |vs|
      invariant forall j :: 0 <= j < i ==> SelectBoundary(log, vs[j], policy, price, Some(locked)).action == Wait
    {
      var d := Decide(log, vs[i], policy, price, Some(locked));
      if d.action != Wait {
        return Some(d), Drafts(d);
      }
    }
    return None, [];
  }
}
