/**
 Runs that break two of the promised properties, and for which policies they exist.

 A failed planner that had succeeded before is answered by resuming itself, and then again:
 some run does this exactly when the policy lets the ladder replan at all. A scope whose
 pivot was started and then disproved is asked to cancel, which the request oracle forbids.
 */
module RecoveryWitnesses {
  import opened EventLog
  import opened CausalGraph
  import opened ScopePhases
  import opened RunOracles
  import opened RecoveryLadder
  import opened LadderFacts
  import opened RunProtocol
  import opened RunInvariant
  import opened RecoverySafety
  import opened RunSafety
  import opened RecoveryBounds
  import opened RecoveryProgress

  /** A log with these events, numbered from 1. */
  function Written(bodies: seq<Body>): (log: Log)
    ensures |log| == |bodies|
    ensures forall i :: 0 <= i < |log| ==> log[i] == Event(i + 1, bodies[i])
  {
    seq(|bodies|, i requires 0 <= i < |bodies| => Event(i + 1, bodies[i]))
  }

  lemma Wrote(before: seq<Body>, bodies: seq<Body>)
    ensures Appended(Written(before), Written(before + bodies), bodies)
  {
  }

  lemma {:induction false} NothingAnswered(log: Log)
    requires forall k :: 0 <= k < |log| ==> !log[k].body.Shadowed? && !log[k].body.Boundary?
    ensures Hidden(log) == {} && Escalated(log) == {} && AnsweredBy(log) == {}
    ensures forall q: nat :: BoundariesAfter(log, q) == 0
    ensures forall p: Id :: TimesSelected(log, p) == 0
  {
    if log != [] {
      var n := |log| - 1;
      assert forall k :: 0 <= k < n ==> log[..n][k] == log[k];
      NothingAnswered(log[..n]);
    }
  }

  lemma {:induction false} FloorBelow(log: Log, m: nat)
    requires forall k :: 0 <= k < |log| && log[k].body.PivotPassed? ==> log[k].runSeq <= m
    ensures BacktrackFloor(log) <= m
  {
    if log != [] {
      var n := |log| - 1;
      assert forall k :: 0 <= k < n ==> log[..n][k] == log[k];
      FloorBelow(log[..n], m);
    }
  }

  /** Any run may be extended by one more step. */
  lemma RunExtends(policy: Policy, price: Pricing, run: seq<Run>, steps: seq<Step>, step: Step, b: Run)
    requires IsRun(policy, price, run, steps) && Takes(policy, price, run[|run| - 1], step, b)
    ensures IsRun(policy, price, run + [b], steps + [step])
  {
    hide Takes;
  }

  lemma Then(policy: Policy, price: Pricing, run: seq<Run>, steps: seq<Step>, step: Step, b: Run)
      returns (longer: seq<Run>, taken: seq<Step>)
    requires IsRun(policy, price, run, steps) && |run| > 0 && Takes(policy, price, run[|run| - 1], step, b)
    ensures IsRun(policy, price, longer, taken) && |longer| > 0 && longer[|longer| - 1] == b
  {
    RunExtends(policy, price, run, steps, step, b);
    longer, taken := run + [b], steps + [step];
  }

  /* ---------------------------------------------------------------- a run with nothing left to settle */

  /** Every scope that ever opened has committed. */
  ghost predicate Calm(log: Log) { forall s :: PhaseOf(log, s) == Unmaterialized || PhaseOf(log, s) == Committed }

  ghost predicate CalmRows(log: Log, locked: Locked) {
    Calm(log) && Disagreeing(log, locked) == {} && forall s :: s in locked ==> locked[s].state != RowOpen
  }

  lemma CommittedIsCalm(a: Run, tries: Tries)
    requires Coherent(a) && a.absent == map[] && forall s :: s in a.rows ==> a.rows[s].state == RowCommitted
    ensures CalmRows(a.log, View(a.rows, tries))
  {
    NoGapAgrees(a, tries);
    forall s ensures PhaseOf(a.log, s) == Unmaterialized || PhaseOf(a.log, s) == Committed { assert AgreesAt(a, s); }
  }

  /** Then there is nothing to ask for and nothing to wait for. */
  lemma CalmRecords(log: Log, v: Id, policy: Policy, price: Pricing, locked: Locked)
    requires CalmRows(log, locked)
    ensures SelectBoundary(log, v, policy, price, Some(locked)).action == Record
  {
    hide SelectBoundary, PhaseOf, Disagreeing;
    DecisionFacts(log, v, policy, price, Some(locked));
    var d := SelectBoundary(log, v, policy, price, Some(locked));
    assert RunBlocks(log, Some(locked)) == {};
    if d.action == Wait { DecisionAwaits(log, v, policy, price, Some(locked)); }
  }

  predicate CanReplan(policy: Policy) { policy.maxPerPlanner > 0 && policy.maxPerEpisode > 0 }

  predicate Affords(policy: Policy, price: Pricing, log: Log, p: Id) {
    policy.budget.None? || price(log, p) <= policy.budget.value
  }

  /** A succeeded planner with no parents can only resume itself, and does. */
  lemma LonePlannerResumesItself(log: Log, v: Id, policy: Policy, price: Pricing, locked: Locked)
    requires CalmRows(log, locked) && CreatedOnce(log) && CanReplan(policy) && Affords(policy, price, log, v)
    requires IsPlanner(log, v) && AboveFloor(log, v) && ParentsOf(log, v) == [] && !RuleAuthored(log, v)
    requires forall k :: 0 <= k < |log| ==> !log[k].body.Shadowed? && !log[k].body.Boundary?
    ensures SelectBoundary(log, v, policy, price, Some(locked)).selected == Some(v)
  {
    hide SelectBoundary, RunBlocks, IsFinalEscalation, IsOpenRequest, Disagreeing, Episode, SuspendedScopes, Unresolved,
      ScopesMeeting, RuleAuthored, PhaseOf, CreatedOnce, TimesSelected, ShadowSet, IsPlanner, ParentsOf, BacktrackFloor;
    CalmRecords(log, v, policy, price, locked);
    DecisionFacts(log, v, policy, price, Some(locked));
    SomethingSelected(log, v, policy, price, locked);
    OnlyItself(log, v);
  }

  /** A calm log offers the planner itself as a legal boundary, so some boundary is selected. */
  lemma SomethingSelected(log: Log, v: Id, policy: Policy, price: Pricing, locked: Locked)
    requires CalmRows(log, locked) && CreatedOnce(log) && CanReplan(policy) && Affords(policy, price, log, v)
    requires IsPlanner(log, v) && AboveFloor(log, v) && ParentsOf(log, v) == [] && !RuleAuthored(log, v)
    requires forall k :: 0 <= k < |log| ==> !log[k].body.Shadowed? && !log[k].body.Boundary?
    requires SelectBoundary(log, v, policy, price, Some(locked)).action == Record
    ensures SelectBoundary(log, v, policy, price, Some(locked)).selected.Some?
  {
    NothingAnswered(log);
    SelfIsPriced(log, v, policy, price);
    assert SuspendedScopes(log) == {};
    hide AncestorPlanners, PhaseOf, CreatedOnce, RunBlocks, Unresolved, Disagreeing, CandidateFor, ShadowSet,
      Escalation,
      RuleAuthored, Episode, SuspendedScopes, CancelledFor, ScopesMeeting, FirstScope;
    assert Episode(log) == 0;
  }

  lemma {:induction false} SelfIsPriced(log: Log, v: Id, policy: Policy, price: Pricing)
    requires Calm(log) && CreatedOnce(log) && CanReplan(policy) && Affords(policy, price, log, v)
    requires IsPlanner(log, v) && AboveFloor(log, v) && ParentsOf(log, v) == [] && TimesSelected(log, v) == 0
    ensures var cs := Candidates(log, v, policy, price, AncestorPlanners(log, v)); Cheapest(cs, |cs|).Some?
  {
    OnlyItself(log, v);
    hide AncestorPlanners, PhaseOf, CreatedOnce, Judge, Calm;
    var above := AncestorPlanners(log, v);
    var e := Above(v, SuccessSeq(log, v).value, 0);
    var cs := Candidates(log, v, policy, price, above);
    var k :| 0 <= k < |above| && above[k] == e;
    LegalWhenCalm(log, v, policy, e, ShadowSet(log, v));
    assert cs[k].Priced?;
    CheapestIsLeast(cs, |cs|);
  }

  lemma {:induction false} LegalWhenCalm(log: Log, v: Id, policy: Policy, e: Above, discarded: set<Id>)
    requires Calm(log) && BacktrackFloor(log) <= e.succeededAt && TimesSelected(log, e.planner) < policy.maxPerPlanner
    ensures Judge(log, v, policy, e.planner, e.succeededAt, discarded).Legal?
  {
  }

  lemma {:induction false} OnlyItself(log: Log, v: Id)
    requires CreatedOnce(log) && IsPlanner(log, v) && SuccessSeq(log, v).Some? && ParentsOf(log, v) == []
    ensures forall e :: e in AncestorPlanners(log, v) ==> e.planner == v
    ensures Above(v, SuccessSeq(log, v).value, 0) in AncestorPlanners(log, v)
  {
    AncestorPlannersExact(log, v);
    hide AncestorPlanners;
    forall e | e in AncestorPlanners(log, v) ensures e.planner == v {
      assert Belongs(log, v, e);
      if e.depth > 0 {
        var c := PathUnsnoc(log, e.planner, v, e.depth);
        EdgeParents(log, c, v);
      }
    }
    assert Belongs(log, v, Above(v, SuccessSeq(log, v).value, 0));
  }

  /* ---------------------------------------------------------------- one failure answered twice */

  function Frozen1(p: Id): (b: seq<Body>) { [Frozen(0), Created(p, [], None, Planner)] }
  function Lone(p: Id): (b: seq<Body>) {
    [Frozen(0), Created(p, [], None, Planner), Succeeded(p, None), Failed(p, None, false)]
  }

  lemma ReportStep(policy: Policy, price: Pricing, p: Id, bodies: seq<Body>, report: Body)
    requires CreatedOnce(Written(bodies)) && Frozen1(p) <= bodies
      && (report == Succeeded(p, None) || report == Failed(p, None, false))
    ensures Takes(policy, price, Run(Written(bodies), map[], map[]), Report(report), Run(Written(bodies
      + [report]), map[], map[]))
  {
    Wrote(bodies, [report]);
    assert bodies[1] == Frozen1(p)[1];
    CreatedOfAt(Written(bodies), 1);
  }

  lemma FirstFreeze(policy: Policy, price: Pricing, created: seq<Body>)
    requires FreshWork([], created)
    ensures Takes(policy, price, Start, Freeze(0, created), Run(Written([Frozen(0)] + created), map[], map[]))
  {
    var bodies := [Frozen(0)] + created;
    Wrote([], bodies);
    assert [] + bodies == bodies && Written([]) == [];
  }

  lemma FewCreated(bodies: seq<Body>)
    requires forall i, j :: 0 <= i < j < |bodies| && bodies[i].Created? ==> !bodies[j].Created?
    ensures CreatedOnce(Written(bodies))
  {
  }

  /** A planner that succeeded and then failed. */
  lemma LoneFailure(policy: Policy, price: Pricing, p: Id) returns (run: seq<Run>, steps: seq<Step>)
    ensures IsRun(policy, price, run, steps) && run[|run| - 1] == Run(Written(Lone(p)), map[], map[])
  {
    hide Takes, CreatedOnce, Inv;
    var created := [Created(p, [], None, Planner)];
    var three := Frozen1(p) + [Succeeded(p, None)];
    var r1 := Run(Written(Frozen1(p)), map[], map[]);
    FirstFreeze(policy, price, created);
    assert [Frozen(0)] + created == Frozen1(p);
    FewCreated(Frozen1(p));
    FewCreated(three);
    ReportStep(policy, price, p, Frozen1(p), Succeeded(p, None));
    ReportStep(policy, price, p, three, Failed(p, None, false));
    assert three + [Failed(p, None, false)] == Lone(p);
    run, steps := [Start], [];
    run, steps := Then(policy, price, run, steps, Freeze(0, created), r1);
    run, steps := Then(policy, price, run, steps, Report(Succeeded(p, None)), Run(Written(three), map[], map[]));
    run, steps := Then(policy, price, run, steps, Report(Failed(p, None, false)), Run(Written(Lone(p)), map[], map[]));
  }

  /** With no scope rows, an outstanding failure is answered at once. */
  lemma AnswerStep(policy: Policy, price: Pricing, bodies: seq<Body>, v: Id) returns (more: seq<Body>)
    requires var a := Run(Written(bodies), map[], map[]); Inv(a) && Unrecovered(a.log, v)
    ensures var d := SelectBoundary(Written(bodies), v, policy, price, Some(map[]));
      d.action == Record && d.failed == v && more == Drafts(d)
    ensures Takes(policy, price, Run(Written(bodies), map[], map[]), Recover(v, Tries({}, {})),
      Run(Written(bodies + more), map[], map[]))
  {
    hide SelectBoundary, Unrecovered, Inv, CalmRows, Takes, Written, IsLegalSelection, IsFinalEscalation,
      IsOpenRequest, Disagreeing;
    var a := Run(Written(bodies), map[], map[]);
    InvCalm(a);
    CalmRecords(a.log, v, policy, price, map[]);
    DecisionFacts(a.log, v, policy, price, Some(map[]));
    more := Drafts(SelectBoundary(a.log, v, policy, price, Some(map[])));
    AnswerTakes(policy, price, bodies, v);
  }

  lemma AnswerTakes(policy: Policy, price: Pricing, bodies: seq<Body>, v: Id)
    requires Unrecovered(Written(bodies), v)
    requires SelectBoundary(Written(bodies), v, policy, price, Some(map[])).action == Record
    ensures var more := Drafts(SelectBoundary(Written(bodies), v, policy, price, Some(map[])));
      Takes(policy, price, Run(Written(bodies), map[], map[]), Recover(v, Tries({}, {})),
        Run(Written(bodies + more), map[], map[]))
  {
    hide SelectBoundary, Unrecovered, Written, Outstanding, Appended;
    var d := SelectBoundary(Written(bodies), v, policy, price, Some(map[]));
    OutstandingIs(Written(bodies), v);
    Wrote(bodies, Drafts(d));
    assert View(map[], Tries({}, {})) == map[];
  }

  lemma LoneIsUnrecovered(a: Run, p: Id)
    requires a == Run(Written(Lone(p)), map[], map[]) && Inv(a)
    ensures Unrecovered(a.log, p) && p !in Descendants(a.log, p)
    ensures IsPlanner(a.log, p) && AboveFloor(a.log, p) && ParentsOf(a.log, p) == [] && !RuleAuthored(a.log, p)
  {
    NothingAnswered(a.log);
    CreatedOfAt(a.log, 1);
    assert a.log[..3][2].body == Succeeded(p, None);
    NoParentsNotBelow(a.log, p);
    NeverByRule(a.log, 0, p);
    FloorBelow(a.log, 0);
  }

  lemma NoParentsNotBelow(log: Log, v: Id)
    requires CreatedOnce(log) && ParentsOf(log, v) == []
    ensures !Below(log, v, v)
  {
    forall n: nat | n >= 1 ensures !Path(log, v, v, n) {
      if Path(log, v, v, n) {
        var c := PathUnsnoc(log, v, v, n);
        EdgeParents(log, c, v);
      }
    }
  }

  lemma {:induction false} NoSource(log: Log, q: nat)
    requires forall k :: 0 <= k < |log| ==> !log[k].body.Proposed?
    ensures SourceAt(log, q) == Submitted
  {
    if log != [] {
      var n := |log| - 1;
      assert forall k :: 0 <= k < n ==> log[..n][k] == log[k];
      NoSource(log[..n], q);
    }
  }

  lemma {:induction false} NeverByRule(log: Log, n: nat, v: Id)
    requires n <= |log| && forall k :: 0 <= k < |log| ==> !log[k].body.Proposed?
    ensures !AuthoredFrom(log, n, v, Submitted)
    decreases |log| - n
  {
    if n < |log| {
      if log[n].body.Frozen? { NoSource(log, log[n].body.proposedSeq); }
      NeverByRule(log, n + 1, v);
    }
  }

  /** Wherever the ladder may replan and can pay for it, some run answers one failure twice. */
  lemma AnsweredTwice(policy: Policy, price: Pricing, p: Id) returns (run: seq<Run>, steps: seq<Step>)
    requires CanReplan(policy) && Affords(policy, price, Written(Lone(p)), p)
    ensures IsRun(policy, price, run, steps) && !OneAnswerPerFailure(run[|run| - 1].log)
  {
    hide SelectBoundary, Unrecovered, Takes, Inv, Descendants, RuleAuthored, IsPlanner, SuccessSeq, ParentsOf,
      OneAnswerPerFailure, AboveFloor, CalmRows;
    run, steps := LoneFailure(policy, price, p);
    var a := run[|run| - 1];
    RunInv(policy, price, run, steps, |run| - 1);
    LoneIsUnrecovered(a, p);
    var first := AnswerStep(policy, price, Lone(p), p);
    var recover := Recover(p, Tries({}, {}));
    var b := Run(Written(Lone(p) + first), map[], map[]);
    InvCalm(a);
    LonePlannerResumesItself(a.log, p, policy, price, map[]);
    assert View(map[], Tries({}, {})) == map[];
    AnswerLeavesOutstanding(policy, price, a, b, p, Tries({}, {}));
    RunExtends(policy, price, run, steps, recover, b);
    run, steps := run + [b], steps + [recover];
    RunInv(policy, price, run, steps, |run| - 1);
    var second := AnswerStep(policy, price, Lone(p) + first, p);
    var c := Run(Written(Lone(p) + first + second), map[], map[]);
    RunExtends(policy, price, run, steps, recover, c);
    run, steps := run + [c], steps + [recover];
    TwoAnswers(c.log, 4, 6, p);
  }

  lemma InvCalm(a: Run)
    requires Inv(a) && a.rows == map[] && a.absent == map[]
    ensures CalmRows(a.log, map[]) && CreatedOnce(a.log)
  {
    CommittedIsCalm(a, Tries({}, {}));
    assert View(map[], Tries({}, {})) == map[];
  }

  lemma TwoAnswers(log: Log, i: nat, j: nat, v: Id)
    requires i + 2 == j < |log| && log[i].body.Boundary? && log[j].body.Boundary?
      && log[i].body.answered == v == log[j].body.answered
    requires !FailsAt(log, i + 1, v)
    ensures !OneAnswerPerFailure(log)
  {
    assert AnswerAlike(log, i, j);
  }

  /** No run the policy governs ever records a replan. */
  ghost predicate NeverReplans(policy: Policy, price: Pricing) {
    !CanReplan(policy) || forall log: Log, p: Id :: !Affords(policy, price, log, p)
  }

  ghost predicate AlwaysOneAnswer(policy: Policy, price: Pricing) {
    forall run: seq<Run>, steps: seq<Step> :: IsRun(policy, price, run, steps)
      ==> OneAnswerPerFailure(run[|run| - 1].log)
  }

  lemma OneAnswerWithoutReplans(policy: Policy, price: Pricing)
    requires NeverReplans(policy, price)
    ensures AlwaysOneAnswer(policy, price)
  {
    forall run: seq<Run>, steps: seq<Step> | IsRun(policy, price, run, steps)
      ensures OneAnswerPerFailure(run[|run| - 1].log) {
      hide OneAnswerPerFailure, IsRun, NeverReplans;
      RunLength(policy, price, run, steps);
      NoneSelects(policy, price, run, steps, |run| - 1);
      OneAnswerUnlessSelfAnswered(policy, price, run, steps, |run| - 1);
    }
  }

  lemma {:induction false} NoneSelects(policy: Policy, price: Pricing, run: seq<Run>, steps: seq<Step>, k: nat)
    requires IsRun(policy, price, run, steps) && k < |run| && NeverReplans(policy, price)
    ensures forall i :: 0 <= i < |run[k].log| ==> !Selecting(run[k].log[i].body)
  {
    hide Takes, Inv, NeverReplans;
    if k > 0 {
      NoneSelects(policy, price, run, steps, k - 1);
      RunInv(policy, price, run, steps, k - 1);
      StepSelectsNone(policy, price, run[k - 1], steps[k - 1], run[k]);
    }
  }

  lemma StepSelectsNone(policy: Policy, price: Pricing, a: Run, step: Step, b: Run)
    requires Inv(a) && Takes(policy, price, a, step, b) && NeverReplans(policy, price)
    requires forall i :: 0 <= i < |a.log| ==> !Selecting(a.log[i].body)
    ensures forall i :: 0 <= i < |b.log| ==> !Selecting(b.log[i].body)
  {
    hide *;
    if step.Recover? {
      RecoverSelectsNone(policy, price, a, step.v, step.tries, b);
    } else {
      OrdinarySelectsNone(policy, price, a, step, b);
    }
  }

  lemma RecoverSelectsNone(policy: Policy, price: Pricing, a: Run, v: Id, tries: Tries, b: Run)
    requires Takes(policy, price, a, Recover(v, tries), b) && NeverReplans(policy, price)
    requires forall i :: 0 <= i < |a.log| ==> !Selecting(a.log[i].body)
    ensures forall i :: 0 <= i < |b.log| ==> !Selecting(b.log[i].body)
  {
    hide SelectBoundary, NeverReplans, Outstanding, View, Selecting, Appended, Drafts, AskRows;
    DraftsSelectNone(policy, price, a.log, v, Some(View(a.rows, tries)));
    AppendedSelectsNone(a.log, b.log, Drafts(SelectBoundary(a.log, v, policy, price, Some(View(a.rows, tries)))));
  }

  lemma OrdinarySelectsNone(policy: Policy, price: Pricing, a: Run, step: Step, b: Run)
    requires Inv(a) && !step.Recover? && Takes(policy, price, a, step, b)
    requires forall i :: 0 <= i < |a.log| ==> !Selecting(a.log[i].body)
    ensures forall i :: 0 <= i < |b.log| ==> !Selecting(b.log[i].body)
  {
    hide Takes, StepBodies, Coherent, Sound, WorkIsCreated, CreatedOnce, NeverDeclaredCancelled, Numbered, Appended;
    OrdinaryBodies(policy, price, a, step, b);
    OrdinaryAppended(policy, price, a, step, b);
    var bodies := StepBodies(a, step);
    forall i | 0 <= i < |bodies| ensures !Selecting(bodies[i]) { assert IsPlain(a.log, bodies[i]); }
    AppendedSelectsNone(a.log, b.log, bodies);
  }

  lemma DraftsSelectNone(policy: Policy, price: Pricing, log: Log, v: Id, locked: Option<Locked>)
    requires NeverReplans(policy, price)
    ensures forall i :: 0 <= i < |Drafts(SelectBoundary(log, v, policy, price, locked))| ==>
      !Selecting(Drafts(SelectBoundary(log, v, policy, price, locked))[i])
  {
    hide SelectBoundary, IsFinalEscalation, IsOpenRequest, IsLegalSelection, Disagreeing;
    var d := SelectBoundary(log, v, policy, price, locked);
    DecisionFacts(log, v, policy, price, locked);
    SelectionWithinBudget(log, v, policy, price, locked);
    var p := if d.selected.Some? then d.selected.value else v;
    assert CanReplan(policy) ==> !Affords(policy, price, log, p);
    if d.action == Record && d.selected.Some? { LegalWithinLimits(log, policy, locked, d); }
  }

  lemma LegalWithinLimits(log: Log, policy: Policy, locked: Option<Locked>, d: Decision)
    requires IsLegalSelection(log, policy, locked, d)
    ensures CanReplan(policy)
  {
  }

  lemma AppendedSelectsNone(log: Log, next: Log, bodies: seq<Body>)
    requires Appended(log, next, bodies) && forall i :: 0 <= i < |log| ==> !Selecting(log[i].body)
    requires forall i :: 0 <= i < |bodies| ==> !Selecting(bodies[i])
    ensures forall i :: 0 <= i < |next| ==> !Selecting(next[i].body)
  {
    forall i | 0 <= i < |next| ensures !Selecting(next[i].body) {
      if i < |log| { assert next[i] == log[i]; }
    }
  }

  /** A cost is never negative. */
  ghost predicate IsCost(price: Pricing) { forall log: Log, p: Id :: price(log, p) >= 0.0 }

  predicate NothingToSpend(policy: Policy) { policy.budget.Some? && policy.budget.value < 0.0 }

  /**
   One answer per failure, decided by the policy: whatever replans cost, every run keeps it
   exactly when the policy forbids replanning altogether, by its limits or by its budget.
   */
  lemma OneAnswerExactly(policy: Policy)
    ensures (forall price: Pricing :: IsCost(price) ==> AlwaysOneAnswer(policy, price)) <==>
      !CanReplan(policy) || NothingToSpend(policy)
  {
    if CanReplan(policy) && !NothingToSpend(policy) {
      var free: Pricing := (log: Log, p: Id) => 0.0;
      assert IsCost(free);
      var run, steps := AnsweredTwice(policy, free, 1);
      assert IsRun(policy, free, run, steps) && !OneAnswerPerFailure(run[|run| - 1].log);
      assert !AlwaysOneAnswer(policy, free);
    } else {
      forall price: Pricing | IsCost(price) ensures AlwaysOneAnswer(policy, price) {
        assert NeverReplans(policy, price);
        OneAnswerWithoutReplans(policy, price);
      }
    }
  }

  /** With a price list, where a planner costs the same on every log: exactly when no planner on it is within budget. */
  lemma OneAnswerByPriceList(policy: Policy, price: Pricing)
    requires forall log: Log, other: Log, p: Id :: price(log, p) == price(other, p)
    ensures AlwaysOneAnswer(policy, price) <==> !CanReplan(policy) || forall p: Id :: !Affords(policy, price, [], p)
  {
    if p: Id :| CanReplan(policy) && Affords(policy, price, [], p) {
      assert price(Written(Lone(p)), p) == price([], p);
      var run, steps := AnsweredTwice(policy, price, p);
      assert IsRun(policy, price, run, steps) && !OneAnswerPerFailure(run[|run| - 1].log);
    } else {
      forall log: Log, p: Id ensures CanReplan(policy) ==> !Affords(policy, price, log, p) {
        assert !(CanReplan(policy) && Affords(policy, price, [], p));
        assert price(log, p) == price([], p);
      }
      OneAnswerWithoutReplans(policy, price);
    }
  }

  /* ---------------------------------------------------------------- a disproved pivot is asked to cancel */

  function Tried(): (b: seq<Body>) {
    [Frozen(0), Created(2, [], Some(9), Tool), ScopeState(9, DeclaredOpen), Started(2, Some(9), true)]
  }

  function OpenRow(fenced: bool): (r: Row) { Row(RowOpen, fenced, false, None) }

  /** A scope opens, its pivot starts, and the status query finds the pivot never happened. */
  lemma PivotDisproved(policy: Policy, price: Pricing) returns (run: seq<Run>, steps: seq<Step>)
    ensures IsRun(policy, price, run, steps) && |run| > 0
    ensures run[|run| - 1] == Run(Written(Tried() + [Failed(2, Some(9), true)]), map[9 := OpenRow(true)], map[])
  {
    hide IsRun;
    run, steps := PivotOut(policy, price);
    var r3 := Run(Written(Tried()), map[9 := Row(RowInflight, false, false, Some(2))], map[]);
    var r4 := Run(Written(Tried()), map[9 := OpenRow(true)], map[9 := 2]);
    var r5 := Run(Written(Tried() + [Failed(2, Some(9), true)]), map[9 := OpenRow(true)], map[]);
    assert Takes(policy, price, r3, ResolveAbsent(9), r4);
    assert Takes(policy, price, r4, FailAbsent(9), r5) by {
      Wrote(Tried(), [Failed(2, Some(9), true)]);
      assert r4.absent - {9} == map[];
    }
    run, steps := Then(policy, price, run, steps, ResolveAbsent(9), r4);
    run, steps := Then(policy, price, run, steps, FailAbsent(9), r5);
  }

  lemma PivotOut(policy: Policy, price: Pricing) returns (run: seq<Run>, steps: seq<Step>)
    ensures IsRun(policy, price, run, steps) && |run| > 0
    ensures run[|run| - 1] == Run(Written(Tried()), map[9 := Row(RowInflight, false, false, Some(2))], map[])
  {
    var two := [Frozen(0), Created(2, [], Some(9), Tool)];
    var r1 := Run(Written(two), map[], map[]);
    var r2 := Run(Written(two + [ScopeState(9, DeclaredOpen)]), map[9 := OpenRow(false)], map[]);
    var r3 := Run(Written(Tried()), map[9 := Row(RowInflight, false, false, Some(2))], map[]);
    FirstFreeze(policy, price, [Created(2, [], Some(9), Tool)]);
    assert [Frozen(0)] + [Created(2, [], Some(9), Tool)] == two;
    assert Takes(policy, price, r1, EnsureScope(9), r2) by { Wrote(two, [ScopeState(9, DeclaredOpen)]); }
    assert Takes(policy, price, r2, AdmitPivot(9, 2), r3) by {
      AdmitStep(policy, price, two + [ScopeState(9, DeclaredOpen)]);
    }
    hide Takes;
    run, steps := [Start, r1, r2, r3], [Freeze(0, [Created(2, [], Some(9), Tool)]), EnsureScope(9), AdmitPivot(9, 2)];
  }

  lemma AdmitStep(policy: Policy, price: Pricing, bodies: seq<Body>)
    requires bodies == [Frozen(0), Created(2, [], Some(9), Tool)] + [ScopeState(9, DeclaredOpen)]
    ensures Takes(policy, price, Run(Written(bodies), map[9 := OpenRow(false)], map[]), AdmitPivot(9, 2),
                  Run(Written(Tried()), map[9 := Row(RowInflight, false, false, Some(2))], map[]))
  {
    assert bodies + [Started(2, Some(9), true)] == Tried();
    Wrote(bodies, [Started(2, Some(9), true)]);
    FewCreated(bodies);
    CreatedOfAt(Written(bodies), 1);
  }

  /**
   Whatever the policy, some run makes the ladder ask for a scope whose pivot had started: the request oracle
   rejects it.
   */
  lemma DisprovedPivotIsAsked(policy: Policy, price: Pricing) returns (run: seq<Run>, steps: seq<Step>)
    ensures IsRun(policy, price, run, steps) && !RequestDiscipline(run[|run| - 1].log)
  {
    hide SelectBoundary, Unrecovered, Inv, Descendants, IsPlanner, SuccessSeq, RequestDiscipline, Disagreeing,
      Outstanding, PhaseOf, MembersOf, Hidden, IsRun;
    run, steps := PivotDisproved(policy, price);
    RunLength(policy, price, run, steps);
    var bodies := Tried() + [Failed(2, Some(9), true)];
    var a := run[|run| - 1];
    var tries := Tries({}, {});
    var locked := Some(View(a.rows, tries));
    var d := SelectBoundary(a.log, 2, policy, price, locked);
    RunInv(policy, price, run, steps, |run| - 1);
    DisprovedIsOpen(a, tries);
    OpenScopeIsRequested(a.log, 2, 9, policy, price, locked);
    DecisionFacts(a.log, 2, policy, price, locked);
    var b := Run(Written(bodies + Drafts(d)), AskRows(a.rows, d.requestScopes), map[]);
    Wrote(bodies, Drafts(d));
    assert Takes(policy, price, a, Recover(2, tries), b);
    RunExtends(policy, price, run, steps, Recover(2, tries), b);
    run, steps := run + [b], steps + [Recover(2, tries)];
    RunLength(policy, price, run, steps);
    RequestDisciplineExactly(policy, price, run, steps, |run| - 1);
    assert b.log[3].body.Started? && b.log[5].body == Drafts(d)[0];
    assert PivotStartedBefore(b.log, 5, 9);
  }

  lemma RunLength(policy: Policy, price: Pricing, run: seq<Run>, steps: seq<Step>)
    requires IsRun(policy, price, run, steps)
    ensures |run| > 0
  {
  }

  lemma DisprovedIsOpen(a: Run, tries: Tries)
    requires Inv(a) && a == Run(Written(Tried() + [Failed(2, Some(9), true)]), map[9 := OpenRow(true)], map[])
    ensures CreatedOnce(a.log) && 2 in MembersOf(a.log, 9) && 2 !in Hidden(a.log) && PhaseOf(a.log, 9) == Fenced
      && !IsPlanner(a.log, 2)
    ensures Disagreeing(a.log, View(a.rows, tries)) == {} && 2 in Outstanding(a.log)
  {
    hide Outstanding, Disagreeing;
    NoGapAgrees(a, tries);
    assert AgreesAt(a, 9);
    CreatedOfAt(a.log, 1);
    CreatedIsMember(a.log, 2, 9);
    NothingAnswered(a.log);
    OutstandingIs(a.log, 2);
  }
}
