/**
 How often the ladder may act in one run.

 Every failure that is not its own replan point is answered once; every planner and every
 episode has its budget; and so the number of times the ladder acts at all is bounded by
 the planners, vertices and scopes the run has.
 */
module RecoveryBounds {
  import opened EventLog
  import opened CausalGraph
  import opened ScopePhases
  import opened RunOracles
  import opened RecoveryLadder
  import opened LadderFacts
  import opened RunProtocol
  import opened RunInvariant
  import opened RecoverySafety
  import opened RunSafety

  /* ---------------------------------------------------------------- counting */

  function Count(log: Log, p: Body -> bool): (n: nat) {
    if log == [] then 0 else Count(log[..|log| - 1], p) + if p(log[|log| - 1].body) then 1 else 0
  }

  predicate Selecting(b: Body) { b.Boundary? && b.selected.Some? }
  predicate Escalating(b: Body) { b.Boundary? && b.selected.None? }
  predicate Requesting(b: Body) { b.CancelRequested? }

  /** Replans recorded after a position. */
  function SelectionsAfter(log: Log, runSeq: nat): (n: nat) {
    if log == [] then 0
    else
      var last := log[|log| - 1];
      SelectionsAfter(log[..|log| - 1], runSeq) + if Selecting(last.body) && last.runSeq > runSeq then 1 else 0
  }

  function PlannerIds(log: Log): (ids: set<Id>) {
    set i | 0 <= i < |log| && log[i].body.Created? && log[i].body.role == Planner :: log[i].body.vertex
  }

  /** Replans at a planner of this set. */
  function SelectionsAmong(log: Log, ps: set<Id>): (n: nat) {
    if log == [] then 0
    else
      var b := log[|log| - 1].body;
      SelectionsAmong(log[..|log| - 1], ps) + if Selecting(b) && b.selected.value in ps then 1 else 0
  }

  lemma {:induction false} SelectionsSplit(log: Log, ps: set<Id>, p: Id)
    requires p in ps
    ensures SelectionsAmong(log, ps) == SelectionsAmong(log, ps - {p}) + TimesSelected(log, p)
  {
    if log != [] { SelectionsSplit(log[..|log| - 1], ps, p); }
  }

  lemma {:induction false} SelectionsEmpty(log: Log)
    ensures SelectionsAmong(log, {}) == 0
  {
    if log != [] { SelectionsEmpty(log[..|log| - 1]); }
  }

  /** Where every planner keeps its budget, the planners together keep theirs. */
  lemma {:induction false} SelectionsBounded(log: Log, ps: set<Id>, limit: nat)
    requires forall p: Id :: TimesSelected(log, p) <= limit
    ensures SelectionsAmong(log, ps) <= limit * |ps|
    decreases |ps|
  {
    if ps == {} {
      SelectionsEmpty(log);
    } else {
      var p :| p in ps;
      SelectionsSplit(log, ps, p);
      SelectionsBounded(log, ps - {p}, limit);
      assert |ps - {p}| == |ps| - 1;
      assert limit * (|ps| - 1) + limit == limit * |ps|;
    }
  }

  lemma {:induction false} SelectionsAll(log: Log, ps: set<Id>)
    requires forall i :: 0 <= i < |log| && Selecting(log[i].body) ==> log[i].body.selected.value in ps
    ensures Count(log, Selecting) == SelectionsAmong(log, ps)
  {
    if log != [] {
      var n := |log| - 1;
      assert forall i :: 0 <= i < n ==> log[..n][i] == log[i];
      SelectionsAll(log[..n], ps);
    }
  }

  /* ---------------------------------------------------------------- what an append keeps */

  ghost predicate Prefix(log: Log, next: Log) { |log| <= |next| && next[..|log|] == log }

  lemma {:induction false} AnswersGrow(log: Log, next: Log)
    requires Prefix(log, next)
    ensures Hidden(log) <= Hidden(next) && Escalated(log) <= Escalated(next) && AnsweredBy(log) <= AnsweredBy(next)
    decreases |next|
  {
    if |log| < |next| {
      assert next[..|next| - 1][..|log|] == log;
      AnswersGrow(log, next[..|next| - 1]);
    } else {
      assert next[..|next|] == next;
    }
  }

  lemma {:induction false} SuccessGrows(log: Log, next: Log, v: Id)
    requires Prefix(log, next) && SuccessSeq(log, v).Some?
    ensures SuccessSeq(next, v).Some?
    decreases |next|
  {
    if |log| < |next| {
      assert next[..|next| - 1][..|log|] == log;
      SuccessGrows(log, next[..|next| - 1], v);
    } else {
      assert next[..|next|] == next;
    }
  }

  lemma {:induction false} BatchGrows(log: Log, next: Log, n: nat)
    requires Prefix(log, next) && n <= |log| && (|log| < |next| ==> !next[|log|].body.Created?)
    ensures FrozenVertices(next, n) == FrozenVertices(log, n)
    decreases |log| - n
  {
    if n < |log| {
      assert next[n] == log[n];
      BatchGrows(log, next, n + 1);
    }
  }

  lemma ResolvedGrows(log: Log, next: Log, n: nat)
    requires Prefix(log, next) && n < |log| && (|log| < |next| ==> !next[|log|].body.Created?) && Resolved(log, n)
    ensures Resolved(next, n)
  {
    assert next[n] == log[n];
    BatchGrows(log, next, n + 1);
    forall v | v in FrozenVertices(next, n + 1) ensures SuccessSeq(next, v).Some? { SuccessGrows(log, next, v); }
  }

  lemma {:induction false} LastResolvedIs(log: Log, n: nat)
    requires Numbered(log) && n <= |log|
    ensures LastResolvedBefore(log, n) == 0 || exists k ::
      0 <= k < n && Resolved(log, k) && log[k].runSeq == LastResolvedBefore(log, n)
    ensures forall k :: 0 <= k < n && Resolved(log, k) ==> log[k].runSeq <= LastResolvedBefore(log, n)
  {
    if n > 0 { LastResolvedIs(log, n - 1); }
  }

  /** An episode that has ended stays ended: a freeze's batch is appended whole. */
  lemma LastResolvedGrows(log: Log, next: Log)
    requires Numbered(log) && Numbered(next) && Prefix(log, next) && (|log| < |next| ==> !next[|log|].body.Created?)
    ensures LastResolved(log) <= LastResolved(next)
  {
    LastResolvedIs(log, |log|);
    LastResolvedIs(next, |next|);
    if LastResolved(log) != 0 {
      var k :| 0 <= k < |log| && Resolved(log, k) && log[k].runSeq == LastResolved(log);
      ResolvedGrows(log, next, k);
      assert next[k] == log[k];
    }
  }

  lemma {:induction false} SelectionsAfterLater(log: Log, from: nat, to: nat)
    requires from <= to
    ensures SelectionsAfter(log, to) <= SelectionsAfter(log, from)
  {
    if log != [] { SelectionsAfterLater(log[..|log| - 1], from, to); }
  }

  lemma {:induction false} SelectionsWithinBoundaries(log: Log, runSeq: nat)
    ensures SelectionsAfter(log, runSeq) <= BoundariesAfter(log, runSeq)
  {
    if log != [] { SelectionsWithinBoundaries(log[..|log| - 1], runSeq); }
  }

  lemma {:induction false} FailureBetween(log: Log, next: Log, v: Id)
    requires Prefix(log, next) && LastOutcome(log, v) != DidFail && LastOutcome(next, v) == DidFail
    ensures exists k :: |log| <= k < |next| && FailsAt(next, k, v)
    decreases |next|
  {
    assert next[..|next|] == next;
    var n := |next| - 1;
    if FailsAt(next, n, v) {
    } else {
      assert next[..n][..|log|] == log;
      FailureBetween(log, next[..n], v);
      var k :| |log| <= k < n && FailsAt(next[..n], k, v);
      assert FailsAt(next, k, v);
    }
  }

  /* ---------------------------------------------------------------- one answer per failure */

  /** An answered vertex is discarded, escalated, or was sent back to itself. */
  ghost predicate Settles(log: Log, b: Body)
    requires b.Boundary?
  {
    b.answered in Hidden(log) || b.answered in Escalated(log) || b.selected == Some(b.answered)
  }

  /** The boundary at `i` answers a failed planner by resuming that very planner. */
  ghost predicate SelfAnswered(log: Log, i: nat)
    requires i < |log| && log[i].body.Boundary?
  {
    log[i].body.selected == Some(log[i].body.answered) && LastOutcome(log[..i], log[i].body.answered) == DidFail
  }

  ghost predicate FailedBetween(log: Log, i: nat, j: nat, v: Id)
    requires i < j < |log|
  {
    exists k :: i < k < j && FailsAt(log, k, v)
  }

  /** Whenever a vertex is answered again, it failed again or its earlier answer resumed itself. */
  ghost predicate AnsweredAgain(log: Log) {
    forall i, j :: 0 <= i < j < |log| && AnswerAlike(log, i, j) ==> AgainFor(log, i, j)
  }

  /** The first of these two answers resumed its own vertex, which was failed then or failed in between. */
  ghost predicate AgainFor(log: Log, i: nat, j: nat)
    requires i < j < |log| && log[i].body.Boundary?
  {
    && log[i].body.selected == Some(log[i].body.answered)
    && (FailedBetween(log, i, j, log[i].body.answered) || SelfAnswered(log, i))
  }

  ghost predicate AnswersSettle(log: Log) {
    forall i :: 0 <= i < |log| && log[i].body.Boundary? ==> Settles(log, log[i].body)
  }

  lemma QuietAnswers(log: Log, next: Log, bodies: seq<Body>)
    requires AnswersSettle(log) && AnsweredAgain(log) && Appended(log, next, bodies)
    requires forall k :: 0 <= k < |bodies| ==> !bodies[k].Boundary?
    ensures AnswersSettle(next) && AnsweredAgain(next)
  {
    hide Hidden, Escalated, AnsweredBy, AgainFor, Numbered;
    AnswersGrow(log, next);
    assert forall i :: |log| <= i < |next| ==> next[i].body == bodies[i - |log|];
    assert forall i :: 0 <= i < |log| ==> log[i] == next[i];
    forall i, j | 0 <= i < j < |next| && AnswerAlike(next, i, j) ensures AgainFor(next, i, j) {
      assert AnswerAlike(log, i, j);
      OldPair(log, next, i, j);
    }
  }

  lemma OldPair(log: Log, next: Log, i: nat, j: nat)
    requires Prefix(log, next) && i < j < |log| && log[i].body.Boundary? && AgainFor(log, i, j)
    ensures next[i] == log[i] && AgainFor(next, i, j)
  {
    assert next[i] == log[i] && next[..i] == log[..i];
    if FailedBetween(log, i, j, log[i].body.answered) {
      var k :| i < k < j && FailsAt(log, k, log[i].body.answered);
      assert next[k] == log[k];
      assert FailsAt(next, k, next[i].body.answered);
    }
  }

  /** What a recorded decision leaves behind. */
  lemma RecordSettles(policy: Policy, price: Pricing, a: Run, b: Run, v: Id, tries: Tries)
    requires Inv(a) && Takes(policy, price, a, Recover(v, tries), b)
    requires SelectBoundary(a.log, v, policy, price, Some(View(a.rows, tries))).action == Record
    ensures |a.log| < |b.log| && b.log[|a.log|].body.Boundary? && b.log[|a.log|].body.answered == v
    ensures Settles(b.log, b.log[|a.log|].body)
  {
    hide SelectBoundary, Coherent, Sound, RunBlocks, AncestorPlanners, Episode, RuleAuthored, TimesSelected,
      BacktrackFloor, Outstanding, Descendants, Unresolved, WorkIsCreated, CreatedOnce, View, Disagreeing,
      IsFinalEscalation, IsOpenRequest, ScopesMeeting, SuspendedScopes, NeverDeclaredCancelled, Numbered,
      CitesCancelled;
    var locked := Some(View(a.rows, tries));
    var d := SelectBoundary(a.log, v, policy, price, locked);
    var n := |a.log|;
    DecisionFacts(a.log, v, policy, price, locked);
    assert b.log[n].body == Drafts(d)[0];
    OneMore(a.log, b.log, n);
    AnswersGrow(a.log, b.log);
    if d.selected.None? {
      AnswersGrow(b.log[..n + 1], b.log);
    } else if d.selected != Some(v) {
      SelectionDiscards(a.log, d);
      assert b.log[n + 1].body == Drafts(d)[1];
      assert b.log[..n + 2] == b.log;
      OneMore(b.log[..n + 1], b.log, n + 1);
    }
  }

  lemma {:induction false} OneMore(log: Log, next: Log, n: nat)
    requires n == |log| < |next| && next[..n] == log
    ensures Hidden(next[..n + 1]) == Hidden(log) + if next[n].body.Shadowed? then next[n].body.hidden else {}
    ensures Escalated(next[..n + 1]) == Escalated(log) + if next[n].body.Boundary? && next[n].body.selected.None?
      then {next[n].body.answered} else {}
    ensures AnsweredBy(next[..n + 1]) == AnsweredBy(log) + if next[n].body.Boundary? then {next[n].body.answered}
      else {}
  {
    assert next[..n + 1][..n] == log;
  }

  /** Replanning above a vertex discards it. */
  lemma {:induction false} SelectionDiscards(log: Log, d: Decision)
    requires CreatedOnce(log) && d.selected.Some? && d.selected.value != d.failed
    requires d.shadowed == ShadowSet(log, d.selected.value)
    requires exists e :: e in AncestorPlanners(log, d.failed) && e.planner == d.selected.value
    ensures d.failed in d.shadowed + Hidden(log)
    ensures IsPlanner(log, d.selected.value)
  {
    var e :| e in AncestorPlanners(log, d.failed) && e.planner == d.selected.value;
    hide AncestorPlanners, Descendants;
    AncestorPlannersExact(log, d.failed);
    assert Belongs(log, d.failed, e);
    WalksAgree(log, d.failed, e.planner);
  }

  lemma {:induction false} AnsweredIs(log: Log, i: nat)
    requires i < |log| && log[i].body.Boundary?
    ensures log[i].body.answered in AnsweredBy(log)
  {
    OneMore(log[..i], log, i);
    AnswersGrow(log[..i + 1], log);
  }

  /** A second answer finds the vertex failed, undiscarded and unescalated: its first answer resumed itself. */
  lemma {:induction false} SecondAnswer(a: Run, v: Id, i: nat)
    requires AnswersSettle(a.log) && v in Outstanding(a.log)
    requires i < |a.log| && a.log[i].body.Boundary? && a.log[i].body.answered == v
    ensures a.log[i].body.selected == Some(v)
    ensures LastOutcome(a.log[..i], v) == DidFail || exists k :: i < k < |a.log| && FailsAt(a.log, k, v)
  {
    AnsweredIs(a.log, i);
    OutstandingIs(a.log, v);
    assert Settles(a.log, a.log[i].body);
    if LastOutcome(a.log[..i], v) != DidFail {
      FailureBetween(a.log[..i], a.log, v);
      var k :| i <= k < |a.log| && FailsAt(a.log, k, v);
      assert k != i;
    }
  }

  /** The answers a recorded decision adds, none of which undoes an earlier one. */
  lemma RecordAnswers(a: Run, b: Run, d: Decision, v: Id)
    requires AnswersSettle(a.log) && AnsweredAgain(a.log) && v in Outstanding(a.log)
    requires d.action == Record && d.failed == v && Appended(a.log, b.log, Drafts(d)) && Settles(b.log, Drafts(d)[0])
    ensures AnswersSettle(b.log) && AnsweredAgain(b.log)
  {
    RecordedAre(a.log, b.log, d);
    hide Outstanding, Numbered, Drafts, Settles, AgainFor, AnswersSettle;
    SettledStay(a.log, b.log, d);
    forall i, j | 0 <= i < j < |b.log| && AnswerAlike(b.log, i, j) ensures AgainFor(b.log, i, j) {
      if j < |a.log| {
        assert a.log[i] == b.log[i] && a.log[j] == b.log[j];
        assert AnswerAlike(a.log, i, j);
        OldPair(a.log, b.log, i, j);
      } else {
        NewPair(a, b, v, i);
      }
    }
  }

  /** Of the events a recorded decision appends only the first is a boundary. */
  lemma RecordedAre(log: Log, next: Log, d: Decision)
    requires d.action == Record && Appended(log, next, Drafts(d))
    ensures |log| < |next| && next[|log|].body == Drafts(d)[0]
      && next[|log|].body == Boundary(d.failed, d.selected, d.cancelled)
    ensures forall k :: |log| < k < |next| ==> !next[k].body.Boundary?
  {
  }

  lemma SettledStay(log: Log, next: Log, d: Decision)
    requires AnswersSettle(log) && Prefix(log, next) && |log| < |next| && next[|log|].body.Boundary?
    requires Settles(next, next[|log|].body) && forall k :: |log| < k < |next| ==> !next[k].body.Boundary?
    ensures AnswersSettle(next)
  {
    AnswersGrow(log, next);
    hide Hidden, Escalated, AnsweredBy;
    forall i | 0 <= i < |next| && next[i].body.Boundary? ensures Settles(next, next[i].body) {
      if i < |log| { assert log[i] == next[i]; }
    }
  }

  lemma NewPair(a: Run, b: Run, v: Id, i: nat)
    requires AnswersSettle(a.log) && v in Outstanding(a.log) && Prefix(a.log, b.log) && |a.log| < |b.log|
    requires i < |a.log| && b.log[i].body.Boundary? && b.log[i].body.answered == v
    ensures AgainFor(b.log, i, |a.log|)
  {
    hide Outstanding, AnswersSettle, LastOutcome;
    assert a.log[i] == b.log[i] && b.log[..i] == a.log[..i];
    SecondAnswer(a, v, i);
    if k :| i < k < |a.log| && FailsAt(a.log, k, v) {
      assert b.log[k] == a.log[k];
      assert FailsAt(b.log, k, v);
    }
  }

  lemma StepAnswers(policy: Policy, price: Pricing, a: Run, step: Step, b: Run)
    requires Inv(a) && AnswersSettle(a.log) && AnsweredAgain(a.log) && Takes(policy, price, a, step, b)
    ensures AnswersSettle(b.log) && AnsweredAgain(b.log)
  {
    hide *;
    if step.Recover? {
      RecoverAnswers(policy, price, a, step.v, step.tries, b);
    } else {
      OrdinaryAnswers(policy, price, a, step, b);
    }
  }

  lemma RecoverAnswers(policy: Policy, price: Pricing, a: Run, v: Id, tries: Tries, b: Run)
    requires Inv(a) && AnswersSettle(a.log) && AnsweredAgain(a.log) && Takes(policy, price, a, Recover(v, tries), b)
    ensures AnswersSettle(b.log) && AnsweredAgain(b.log)
  {
    hide SelectBoundary, Inv, Outstanding, AnswersSettle, AnsweredAgain, View, Settles, IsLegalSelection,
      IsFinalEscalation, IsOpenRequest, Disagreeing, Appended, AskRows;
    var locked := Some(View(a.rows, tries));
    var d := SelectBoundary(a.log, v, policy, price, locked);
    if d.action == Record {
      DecisionFacts(a.log, v, policy, price, locked);
      RecordSettles(policy, price, a, b, v, tries);
      RecordedAre(a.log, b.log, d);
      RecordAnswers(a, b, d, v);
    } else {
      QuietAnswers(a.log, b.log, Drafts(d));
    }
  }

  lemma OrdinaryAnswers(policy: Policy, price: Pricing, a: Run, step: Step, b: Run)
    requires Inv(a) && AnswersSettle(a.log) && AnsweredAgain(a.log) && !step.Recover?
      && Takes(policy, price, a, step, b)
    ensures AnswersSettle(b.log) && AnsweredAgain(b.log)
  {
    hide Takes, StepBodies, Coherent, Sound, WorkIsCreated, CreatedOnce, NeverDeclaredCancelled, Numbered, Appended,
      AnswersSettle, AnsweredAgain;
    OrdinaryBodies(policy, price, a, step, b);
    OrdinaryAppended(policy, price, a, step, b);
    var bodies := StepBodies(a, step);
    forall k | 0 <= k < |bodies| ensures !bodies[k].Boundary? { assert IsPlain(a.log, bodies[k]); }
    QuietAnswers(a.log, b.log, bodies);
  }

  lemma {:induction false} RunAnswers(policy: Policy, price: Pricing, run: seq<Run>, steps: seq<Step>, k: nat)
    requires IsRun(policy, price, run, steps) && k < |run|
    ensures AnswersSettle(run[k].log) && AnsweredAgain(run[k].log)
  {
    hide Takes, Inv;
    if k > 0 {
      RunAnswers(policy, price, run, steps, k - 1);
      RunInv(policy, price, run, steps, k - 1);
      StepAnswers(policy, price, run[k - 1], steps[k - 1], run[k]);
    }
  }

  /**
   One answer per failure: in every run the oracle passes unless some failed planner was
   answered by resuming itself; and a vertex that is not resumed is answered at most once.
   */
  lemma OneAnswerUnlessSelfAnswered(policy: Policy, price: Pricing, run: seq<Run>, steps: seq<Step>, k: nat)
    requires IsRun(policy, price, run, steps) && k < |run|
    ensures var log := run[k].log;
      (forall i :: 0 <= i < |log| && log[i].body.Boundary? ==> !SelfAnswered(log, i)) ==> OneAnswerPerFailure(log)
    ensures AnsweredAgain(run[k].log)
  {
    RunAnswers(policy, price, run, steps, k);
    var log := run[k].log;
    hide IsRun, AnswersSettle;
    if forall i :: 0 <= i < |log| && log[i].body.Boundary? ==> !SelfAnswered(log, i) {
      forall i, j | 0 <= i < j < |log| && AnswerAlike(log, i, j)
        ensures exists m :: i < m < j && FailsAt(log, m, log[i].body.answered)
      {
        assert AgainFor(log, i, j) && !SelfAnswered(log, i);
      }
    }
  }

  /**
   Only a planner that had succeeded before is ever answered again; any other vertex is named by one boundary at
   most.
   */
  lemma AnsweredAgainIsPlanner(policy: Policy, price: Pricing, run: seq<Run>, steps: seq<Step>, k: nat, i: nat, j: nat)
    requires IsRun(policy, price, run, steps) && k < |run| && i < j < |run[k].log|
    requires run[k].log[i].body.Boundary? && run[k].log[j].body.Boundary?
      && run[k].log[i].body.answered == run[k].log[j].body.answered
    ensures var v := run[k].log[i].body.answered; v in PlannerIds(run[k].log) && SuccessSeq(run[k].log[..i], v).Some?
  {
    hide IsRun, AnswersSettle;
    RunAnswers(policy, price, run, steps, k);
    RunLedger(policy, price, run, steps, k);
    assert AnswerAlike(run[k].log, i, j);
    assert AgainFor(run[k].log, i, j);
    SelectedIs(policy, run[k], i);
  }

  lemma SelectedIs(policy: Policy, a: Run, i: nat)
    requires Ledger(policy, a) && i < |a.log| && Selecting(a.log[i].body)
    ensures a.log[i].body.selected.value in PlannerIds(a.log) && AboveFloor(a.log[..i], a.log[i].body.selected.value)
  {
  }

  /** A planner that had succeeded fails. */
  ghost predicate RelapsesAt(log: Log, k: nat)
    requires k < |log|
  {
    log[k].body.Failed? && log[k].body.vertex in PlannerIds(log) && SuccessSeq(log[..k], log[k].body.vertex).Some?
  }

  ghost predicate NoRelapse(log: Log) { forall k :: 0 <= k < |log| ==> !RelapsesAt(log, k) }

  lemma {:induction false} FailedAfterSuccess(log: Log, v: Id)
    requires LastOutcome(log, v) == DidFail && SuccessSeq(log, v).Some?
    ensures exists k ::
      0 <= k < |log| && log[k].body.Failed? && log[k].body.vertex == v && SuccessSeq(log[..k], v).Some?
  {
    var n := |log| - 1;
    if !(log[n].body.Failed? && log[n].body.vertex == v) {
      FailedAfterSuccess(log[..n], v);
      var k :| 0 <= k < n && log[..n][k].body.Failed? && log[..n][k].body.vertex == v
        && SuccessSeq(log[..n][..k], v).Some?;
      assert log[..n][..k] == log[..k];
      assert log[k].body.Failed? && log[k].body.vertex == v;
    }
  }

  lemma SelfAnswerRelapses(policy: Policy, a: Run, i: nat)
    requires Ledger(policy, a) && i < |a.log| && a.log[i].body.Boundary? && SelfAnswered(a.log, i)
    ensures !NoRelapse(a.log)
  {
    var log, v := a.log, a.log[i].body.answered;
    assert Selecting(log[i].body);
    FailedAfterSuccess(log[..i], v);
    var m :| 0 <= m < i && log[..i][m].body.Failed? && log[..i][m].body.vertex == v
      && SuccessSeq(log[..i][..m], v).Some?;
    assert log[..i][..m] == log[..m] && log[..i][m] == log[m];
    assert RelapsesAt(log, m);
  }

  /** One answer per failure, in every run in which no planner fails after it succeeded. */
  lemma OneAnswerWithoutRelapse(policy: Policy, price: Pricing, run: seq<Run>, steps: seq<Step>, k: nat)
    requires IsRun(policy, price, run, steps) && k < |run| && NoRelapse(run[k].log)
    ensures OneAnswerPerFailure(run[k].log)
  {
    var log := run[k].log;
    hide IsRun, OneAnswerPerFailure, AnsweredAgain;
    OneAnswerUnlessSelfAnswered(policy, price, run, steps, k);
    RunLedger(policy, price, run, steps, k);
    forall i | 0 <= i < |log| && log[i].body.Boundary? ensures !SelfAnswered(log, i) {
      if SelfAnswered(log, i) { SelfAnswerRelapses(policy, run[k], i); }
    }
  }

  /**
   The step behind it: an answer leaves its failure outstanding exactly when it resumes the failed vertex itself,
   which nothing then discards.
   */
  lemma AnswerLeavesOutstanding(policy: Policy, price: Pricing, a: Run, b: Run, v: Id, tries: Tries)
    requires Inv(a) && Takes(policy, price, a, Recover(v, tries), b) && Unrecovered(a.log, v)
    requires SelectBoundary(a.log, v, policy, price, Some(View(a.rows, tries))).action == Record
    ensures Unrecovered(b.log, v) <==>
      SelectBoundary(a.log, v, policy, price, Some(View(a.rows, tries))).selected == Some(v)
        && v !in Descendants(a.log, v)
  {
    hide SelectBoundary, Coherent, Sound, Outstanding, WorkIsCreated, CreatedOnce, View, Unrecovered, Descendants,
      Settles, Numbered, RunBlocks, AncestorPlanners, Episode, RuleAuthored, TimesSelected, BacktrackFloor,
      Unresolved, ScopesMeeting, SuspendedScopes, IsFinalEscalation, IsOpenRequest, Disagreeing,
      NeverDeclaredCancelled;
    var locked := Some(View(a.rows, tries));
    var d := SelectBoundary(a.log, v, policy, price, locked);
    DecisionFacts(a.log, v, policy, price, locked);
    RecordSettles(policy, price, a, b, v, tries);
    assert b.log[|a.log|].body == Drafts(d)[0];
    RecordLeaves(a.log, b.log, d);
  }

  lemma RecordLeaves(log: Log, next: Log, d: Decision)
    requires d.action == Record && Appended(log, next, Drafts(d)) && Unrecovered(log, d.failed)
      && Settles(next, Drafts(d)[0])
    requires d.selected.Some? ==> d.shadowed == ShadowSet(log, d.selected.value)
    ensures Unrecovered(next, d.failed) <==> d.selected == Some(d.failed) && d.failed !in Descendants(log, d.failed)
  {
    hide Descendants, Numbered;
    var n := |log|;
    assert next[n].body == Drafts(d)[0];
    OneMore(log, next, n);
    assert next[..n + 1][..n] == log;
    assert LastOutcome(next[..n + 1], d.failed) == LastOutcome(log, d.failed);
    if d.selected.Some? {
      assert next[n + 1].body == Drafts(d)[1];
      assert next[..n + 2] == next;
      assert LastOutcome(next, d.failed) == LastOutcome(next[..n + 1], d.failed);
      OneMore(next[..n + 1], next, n + 1);
    } else {
      assert next[..n + 1] == next;
    }
  }

  /* ---------------------------------------------------------------- budgets */

  /** Every scope the ladder has asked for. */
  function AskedIds(log: Log): (ids: set<Id>) {
    if log == [] then {}
    else
      var b := log[|log| - 1].body;
      AskedIds(log[..|log| - 1]) + if b.CancelRequested? then b.requested else {}
  }

  lemma {:induction false} AskedIsKept(log: Log, s: Id)
    requires s in AskedIds(log)
    ensures Scope(log, s).Some? && Scope(log, s).value.requestedFor.Some?
  {
    var n := |log| - 1;
    if s in AskedIds(log[..n]) { AskedIsKept(log[..n], s); }
  }

  /** Resuming at `p` after this log crosses no passed pivot: the planner succeeded at or after the last one. */
  ghost predicate AboveFloor(log: Log, p: Id) {
    SuccessSeq(log, p).Some? && BacktrackFloor(log) <= SuccessSeq(log, p).value
  }

  ghost predicate FloorKept(log: Log) {
    forall i :: 0 <= i < |log| && Selecting(log[i].body) ==> AboveFloor(log[..i], log[i].body.selected.value)
  }

  lemma FloorGrows(log: Log, next: Log)
    requires FloorKept(log) && Prefix(log, next)
    requires forall k :: |log| <= k < |next| && Selecting(next[k].body) ==>
      k == |log| && AboveFloor(log, next[k].body.selected.value)
    ensures FloorKept(next)
  {
    hide AboveFloor;
    forall i | 0 <= i < |next| && Selecting(next[i].body) ensures AboveFloor(next[..i], next[i].body.selected.value) {
      if i < |log| {
        assert log[i] == next[i] && next[..i] == log[..i];
      }
    }
  }

  /** What the ladder has spent, and on whom. */
  ghost predicate Ledger(policy: Policy, a: Run) {
    && (forall p: Id :: TimesSelected(a.log, p) <= policy.maxPerPlanner)
    && SelectionsAfter(a.log, LastResolved(a.log)) <= policy.maxPerEpisode
    && (forall i :: 0 <= i < |a.log| && Selecting(a.log[i].body) ==> a.log[i].body.selected.value in PlannerIds(a.log))
    && Count(a.log, Escalating) == |Escalated(a.log)|
    && Escalated(a.log) <= CreatedIds(a.log)
    && Count(a.log, Requesting) <= |AskedIds(a.log)|
    && AskedIds(a.log) <= a.rows.Keys
    && FloorKept(a.log)
    && (Count(a.log, Selecting) > 0 ==> policy.maxPerEpisode > 0)
  }

  /** Events that answer nothing spend nothing. */
  lemma {:induction false} QuietSpends(log: Log, next: Log)
    requires Prefix(log, next) && forall k :: |log| <= k < |next| ==> !Answering(next[k].body)
    ensures Count(next, Selecting) == Count(log, Selecting)
    ensures Count(next, Escalating) == Count(log, Escalating)
    ensures Count(next, Requesting) == Count(log, Requesting)
    ensures Escalated(next) == Escalated(log) && AskedIds(next) == AskedIds(log)
    ensures forall p: Id :: TimesSelected(next, p) == TimesSelected(log, p)
    ensures forall q: nat :: SelectionsAfter(next, q) == SelectionsAfter(log, q)
    decreases |next|
  {
    if |log| < |next| {
      var n := |next| - 1;
      assert next[..n][..|log|] == log;
      QuietSpends(log, next[..n]);
    } else {
      assert next[..|next|] == next;
    }
  }

  /** What one answering event spends. */
  lemma {:induction false} OneSpends(log: Log, next: Log, n: nat)
    requires n == |log| < |next| && next[..n] == log
    ensures var now := next[..n + 1]; var b := next[n].body;
      && Count(now, Selecting) == Count(log, Selecting) + (if Selecting(b) then 1 else 0)
      && Count(now, Escalating) == Count(log, Escalating) + (if Escalating(b) then 1 else 0)
      && Count(now, Requesting) == Count(log, Requesting) + (if Requesting(b) then 1 else 0)
      && Escalated(now) == Escalated(log) + (if Escalating(b) then {b.answered} else {})
      && AskedIds(now) == AskedIds(log) + (if Requesting(b) then b.requested else {})
      && (forall p: Id :: TimesSelected(now, p) == TimesSelected(log, p) + (if Selecting(b) && b.selected == Some(p)
        then 1 else 0))
      && (forall q: nat :: SelectionsAfter(now, q) == SelectionsAfter(log, q) + (if Selecting(b) && next[n].runSeq > q
        then 1 else 0))
  {
    assert next[..n + 1][..n] == log;
  }

  lemma PlannersGrow(log: Log, next: Log)
    requires Prefix(log, next)
    ensures PlannerIds(log) <= PlannerIds(next) && CreatedIds(log) <= CreatedIds(next)
  {
    assert forall i :: 0 <= i < |log| ==> log[i] == next[i];
  }

  lemma QuietLedger(policy: Policy, a: Run, b: Run)
    requires Ledger(policy, a) && Numbered(a.log) && Numbered(b.log) && Prefix(a.log, b.log)
      && a.rows.Keys <= b.rows.Keys
    requires |a.log| < |b.log| ==> !b.log[|a.log|].body.Created?
    requires forall k :: |a.log| <= k < |b.log| ==> !Answering(b.log[k].body)
    ensures Ledger(policy, b)
  {
    hide LastResolved, TimesSelected, Numbered, FloorKept, AboveFloor;
    FloorGrows(a.log, b.log);
    QuietSpends(a.log, b.log);
    PlannersGrow(a.log, b.log);
    LastResolvedGrows(a.log, b.log);
    SelectionsAfterLater(b.log, LastResolved(a.log), LastResolved(b.log));
    forall i | 0 <= i < |b.log| && Selecting(b.log[i].body) ensures b.log[i].body.selected.value in PlannerIds(b.log) {
      assert i < |a.log| && a.log[i] == b.log[i];
    }
  }

  /** The log after one answering event and perhaps a shadow. */
  ghost predicate Answers(log: Log, next: Log, b: Body) {
    && Prefix(log, next) && Numbered(log) && Numbered(next)
    && |log| < |next| && next[|log|].body == b && Answering(b)
    && (forall k :: |log| < k < |next| ==> !Answering(next[k].body))
  }

  lemma DraftsAnswer(log: Log, next: Log, d: Decision)
    requires d.action != Wait && Numbered(log) && Appended(log, next, Drafts(d))
    ensures Answers(log, next, Drafts(d)[0])
  {
    forall k | |log| < k < |next| ensures !Answering(next[k].body) { assert next[k].body == Drafts(d)[k - |log|]; }
    assert next[|log|].body == Drafts(d)[0];
  }

  lemma {:induction false} AnswerSpends(log: Log, next: Log, b: Body)
    requires Answers(log, next, b)
    ensures Count(next, Selecting) == Count(log, Selecting) + (if Selecting(b) then 1 else 0)
    ensures Count(next, Escalating) == Count(log, Escalating) + (if Escalating(b) then 1 else 0)
    ensures Count(next, Requesting) == Count(log, Requesting) + (if Requesting(b) then 1 else 0)
    ensures Escalated(next) == Escalated(log) + (if Escalating(b) then {b.answered} else {})
    ensures AskedIds(next) == AskedIds(log) + (if Requesting(b) then b.requested else {})
    ensures forall p: Id :: TimesSelected(next, p) == TimesSelected(log, p) + (if Selecting(b)
      && b.selected == Some(p) then 1 else 0)
    ensures forall q: nat :: SelectionsAfter(next, q) <= SelectionsAfter(log, q) + (if Selecting(b) then 1 else 0)
  {
    hide Numbered, TimesSelected, SelectionsAfter, Count, Escalated, AskedIds;
    var n := |log|;
    OneSpends(log, next, n);
    assert next[..n + 1][..n + 1] == next[..n + 1];
    QuietSpends(next[..n + 1], next);
  }

  /** The books after any answer: each kind of answer must be covered by what it was allowed to spend. */
  lemma AnswerLedger(policy: Policy, a: Run, b: Run, body: Body)
    requires Ledger(policy, a) && Answers(a.log, b.log, body) && a.rows.Keys <= b.rows.Keys
    requires Selecting(body) ==>
      && TimesSelected(a.log, body.selected.value) < policy.maxPerPlanner
      && Episode(a.log) < policy.maxPerEpisode
      && body.selected.value in PlannerIds(a.log)
      && AboveFloor(a.log, body.selected.value)
    requires Escalating(body) ==> body.answered !in Escalated(a.log) && body.answered in CreatedIds(a.log)
    requires Requesting(body) ==>
      body.requested != {} && body.requested !! AskedIds(a.log) && body.requested <= a.rows.Keys
    ensures Ledger(policy, b)
  {
    hide LastResolved, TimesSelected, Numbered, SelectionsAfter, Count, Escalated, AskedIds, BoundariesAfter, FloorKept,
      AboveFloor, PlannerIds, CreatedIds;
    FloorGrows(a.log, b.log);
    AnswerSpends(a.log, b.log, body);
    PlannersGrow(a.log, b.log);
    EpisodeSpends(policy, a.log, b.log, body);
    SelectsPlanners(a.log, b.log, body);
  }

  /** The replans of an episode stay within its budget. */
  lemma {:induction false} EpisodeSpends(policy: Policy, log: Log, next: Log, b: Body)
    requires Answers(log, next, b) && SelectionsAfter(log, LastResolved(log)) <= policy.maxPerEpisode
    requires Selecting(b) ==> Episode(log) < policy.maxPerEpisode
    ensures SelectionsAfter(next, LastResolved(next)) <= policy.maxPerEpisode
  {
    hide LastResolved, Numbered, SelectionsAfter, BoundariesAfter, Count, Escalated, AskedIds, TimesSelected;
    AnswerSpends(log, next, b);
    LastResolvedGrows(log, next);
    SelectionsAfterLater(next, LastResolved(log), LastResolved(next));
    SelectionsWithinBoundaries(log, LastResolved(log));
  }

  lemma SelectsPlanners(log: Log, next: Log, b: Body)
    requires Answers(log, next, b) && (Selecting(b) ==> b.selected.value in PlannerIds(log))
    requires forall i :: 0 <= i < |log| && Selecting(log[i].body) ==> log[i].body.selected.value in PlannerIds(log)
    ensures forall i :: 0 <= i < |next| && Selecting(next[i].body) ==> next[i].body.selected.value in PlannerIds(next)
  {
    hide Numbered, PlannerIds, CreatedIds;
    PlannersGrow(log, next);
    forall i | 0 <= i < |next| && Selecting(next[i].body) ensures next[i].body.selected.value in PlannerIds(next) {
      if i < |log| { assert log[i] == next[i]; }
    }
  }

  lemma RecoverLedger(policy: Policy, price: Pricing, a: Run, b: Run, v: Id, tries: Tries)
    requires Inv(a) && Ledger(policy, a) && Takes(policy, price, a, Recover(v, tries), b)
    ensures Ledger(policy, b)
  {
    hide SelectBoundary, Coherent, Sound, Outstanding, WorkIsCreated, CreatedOnce, View, Ledger, RunBlocks,
      AncestorPlanners, Episode, RuleAuthored, TimesSelected, BacktrackFloor, Unresolved, ScopesMeeting,
      SuspendedScopes, Disagreeing, NeverDeclaredCancelled, Escalated, AskedIds, Numbered, Answers, CreatedIds,
      PlannerIds, IsCreated, IsPlanner, AboveFloor;
    var locked := Some(View(a.rows, tries));
    var d := SelectBoundary(a.log, v, policy, price, locked);
    DecisionFacts(a.log, v, policy, price, locked);
    DraftsAnswer(a.log, b.log, d);
    OutstandingSpends(a, v);
    if d.action == Request {
      RequestNeverRefused(policy, price, a, v, tries);
      RequestIsNew(a, d);
    } else if d.selected.Some? {
      SelectionIsPlanner(a.log, d);
    }
    AnswerLedger(policy, a, b, Drafts(d)[0]);
  }

  lemma OutstandingSpends(a: Run, v: Id)
    requires WorkIsCreated(a) && v in Outstanding(a.log)
    ensures v !in Escalated(a.log) && v in CreatedIds(a.log)
  {
    OutstandingIsCreated(a, v);
    OutstandingIs(a.log, v);
    EscalatedIsAnswered(a.log);
  }

  lemma {:induction false} EscalatedIsAnswered(log: Log)
    ensures Escalated(log) <= AnsweredBy(log)
  {
    if log != [] { EscalatedIsAnswered(log[..|log| - 1]); }
  }

  lemma RequestIsNew(a: Run, d: Decision)
    requires Inv(a) && IsOpenRequest(a.log, d)
    ensures d.requestScopes !! AskedIds(a.log)
  {
    hide Inv;
    RequestAskSound(a, d);
    forall s | s in d.requestScopes && s in AskedIds(a.log) ensures false {
      AskedIsKept(a.log, s);
    }
  }

  lemma {:induction false} SelectionIsPlanner(log: Log, d: Decision)
    requires CreatedOnce(log) && d.selected.Some?
    requires exists e ::
      e in AncestorPlanners(log, d.failed) && e.planner == d.selected.value && BacktrackFloor(log) <= e.succeededAt
    ensures d.selected.value in PlannerIds(log) && AboveFloor(log, d.selected.value)
  {
    var e :| e in AncestorPlanners(log, d.failed) && e.planner == d.selected.value
      && BacktrackFloor(log) <= e.succeededAt;
    hide AncestorPlanners, BacktrackFloor;
    AncestorPlannersExact(log, d.failed);
    assert Belongs(log, d.failed, e);
    CreatedOfSome(log, e.planner);
    var i :| 0 <= i < |log| && log[i].body == CreatedOf(log, e.planner).value;
    assert log[i].body.Created? && log[i].body.role == Planner;
  }

  lemma StepLedger(policy: Policy, price: Pricing, a: Run, step: Step, b: Run)
    requires Inv(a) && Ledger(policy, a) && Takes(policy, price, a, step, b)
    ensures Ledger(policy, b)
  {
    if step.Recover? {
      hide *;
      RecoverLedger(policy, price, a, b, step.v, step.tries);
    } else {
      OrdinaryBodies(policy, price, a, step, b);
      OrdinaryAppended(policy, price, a, step, b);
      KeepsRows(policy, price, a, step, b);
      var bodies := StepBodies(a, step);
      assert bodies != [] ==> !bodies[0].Created?;
      hide Takes, StepBodies, Coherent, Sound, WorkIsCreated, CreatedOnce, Ledger;
      QuietLedger(policy, a, b);
    }
  }

  lemma KeepsRows(policy: Policy, price: Pricing, a: Run, step: Step, b: Run)
    requires Takes(policy, price, a, step, b)
    ensures a.rows.Keys <= b.rows.Keys
  {
    hide SelectBoundary, Appended, Outstanding, FreshWork, IsNote, IsReport, CreatedOf;
  }

  lemma {:induction false} RunLedger(policy: Policy, price: Pricing, run: seq<Run>, steps: seq<Step>, k: nat)
    requires IsRun(policy, price, run, steps) && k < |run|
    ensures Ledger(policy, run[k])
  {
    hide Takes, Inv, Ledger;
    if k == 0 {
      StartLedger(policy);
    } else {
      RunLedger(policy, price, run, steps, k - 1);
      RunInv(policy, price, run, steps, k - 1);
      StepLedger(policy, price, run[k - 1], steps[k - 1], run[k]);
    }
  }

  lemma StartLedger(policy: Policy)
    ensures Ledger(policy, Start)
  {
  }

  /** How many of these steps were the ladder acting. */
  function LadderSteps(steps: seq<Step>): (n: nat) {
    if steps == [] then 0 else LadderSteps(steps[..|steps| - 1]) + if steps[|steps| - 1].Recover? then 1 else 0
  }

  ghost function Acts(log: Log): nat { Count(log, Selecting) + Count(log, Escalating) + Count(log, Requesting) }

  lemma StepActs(policy: Policy, price: Pricing, a: Run, step: Step, b: Run)
    requires Inv(a) && Takes(policy, price, a, step, b)
    ensures Acts(b.log) == Acts(a.log) + if step.Recover? then 1 else 0
  {
    hide SelectBoundary, Coherent, Sound, Outstanding, WorkIsCreated, CreatedOnce, View, Count;
    if step.Recover? {
      var d := SelectBoundary(a.log, step.v, policy, price, Some(View(a.rows, step.tries)));
      DraftsAnswer(a.log, b.log, d);
      AnswerSpends(a.log, b.log, Drafts(d)[0]);
    } else {
      OrdinaryBodies(policy, price, a, step, b);
      OrdinaryAppended(policy, price, a, step, b);
      QuietSpends(a.log, b.log);
    }
  }

  lemma {:induction false} RunActs(policy: Policy, price: Pricing, run: seq<Run>, steps: seq<Step>, k: nat)
    requires IsRun(policy, price, run, steps) && k < |run|
    ensures Acts(run[k].log) == LadderSteps(steps[..k])
  {
    if k > 0 {
      RunActs(policy, price, run, steps, k - 1);
      RunInv(policy, price, run, steps, k - 1);
      hide Takes, Inv, Acts;
      StepActs(policy, price, run[k - 1], steps[k - 1], run[k]);
      assert steps[..k][..k - 1] == steps[..k - 1];
    }
  }

  /**
   Bounded replanning: in every run no planner is resumed more often than its limit, no
   more replans follow the last freeze that worked out than an episode may hold, no replan
   crosses a passed pivot, and the ladder acts at most once per vertex and per scope plus a bounded number of times
   per planner.
   */
  lemma RecoveryIsBounded(policy: Policy, price: Pricing, run: seq<Run>, steps: seq<Step>, k: nat)
    requires IsRun(policy, price, run, steps) && k < |run|
    ensures forall p: Id :: TimesSelected(run[k].log, p) <= policy.maxPerPlanner
    ensures SelectionsAfter(run[k].log, LastResolved(run[k].log)) <= policy.maxPerEpisode
    ensures FloorKept(run[k].log)
    ensures LadderSteps(steps[..k]) <=
      policy.maxPerPlanner * |PlannerIds(run[k].log)| + |CreatedIds(run[k].log)| + |run[k].rows|
  {
    var log := run[k].log;
    RunLedger(policy, price, run, steps, k);
    RunActs(policy, price, run, steps, k);
    SelectionsAll(log, PlannerIds(log));
    SelectionsBounded(log, PlannerIds(log), policy.maxPerPlanner);
    assert CreatedIds(log) == Escalated(log) + (CreatedIds(log) - Escalated(log));
    assert run[k].rows.Keys == AskedIds(log) + (run[k].rows.Keys - AskedIds(log));
    assert |run[k].rows.Keys| == |run[k].rows|;
  }
}
