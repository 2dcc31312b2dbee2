/** What a decision of the ladder guarantees about the log it was taken on. */
module LadderFacts {
  import opened EventLog
  import opened CausalGraph
  import opened ScopePhases
  import opened RecoveryLadder

  /** A scope no cancellation can still release for this failure. */
  predicate Settled(p: Phase) {
    p == Unmaterialized || p == Cancelled || p == Suspended || p == Passed || p == Committed
  }

  /** Everything a decision may cite as cancelled really is cancelled. */
  predicate CitesCancelled(log: Log, cited: set<Id>) {
    forall s :: s in cited ==> PhaseOf(log, s) == Cancelled
  }

  /** What an escalation that is recorded now guarantees. */
  ghost predicate IsFinalEscalation(log: Log, d: Decision) {
    && d.selected.None?
    && Unresolved(log, d.failed) == {}
    && CitesCancelled(log, d.cancelled)
    && (FirstScope(log, d.failed).Some? ==> Settled(PhaseOf(log, FirstScope(log, d.failed).value)))
  }

  /** What a recorded selection guarantees. */
  ghost predicate IsLegalSelection(log: Log, policy: Policy, locked: Option<Locked>, d: Decision) {
    && d.selected.Some?
    && d.shadowed == ShadowSet(log, d.selected.value)
    && Unresolved(log, d.failed) == {}
    && RunBlocks(log, locked) == {}
    && SuspendedScopes(log) == {}
    && CitesCancelled(log, d.cancelled)
    && (forall s :: s in ScopesMeeting(log, d.shadowed) ==>
      PhaseOf(log, s) == Cancelled || PhaseOf(log, s) == Committed)
    && Episode(log) < policy.maxPerEpisode
    && TimesSelected(log, d.selected.value) < policy.maxPerPlanner
    && !RuleAuthored(log, d.failed)
    && exists e ::
      e in AncestorPlanners(log, d.failed) && e.planner == d.selected.value && BacktrackFloor(log) <= e.succeededAt
  }

  ghost predicate IsOpenRequest(log: Log, d: Decision) {
    d.requestScopes != {} && forall s :: s in d.requestScopes ==> PhaseOf(log, s) == Open || PhaseOf(log, s) == Fenced
  }

  lemma {:induction false} EscalationFacts(base: Decision, level: Level, log: Log)
    requires base.selected.None? && base.requestScopes == {} && base.cancelled == {}
    ensures var d := Escalation(base, level, log, FirstScope(log, base.failed));
      && d.failed == base.failed
      && (d.action == Record ==> IsFinalEscalation(log, d))
      && (d.action == Request ==> IsOpenRequest(log, d))
  {
  }

  lemma {:induction false} ResumeFacts(log: Log, v: Id, policy: Policy, price: Pricing, locked: Option<Locked>,
      base: Decision, above: seq<Above>, k: nat, level: Level)
    requires base == Base(log, v).(candidates := Candidates(log, v, policy, price, above))
    requires above == AncestorPlanners(log, v) && k < |above| && base.candidates[k].Priced?
    requires !RuleAuthored(log, v) && Episode(log) < policy.maxPerEpisode && SuspendedScopes(log) == {}
    ensures var d := Resume(log, v, locked, base, base.candidates[k], level, ShadowSet(log, above[k].planner));
      && d.failed == v
      && (d.action == Record ==> IsLegalSelection(log, policy, locked, d))
      && (d.action == Request ==> IsOpenRequest(log, d))
  {
    hide AncestorPlanners, Episode, RuleAuthored, PhaseOf, Candidates, ScopesMeeting, RunBlocks, Judge, TimesSelected,
      BacktrackFloor, SuspendedScopes, ShadowSet, Unresolved;
    var discarded := ShadowSet(log, above[k].planner);
    var c := CandidateFor(log, v, policy, price, above[k], discarded);
    assert base.candidates[k] == c;
    JudgeFacts(log, v, policy, above[k], discarded);
    var d := Resume(log, v, locked, base, c, level, discarded);
    if d.action == Record {
      assert c.requires_ == {};
      assert above[k] in AncestorPlanners(log, v);
    }
  }

  lemma {:induction false} JudgeFacts(log: Log, v: Id, policy: Policy, e: Above, discarded: set<Id>)
    ensures var j := Judge(log, v, policy, e.planner, e.succeededAt, discarded);
      j.Legal? ==>
        && BacktrackFloor(log) <= e.succeededAt
        && TimesSelected(log, e.planner) < policy.maxPerPlanner
        && (forall s :: s in j.cancel <==> s in ScopesMeeting(log, discarded) && Cancellable(PhaseOf(log, s)))
        && (j.cancel == {} ==> forall s :: s in ScopesMeeting(log, discarded) ==>
          PhaseOf(log, s) == Cancelled || PhaseOf(log, s) == Committed)
  {
    var j := Judge(log, v, policy, e.planner, e.succeededAt, discarded);
    if j.Legal? && j.cancel == {} {
      forall s | s in ScopesMeeting(log, discarded)
        ensures PhaseOf(log, s) == Cancelled || PhaseOf(log, s) == Committed {
        assert s !in j.cancel;
      }
    }
  }

  /**
   The whole decision in three clauses: a request names only scopes that can still be
   cancelled, a recorded escalation is final, and a recorded selection is legal.
   */
  lemma DecisionFacts(log: Log, v: Id, policy: Policy, price: Pricing, locked: Option<Locked>)
    ensures var d := SelectBoundary(log, v, policy, price, locked);
      && d.failed == v
      && (d.action != Wait && locked.Some? ==> Disagreeing(log, locked.value) == {})
      && (d.action == Request ==> IsOpenRequest(log, d))
      && (d.action == Record && d.selected.None? ==> IsFinalEscalation(log, d))
      && (d.action == Record && d.selected.Some? ==> IsLegalSelection(log, policy, locked, d))
  {
    hide Resume, Escalation, Judge, CandidateFor, ScopesMeeting, RunBlocks, AncestorPlanners, Episode, Unresolved,
      Disagreeing, RuleAuthored, IsFinalEscalation, IsLegalSelection, IsOpenRequest;
    var base := Base(log, v);
    EscalationFacts(base, L4, log);
    EscalationFacts(base, L3, log);
    var above := AncestorPlanners(log, v);
    var cs := Candidates(log, v, policy, price, above);
    var b2 := base.(candidates := cs);
    EscalationFacts(b2, NoBoundaryLevel(log, FirstScope(log, v)), log);
    var best := Cheapest(cs, |cs|);
    if best.Some? && !RuleAuthored(log, v) && Episode(log) < policy.maxPerEpisode && SuspendedScopes(log) == {} {
      var level := if above[best.value].depth == above[0].depth then L1 else L2;
      assert cs[best.value].planner == above[best.value].planner by {
        CandidateNames(log, v, policy, price, above[best.value], ShadowSet(log, above[best.value].planner));
      }
      ResumeFacts(log, v, policy, price, locked, b2, above, best.value, level);
      ResumeSelects(log, v, locked, b2, cs[best.value], level, ShadowSet(log, above[best.value].planner));
    }
  }

  lemma CandidateNames(log: Log, v: Id, policy: Policy, price: Pricing, e: Above, discarded: set<Id>)
    ensures CandidateFor(log, v, policy, price, e, discarded).planner == e.planner
  {
  }

  lemma ResumeSelects(log: Log, v: Id, locked: Option<Locked>, base: Decision, best: Candidate, level: Level,
      discarded: set<Id>)
    requires best.Priced? && base.selected.None?
    ensures var d := Resume(log, v, locked, base, best, level, discarded); d.action == Record <==> d.selected.Some?
  {
  }

  /** No replan costs more than the policy allows. */
  lemma SelectionWithinBudget(log: Log, v: Id, policy: Policy, price: Pricing, locked: Option<Locked>)
    ensures var d := SelectBoundary(log, v, policy, price, locked);
      d.selected.Some? && policy.budget.Some? ==> price(log, d.selected.value) <= policy.budget.value
  {
    hide Judge, ScopesMeeting, RunBlocks, AncestorPlanners, Episode, Unresolved, Disagreeing, RuleAuthored, PhaseOf,
      StillOpen, CancelledFor, SuspendedScopes, ShadowSet, FirstScope;
    var above := AncestorPlanners(log, v);
    var cs := Candidates(log, v, policy, price, above);
    var best := Cheapest(cs, |cs|);
    if best.Some? {
      assert cs[best.value] == CandidateFor(log, v, policy, price, above[best.value],
        ShadowSet(log, above[best.value].planner));
    }
  }
}
