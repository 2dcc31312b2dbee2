/**
 What a waiting ladder waits for.

 When every outstanding failure waits, every scope any of them awaits is on its way to an
 end that does not depend on the ladder (it is being cancelled, its pivot is out, or a sealed
 try has expired), except a scope fenced by a failure that nobody answers for any more.
 */
module RecoveryProgress {
  import opened EventLog
  import opened CausalGraph
  import opened ScopePhases
  import opened RecoveryLadder
  import opened LadderFacts
  import opened RunProtocol
  import opened RunInvariant
  import opened RecoverySafety
  import opened RunSafety
  import opened RecoveryBounds

  /** Phases the Coordinator will end by itself. */
  predicate Moving(p: Phase) { p == Asked || p == Cancelling || p == Inflight || p == Passed }

  /* ---------------------------------------------------------------- what a decision waits for */

  /** Everything a waiting decision waits for is on its way, or blocks the whole run. */
  ghost predicate AwaitsKnown(log: Log, locked: Option<Locked>, d: Decision) {
    && (d.action == Wait <==> d.awaited != {})
    && forall s :: s in d.awaited ==> Moving(PhaseOf(log, s)) || s in RunBlocks(log, locked)
  }

  lemma {:induction false} EscalationAwaits(base: Decision, level: Level, log: Log, locked: Option<Locked>)
    requires base.action == Record && base.awaited == {}
    ensures AwaitsKnown(log, locked, Escalation(base, level, log, FirstScope(log, base.failed)))
  {
    hide RunBlocks;
  }

  lemma ResumeAwaits(log: Log, v: Id, locked: Option<Locked>, base: Decision, best: Candidate, level: Level,
      discarded: set<Id>)
    requires base.action == Record && base.awaited == {}
    requires best.Priced? && forall s :: s in best.requires_ ==> Cancellable(PhaseOf(log, s))
    ensures AwaitsKnown(log, locked, Resume(log, v, locked, base, best, level, discarded))
  {
    var d := Resume(log, v, locked, base, best, level, discarded);
    hide RunBlocks, PhaseOf;
    forall s | s in d.awaited ensures Moving(PhaseOf(log, s)) || s in RunBlocks(log, locked) {
      if s in best.requires_ { assert s !in StillOpen(log, best.requires_); }
    }
  }

  /** Whichever branch is taken, each awaited scope is being cancelled or has its pivot out, or blocks the whole run. */
  lemma DecisionAwaits(log: Log, v: Id, policy: Policy, price: Pricing, locked: Option<Locked>)
    requires locked.Some? ==> Disagreeing(log, locked.value) == {}
    ensures AwaitsKnown(log, locked, SelectBoundary(log, v, policy, price, locked))
  {
    hide Resume, Escalation, Judge, CandidateFor, ScopesMeeting, RunBlocks, AncestorPlanners, Episode, Unresolved,
      Disagreeing, RuleAuthored, PhaseOf, AwaitsKnown;
    var base := Base(log, v);
    EscalationAwaits(base, L4, log, locked);
    EscalationAwaits(base, L3, log, locked);
    var above := AncestorPlanners(log, v);
    var cs := Candidates(log, v, policy, price, above);
    EscalationAwaits(base.(candidates := cs), NoBoundaryLevel(log, FirstScope(log, v)), log, locked);
    var best := Cheapest(cs, |cs|);
    if best.Some? {
      var level := if above[best.value].depth == above[0].depth then L1 else L2;
      CandidateRequires(log, v, policy, price, above[best.value], ShadowSet(log, above[best.value].planner));
      ResumeAwaits(log, v, locked, base.(candidates := cs), cs[best.value], level,
        ShadowSet(log, cs[best.value].planner));
    }
  }

  lemma CandidateRequires(log: Log, v: Id, policy: Policy, price: Pricing, e: Above, discarded: set<Id>)
    ensures var c := CandidateFor(log, v, policy, price, e, discarded);
      && c.planner == e.planner
      && (c.Priced? ==> forall s :: s in c.requires_ <==>
        s in ScopesMeeting(log, discarded) && Cancellable(PhaseOf(log, s)))
  {
    JudgeFacts(log, v, policy, e, discarded);
  }

  /* ---------------------------------------------------------------- a failure whose scope is still open acts */

  /** Whichever branch is taken, a failure in a scope still open or fenced has that scope cancelled first. */
  lemma {:induction false} OpenScopeIsRequested(log: Log, v: Id, s: Id, policy: Policy, price: Pricing,
      locked: Option<Locked>)
    requires CreatedOnce(log) && v in MembersOf(log, s) && v !in Hidden(log)
    requires PhaseOf(log, s) == Open || PhaseOf(log, s) == Fenced
    requires IsPlanner(log, v) ==> SuccessSeq(log, v).None?
    requires locked.Some? ==> Disagreeing(log, locked.value) == {}
    ensures var d := SelectBoundary(log, v, policy, price, locked); d.action == Request && s in d.requestScopes
  {
    hide Judge, CandidateFor, ScopesMeeting, RunBlocks, AncestorPlanners, Episode, Unresolved, Disagreeing,
      RuleAuthored, PhaseOf, CreatedOnce, MembersOf, Hidden, Descendants, Scope, FirstScope, ShadowSet, IsPlanner,
      SuccessSeq, CancelledFor, Resume;
    FirstScopeIs(log, v, s);
    var above := AncestorPlanners(log, v);
    var cs := Candidates(log, v, policy, price, above);
    var best := Cheapest(cs, |cs|);
    if best.Some? {
      var e := above[best.value];
      assert e in AncestorPlanners(log, v);
      DiscardsFailure(log, v, s, e);
      CandidateRequires(log, v, policy, price, e, ShadowSet(log, e.planner));
      assert cs[best.value] == CandidateFor(log, v, policy, price, e, ShadowSet(log, e.planner));
      var level := if above[best.value].depth == above[0].depth then L1 else L2;
      ResumeRequests(log, v, s, locked, Base(log, v).(candidates := cs), cs[best.value], level,
        ShadowSet(log, cs[best.value].planner));
    }
  }

  lemma ResumeRequests(log: Log, v: Id, s: Id, locked: Option<Locked>, base: Decision, best: Candidate, level: Level,
      discarded: set<Id>)
    requires best.Priced? && s in best.requires_ && (PhaseOf(log, s) == Open || PhaseOf(log, s) == Fenced)
    ensures var d := Resume(log, v, locked, base, best, level, discarded); d.action == Request && s in d.requestScopes
  {
    assert s in StillOpen(log, best.requires_);
  }

  lemma {:induction false} FirstScopeIs(log: Log, v: Id, s: Id)
    requires CreatedOnce(log) && v in MembersOf(log, s)
    ensures FirstScope(log, v) == Some(s)
  {
    MemberIffCreated(log, s, v);
    var i :| 0 <= i < |log| && log[i].body.Created? && log[i].body.vertex == v && log[i].body.scope == Some(s);
    FirstScopeAt(log, v, i);
  }

  lemma {:induction false} FirstScopeAt(log: Log, v: Id, i: nat)
    requires CreatedOnce(log) && i < |log| && log[i].body.Created? && log[i].body.vertex == v
    ensures FirstScope(log, v) == log[i].body.scope
  {
    if i > 0 {
      assert log[1..][i - 1] == log[i];
      assert forall k :: 0 <= k < |log[1..]| ==> log[1..][k] == log[k + 1];
      FirstScopeAt(log[1..], v, i - 1);
    }
  }

  /** Resuming at a planner above a failure discards it, so its open scope is among those to cancel. */
  lemma {:induction false} DiscardsFailure(log: Log, v: Id, s: Id, e: Above)
    requires CreatedOnce(log) && v in MembersOf(log, s) && v !in Hidden(log)
    requires PhaseOf(log, s) == Open || PhaseOf(log, s) == Fenced
    requires IsPlanner(log, v) ==> SuccessSeq(log, v).None?
    requires e in AncestorPlanners(log, v)
    ensures s in ScopesMeeting(log, ShadowSet(log, e.planner))
  {
    hide AncestorPlanners, Descendants, CreatedOnce;
    AncestorPlannersExact(log, v);
    assert Belongs(log, v, e);
    WalksAgree(log, v, e.planner);
    MentionedHasEntry(log, s);
    assert v in MembersOf(log, s) * ShadowSet(log, e.planner);
  }

  /* ---------------------------------------------------------------- whoever fenced a scope is still outstanding */

  /** The failure that fenced this scope is still unrecovered. */
  ghost predicate FencerStands(log: Log, s: Id) {
    && Scope(log, s).Some? && Scope(log, s).value.fencedBy.Some?
    && Scope(log, s).value.fencedBy.value in MembersOf(log, s)
    && Unrecovered(log, Scope(log, s).value.fencedBy.value)
  }

  /** The failure at `k` fenced this scope, which has been fenced ever since. */
  ghost predicate FencedAt(log: Log, s: Id, k: nat) {
    && k < |log| && log[k].body.Failed? && log[k].body.scope == Some(s)
    && PhaseOf(log[..k], s) != Fenced
    && forall j :: k < j <= |log| ==> PhaseOf(log[..j], s) == Fenced
  }

  predicate Fails(b: Body, v: Id) { b.Failed? && b.vertex == v }

  predicate TakesBack(b: Body, v: Id) { (b.Succeeded? || b.Retried?) && b.vertex == v }

  /** After the failure at `k` the vertex reported a success or a retry, and failed no more. */
  ghost predicate TakenBack(log: Log, k: nat, v: Id) {
    exists m :: k < m < |log| && TakesBack(log[m].body, v) && forall j :: m < j < |log| ==> !Fails(log[j].body, v)
  }

  /**
   Nobody answers for the fence: the failure behind it was taken back by a later report of
   the same vertex, or that vertex was already discarded or escalated when it failed.
   */
  ghost predicate FencerLapsed(log: Log, s: Id) {
    exists k: nat :: FencedAt(log, s, k)
      && (log[k].body.vertex in Hidden(log[..k]) || log[k].body.vertex in Escalated(log[..k])
        || TakenBack(log, k, log[k].body.vertex))
  }

  /**
   What every step of a run guarantees: failures name members, and no answer discards or escalates inside a fenced
   scope.
   */
  ghost predicate StepOk(log: Log, b: Body) {
    && (b.Failed? && b.scope.Some? ==> b.vertex in MembersOf(log, b.scope.value))
    && (b.Shadowed? ==> forall s :: PhaseOf(log, s) == Fenced ==> MembersOf(log, s) * b.hidden == {})
    && (b.Boundary? && b.selected.None? ==> forall s :: PhaseOf(log, s) == Fenced ==> b.answered !in MembersOf(log, s))
  }

  ghost predicate OrderlySteps(log: Log) {
    forall k :: 0 <= k < |log| ==> StepOk(log[..k], log[k].body)
  }

  /** The failure at `k` fenced the scope, and its vertex is a member whose answers are those it had when it failed. */
  ghost predicate FencerKept(log: Log, s: Id, k: nat) {
    && FencedAt(log, s, k)
    && Scope(log, s).Some? && Scope(log, s).value.fencedBy == Some(log[k].body.vertex)
    && log[k].body.vertex in MembersOf(log, s)
    && (log[k].body.vertex in Hidden(log) <==> log[k].body.vertex in Hidden(log[..k]))
    && (log[k].body.vertex in Escalated(log) <==> log[k].body.vertex in Escalated(log[..k]))
  }

  /** Inside a fenced scope nothing is discarded or escalated. */
  lemma FencerStays(log: Log, s: Id, k: nat)
    requires log != [] && StepOk(log[..|log| - 1], log[|log| - 1].body)
    requires FencerKept(log[..|log| - 1], s, k) && PhaseOf(log[..|log| - 1], s) == Fenced && PhaseOf(log, s) == Fenced
    ensures FencerKept(log, s, k)
  {
    var n := |log| - 1;
    var before := log[..n];
    assert log == before + [log[n]] && before[..k] == log[..k] && before[k] == log[k];
    ScopeAppend(before, log[n], s);
    FencedOn(log, s, k);
    hide FencedAt;
  }

  lemma FencerStarts(log: Log, s: Id)
    requires log != [] && StepOk(log[..|log| - 1], log[|log| - 1].body)
    requires PhaseOf(log[..|log| - 1], s) != Fenced && PhaseOf(log, s) == Fenced
    ensures FencerKept(log, s, |log| - 1)
  {
    var n := |log| - 1;
    assert log == log[..n] + [log[n]] && log[..n + 1] == log;
    ScopeAppend(log[..n], log[n], s);
    hide PhaseOf;
  }

  lemma {:induction false} FencerIs(log: Log, s: Id) returns (k: nat)
    requires OrderlySteps(log) && PhaseOf(log, s) == Fenced
    ensures FencerKept(log, s, k)
  {
    var n := |log| - 1;
    assert StepOk(log[..n], log[n].body);
    if PhaseOf(log[..n], s) == Fenced {
      OrderlyBefore(log);
      k := FencerIs(log[..n], s);
      FencerStays(log, s, k);
    } else {
      FencerStarts(log, s);
      k := n;
    }
  }

  lemma OrderlyBefore(log: Log)
    requires OrderlySteps(log) && log != []
    ensures OrderlySteps(log[..|log| - 1])
  {
    var n := |log| - 1;
    forall k | 0 <= k < n ensures StepOk(log[..n][..k], log[..n][k].body) {
      assert log[..n][..k] == log[..k];
      assert StepOk(log[..k], log[k].body);
    }
  }

  lemma FencedOn(log: Log, s: Id, k: nat)
    requires log != [] && FencedAt(log[..|log| - 1], s, k) && PhaseOf(log, s) == Fenced
    ensures FencedAt(log, s, k)
  {
    hide PhaseOf;
    var before := log[..|log| - 1];
    assert log[..|log|] == log && before[..k] == log[..k];
    forall j | k < j <= |log| ensures PhaseOf(log[..j], s) == Fenced {
      if j < |log| { assert before[..j] == log[..j]; }
    }
  }

  lemma FencedInside(log: Log, s: Id, k: nat)
    requires FencedAt(log, s, k)
    ensures k < |log|
  {
  }

  lemma FencedOnce(log: Log, s: Id, k: nat, l: nat)
    requires FencedAt(log, s, k) && k < l < |log|
    ensures !FencedAt(log, s, l)
  {
    hide PhaseOf;
    assert PhaseOf(log[..l], s) == Fenced;
  }

  lemma {:induction false} LastFails(log: Log, k: nat, v: Id)
    requires k < |log| && Fails(log[k].body, v)
    ensures LastOutcome(log, v) == DidFail <==> !TakenBack(log, k, v)
    decreases |log|
  {
    var n := |log| - 1;
    var before := log[..n];
    assert forall j :: 0 <= j < n ==> before[j] == log[j];
    if Fails(log[n].body, v) {
    } else if TakesBack(log[n].body, v) {
      assert TakenBack(log, k, v);
    } else {
      LastFails(before, k, v);
      if TakenBack(before, k, v) {
        var m :| k < m < n && TakesBack(before[m].body, v) && forall j :: m < j < n ==> !Fails(before[j].body, v);
        assert forall j :: m < j < |log| ==> !Fails(log[j].body, v);
        assert TakesBack(log[m].body, v);
      }
      if TakenBack(log, k, v) {
        var m :| k < m < |log| && TakesBack(log[m].body, v) && forall j :: m < j < |log| ==> !Fails(log[j].body, v);
        assert TakesBack(before[m].body, v);
      }
    }
  }

  /** Whether anybody answers for a fence, read off the log: exactly unless its failure lapsed. */
  lemma FencerStandsExactly(log: Log, s: Id)
    requires OrderlySteps(log) && PhaseOf(log, s) == Fenced
    ensures FencerStands(log, s) <==> !FencerLapsed(log, s)
  {
    var k := FencerIs(log, s);
    var f := log[k].body.vertex;
    LastFails(log, k, f);
    hide TakenBack, OrderlySteps, PhaseOf;
    if FencerLapsed(log, s) {
      var l: nat :| FencedAt(log, s, l)
        && (log[l].body.vertex in Hidden(log[..l]) || log[l].body.vertex in Escalated(log[..l])
          || TakenBack(log, l, log[l].body.vertex));
      FencedInside(log, s, k);
      FencedInside(log, s, l);
      if k < l { FencedOnce(log, s, k, l); }
      if l < k { FencedOnce(log, s, l, k); }
    }
  }

  /* ---------------------------------------------------------------- every run is orderly in its steps */

  /** A pivot that is out, or was disproved, belongs to its scope. */
  ghost predicate PivotsBelong(a: Run) {
    && (forall s :: s in a.rows && a.rows[s].pivot.Some? ==> a.rows[s].pivot.value in MembersOf(a.log, s))
    && (forall s :: s in a.absent ==> a.absent[s] in MembersOf(a.log, s))
  }

  lemma MembersGrow(log: Log, next: Log, s: Id)
    requires Prefix(log, next)
    ensures MembersOf(log, s) <= MembersOf(next, s)
  {
    forall v | v in MembersOf(log, s) ensures v in MembersOf(next, s) {
      MemberIffCreated(log, s, v);
      var i :| 0 <= i < |log| && log[i].body.Created? && log[i].body.vertex == v && log[i].body.scope == Some(s);
      assert next[i] == log[i];
      MemberIffCreated(next, s, v);
    }
  }

  lemma {:induction false} CreatedIsMember(log: Log, v: Id, s: Id)
    requires CreatedOf(log, v).Some? && CreatedOf(log, v).value.scope == Some(s)
    ensures v in MembersOf(log, s)
  {
    CreatedOfSome(log, v);
    var i :| 0 <= i < |log| && log[i].body == CreatedOf(log, v).value;
    assert log[i].body.Created? && log[i].body.vertex == v && log[i].body.scope == Some(s);
    MemberIffCreated(log, s, v);
  }

  ghost predicate PlainFailure(log: Log, b: Body) {
    !b.Shadowed? && (b.Failed? && b.scope.Some? ==> b.vertex in MembersOf(log, b.scope.value))
  }

  lemma OrdinaryFailures(policy: Policy, price: Pricing, a: Run, step: Step, b: Run)
    requires PivotsBelong(a) && !step.Recover? && Takes(policy, price, a, step, b)
    ensures step.FailAbsent? ==> step.s in a.absent
    ensures forall k :: 0 <= k < |StepBodies(a, step)| ==> PlainFailure(a.log, StepBodies(a, step)[k])
  {
    hide MembersOf, CreatedOf, Appended, Recovers, FenceOn, Outstanding, SelectBoundary, IsCreated;
    if step.Report? && step.report.Failed? && step.report.scope.Some? {
      CreatedIsMember(a.log, step.report.vertex, step.report.scope.value);
    }
  }

  lemma OrdinaryPivots(policy: Policy, price: Pricing, a: Run, step: Step, b: Run)
    requires PivotsBelong(a) && !step.Recover? && Takes(policy, price, a, step, b) && Prefix(a.log, b.log)
    ensures PivotsBelong(b)
  {
    hide MembersOf, CreatedOf, Appended, Recovers, FreshWork, IsNote, IsReport, Outstanding, SelectBoundary, Prefix;
    forall s ensures MembersOf(a.log, s) <= MembersOf(b.log, s) { MembersGrow(a.log, b.log, s); }
    if step.AdmitPivot? { CreatedIsMember(a.log, step.v, step.s); }
  }

  lemma PlainGrowth(log: Log, next: Log, bodies: seq<Body>)
    requires OrderlySteps(log) && Appended(log, next, bodies)
    requires forall k :: 0 <= k < |bodies| ==> !bodies[k].Boundary? && PlainFailure(log, bodies[k])
    ensures OrderlySteps(next)
  {
    forall k | 0 <= k < |next| ensures StepOk(next[..k], next[k].body) {
      if k < |log| {
        assert next[..k] == log[..k] && next[k] == log[k];
        assert StepOk(log[..k], log[k].body);
      } else {
        var b := bodies[k - |log|];
        assert PlainFailure(log, b) && next[k].body == b;
        assert next[..k][..|log|] == log;
        if b.Failed? && b.scope.Some? { MembersGrow(log, next[..k], b.scope.value); }
      }
    }
  }

  lemma AnswerOrderly(log: Log, next: Log, d: Decision)
    requires CreatedOnce(log) && OrderlySteps(log) && d.action != Wait && Appended(log, next, Drafts(d))
    requires d.action == Record && d.selected.None? ==> IsFinalEscalation(log, d)
    requires d.action == Record && d.selected.Some? ==> forall s :: s in ScopesMeeting(log, d.shadowed) ==>
      PhaseOf(log, s) == Cancelled || PhaseOf(log, s) == Committed
    ensures OrderlySteps(next)
  {
    var n := |log|;
    assert next[n].body == Drafts(d)[0];
    forall k | 0 <= k < |next| ensures StepOk(next[..k], next[k].body) {
      if k < n {
        assert next[..k] == log[..k] && next[k] == log[k];
        assert StepOk(log[..k], log[k].body);
      } else if k == n {
        if d.action == Record && d.selected.None? { EscalationOrderly(log, d); }
      } else {
        assert next[n + 1].body == Drafts(d)[1];
        assert next[..n + 1] == log + [next[n]];
        ShadowOrderly(log, next[n], d);
      }
    }
  }

  lemma EscalationOrderly(log: Log, d: Decision)
    requires CreatedOnce(log) && IsFinalEscalation(log, d)
    ensures forall s :: PhaseOf(log, s) == Fenced ==> d.failed !in MembersOf(log, s)
  {
    forall s | PhaseOf(log, s) == Fenced ensures d.failed !in MembersOf(log, s) {
      if d.failed in MembersOf(log, s) { FirstScopeIs(log, d.failed, s); }
    }
  }

  lemma ShadowOrderly(log: Log, e: Event, d: Decision)
    requires e.body.Boundary?
    requires forall s :: s in ScopesMeeting(log, d.shadowed) ==>
      PhaseOf(log, s) == Cancelled || PhaseOf(log, s) == Committed
    ensures StepOk(log + [e], Shadowed(d.shadowed))
  {
    forall s | PhaseOf(log + [e], s) == Fenced ensures MembersOf(log + [e], s) * d.shadowed == {} {
      ScopeAppend(log, e, s);
      MentionedHasEntry(log, s);
      assert s !in ScopesMeeting(log, d.shadowed);
    }
  }

  lemma StepOrderly(policy: Policy, price: Pricing, a: Run, step: Step, b: Run)
    requires Inv(a) && OrderlySteps(a.log) && PivotsBelong(a) && Takes(policy, price, a, step, b)
    ensures OrderlySteps(b.log) && PivotsBelong(b)
  {
    if step.Recover? {
      RecoverOrderly(policy, price, a, step.v, step.tries, b);
    } else {
      OrdinaryFailures(policy, price, a, step, b);
      OrdinaryBodies(policy, price, a, step, b);
      OrdinaryAppended(policy, price, a, step, b);
      hide Takes, Coherent, Sound, WorkIsCreated, PlainFailure, OrderlySteps, CreatedOnce, NeverDeclaredCancelled,
        IsCreated, IsPlanner, PivotsBelong;
      OrdinaryPivots(policy, price, a, step, b);
      PlainGrowth(a.log, b.log, StepBodies(a, step));
    }
  }

  lemma RecoverOrderly(policy: Policy, price: Pricing, a: Run, v: Id, tries: Tries, b: Run)
    requires Inv(a) && OrderlySteps(a.log) && PivotsBelong(a) && Takes(policy, price, a, Recover(v, tries), b)
    ensures OrderlySteps(b.log) && PivotsBelong(b)
  {
    hide SelectBoundary, Coherent, Sound, Outstanding, WorkIsCreated, CreatedOnce, View, RunBlocks, AncestorPlanners,
      Episode, RuleAuthored, TimesSelected, BacktrackFloor, Unresolved, ScopesMeeting, SuspendedScopes, Disagreeing,
      NeverDeclaredCancelled, Numbered, OrderlySteps, MembersOf, PhaseOf, IsFinalEscalation, IsOpenRequest;
    var locked := Some(View(a.rows, tries));
    var d := SelectBoundary(a.log, v, policy, price, locked);
    DecisionFacts(a.log, v, policy, price, locked);
    AnswerOrderly(a.log, b.log, d);
    forall s ensures MembersOf(a.log, s) <= MembersOf(b.log, s) { MembersGrow(a.log, b.log, s); }
  }

  lemma {:induction false} RunOrderly(policy: Policy, price: Pricing, run: seq<Run>, steps: seq<Step>, k: nat)
    requires IsRun(policy, price, run, steps) && k < |run|
    ensures OrderlySteps(run[k].log) && PivotsBelong(run[k])
  {
    hide Takes, Inv;
    if k > 0 {
      RunOrderly(policy, price, run, steps, k - 1);
      RunInv(policy, price, run, steps, k - 1);
      StepOrderly(policy, price, run[k - 1], steps[k - 1], run[k]);
    }
  }

  /* ---------------------------------------------------------------- the theorem */

  /**
   Rows and log differ only about a scope whose disproved pivot is still to be reported, which the log has in
   flight.
   */
  lemma DisagreeingIsInflight(a: Run, tries: Tries, s: Id)
    requires Coherent(a) && s in Disagreeing(a.log, View(a.rows, tries))
    ensures s in a.absent && PhaseOf(a.log, s) == Inflight
  {
    assert AgreesAt(a, s);
    MentionedHasEntry(a.log, s);
  }

  lemma NoGapAgrees(a: Run, tries: Tries)
    requires Coherent(a) && a.absent == map[]
    ensures Disagreeing(a.log, View(a.rows, tries)) == {}
  {
    hide Coherent, Disagreeing;
    if s :| s in Disagreeing(a.log, View(a.rows, tries)) { DisagreeingIsInflight(a, tries, s); }
  }

  /** A fenced scope somebody answers for is not waited on: the failure that fenced it is outstanding, and acts. */
  lemma FencerActs(log: Log, s: Id, policy: Policy, price: Pricing, locked: Option<Locked>) returns (f: Id)
    requires CreatedOnce(log) && FencerStands(log, s) && PhaseOf(log, s) == Fenced
    requires forall v :: v in MembersOf(log, s) ==> !IsPlanner(log, v)
    requires locked.Some? ==> Disagreeing(log, locked.value) == {}
    ensures f in Outstanding(log) && SelectBoundary(log, f, policy, price, locked).action == Request
  {
    hide SelectBoundary, Disagreeing, Outstanding, CreatedOnce;
    f := Scope(log, s).value.fencedBy.value;
    OutstandingIs(log, f);
    OpenScopeIsRequested(log, f, s, policy, price, locked);
  }

  /** The sweep will cancel this scope: a try sealed in it has expired while it is still open. */
  predicate Expired(a: Run, tries: Tries, s: Id) { s in a.rows && a.rows[s].state == RowOpen && s in tries.expired }

  /** Failures are outstanding only to wait: nothing the ladder could do is left to it. */
  ghost predicate AllWait(policy: Policy, price: Pricing, a: Run, tries: Tries) {
    forall v :: v in Outstanding(a.log)
      ==> SelectBoundary(a.log, v, policy, price, Some(View(a.rows, tries))).action == Wait
  }

  ghost predicate PlannersUnscoped(log: Log) { forall s, v :: v in MembersOf(log, s) ==> !IsPlanner(log, v) }

  /**
   What a waiting ladder waits for, exactly. In every run whose planners hold no scope, when
   every outstanding failure waits, each scope any of them awaits is being cancelled, or has
   its pivot out or awaiting commit, or holds an expired try: unless it is fenced by a
   failure nobody answers for any more.
   */
  lemma NeverWaitsInVain(policy: Policy, price: Pricing, run: seq<Run>, steps: seq<Step>, k: nat, tries: Tries, v: Id,
      s: Id)
    requires IsRun(policy, price, run, steps) && k < |run| && PlannersUnscoped(run[k].log)
      && AllWait(policy, price, run[k], tries)
    requires v in Outstanding(run[k].log)
      && s in SelectBoundary(run[k].log, v, policy, price, Some(View(run[k].rows, tries))).awaited
    ensures Moving(PhaseOf(run[k].log, s)) || Expired(run[k], tries, s) || FencerLapsed(run[k].log, s)
    ensures FencerLapsed(run[k].log, s) ==> !Moving(PhaseOf(run[k].log, s))
  {
    var a := run[k];
    RunInv(policy, price, run, steps, k);
    RunOrderly(policy, price, run, steps, k);
    LapsedIsFenced(a.log, s);
    hide IsRun, OrderlySteps, FencerLapsed, FencerStands;
    AwaitedIs(policy, price, a, tries, v, s);
  }

  lemma LapsedIsFenced(log: Log, s: Id)
    ensures FencerLapsed(log, s) ==> PhaseOf(log, s) == Fenced
  {
    hide PhaseOf;
    assert log[..|log|] == log;
  }

  lemma AwaitedIs(policy: Policy, price: Pricing, a: Run, tries: Tries, v: Id, s: Id)
    requires Inv(a) && OrderlySteps(a.log) && PlannersUnscoped(a.log) && AllWait(policy, price, a, tries)
    requires v in Outstanding(a.log) && s in SelectBoundary(a.log, v, policy, price, Some(View(a.rows, tries))).awaited
    ensures Moving(PhaseOf(a.log, s)) || Expired(a, tries, s) || FencerLapsed(a.log, s)
  {
    hide SelectBoundary, Disagreeing, Outstanding, CreatedOnce, OrderlySteps, FencerLapsed, FencerStands, Sound,
      WorkIsCreated, PhaseOf, MembersOf, IsPlanner, Coherent;
    var locked := Some(View(a.rows, tries));
    if Disagreeing(a.log, locked.value) != {} {
      AwaitsDisagreeing(a.log, v, policy, price, locked.value);
      DisagreeingIsInflight(a, tries, s);
    } else {
      DecisionAwaits(a.log, v, policy, price, locked);
      if !Moving(PhaseOf(a.log, s)) && !Expired(a, tries, s) {
        assert PhaseOf(a.log, s) == Fenced;
        FencerStandsExactly(a.log, s);
        if FencerStands(a.log, s) {
          var f := FencerActs(a.log, s, policy, price, locked);
          assert false;
        }
      }
    }
  }

  lemma AwaitsDisagreeing(log: Log, v: Id, policy: Policy, price: Pricing, locked: Locked)
    requires Disagreeing(log, locked) != {}
    ensures SelectBoundary(log, v, policy, price, Some(locked)).awaited == Disagreeing(log, locked)
  {
  }

  /* ---------------------------------------------------------------- executors that report in order */

  predicate InUse(p: Phase) { p == Open || p == Inflight }

  ghost predicate ScopedFailure(log: Log, v: Id) {
    exists k :: 0 <= k < |log| && log[k].body.Failed? && log[k].body.vertex == v && log[k].body.scope.Some?
  }

  /** A vertex that failed inside a scope takes nothing back, and none already answered fails inside a scope in use. */
  ghost predicate ReportOk(log: Log, b: Body) {
    && (b.Succeeded? || b.Retried? ==> !ScopedFailure(log, b.vertex))
    && (b.Failed? && b.scope.Some? && InUse(PhaseOf(log, b.scope.value)) ==>
      b.vertex !in Hidden(log) && b.vertex !in Escalated(log))
  }

  ghost predicate OrderlyReports(log: Log) {
    forall k :: 0 <= k < |log| ==> ReportOk(log[..k], log[k].body)
  }

  lemma OrderlyNeverLapses(log: Log, s: Id)
    requires OrderlyReports(log)
    ensures !FencerLapsed(log, s)
  {
    forall k: nat | FencedAt(log, s, k)
      ensures log[k].body.vertex !in Hidden(log[..k]) && log[k].body.vertex !in Escalated(log[..k])
        && !TakenBack(log, k, log[k].body.vertex)
    {
      var f := log[k].body.vertex;
      assert ReportOk(log[..k], log[k].body);
      assert PhaseOf(log[..k + 1], s) == Fenced;
      assert log[..k + 1] == log[..k] + [log[k]];
      ScopeAppend(log[..k], log[k], s);
      hide PhaseOf;
      forall m | k < m < |log| ensures !TakesBack(log[m].body, f) {
        assert ReportOk(log[..m], log[m].body);
        assert log[..m][k] == log[k];
        assert ScopedFailure(log[..m], f);
      }
    }
  }

  /** Then a waiting ladder waits for something, and for nothing but scopes on their way to an end. */
  lemma OrderlyWaits(policy: Policy, price: Pricing, run: seq<Run>, steps: seq<Step>, k: nat, tries: Tries, v: Id)
    requires IsRun(policy, price, run, steps) && k < |run| && PlannersUnscoped(run[k].log)
      && AllWait(policy, price, run[k], tries)
    requires OrderlyReports(run[k].log) && v in Outstanding(run[k].log)
    ensures var d := SelectBoundary(run[k].log, v, policy, price, Some(View(run[k].rows, tries)));
      d.awaited != {} && forall s :: s in d.awaited ==> Moving(PhaseOf(run[k].log, s)) || Expired(run[k], tries, s)
  {
    hide SelectBoundary, IsRun, PlannersUnscoped, OrderlyReports, Outstanding, PhaseOf, FencerLapsed, Disagreeing;
    var a, locked := run[k], View(run[k].rows, tries);
    if Disagreeing(a.log, locked) == {} {
      DecisionAwaits(a.log, v, policy, price, Some(locked));
    } else {
      AwaitsDisagreeing(a.log, v, policy, price, locked);
    }
    forall s | s in SelectBoundary(a.log, v, policy, price, Some(locked)).awaited
      ensures Moving(PhaseOf(a.log, s)) || Expired(a, tries, s) {
      NeverWaitsInVain(policy, price, run, steps, k, tries, v, s);
      OrderlyNeverLapses(a.log, s);
    }
  }
}
