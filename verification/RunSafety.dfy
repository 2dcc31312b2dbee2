/** The run-wide invariant, kept by every step, and the theorems that follow from it. */
module RunSafety {
  import opened EventLog
  import opened CausalGraph
  import opened ScopePhases
  import opened RunOracles
  import opened RecoveryLadder
  import opened LadderFacts
  import opened RunProtocol
  import opened RunInvariant
  import opened RecoverySafety

  /** No one declares a scope cancelled: only a completed cancellation closes one that way. */
  ghost predicate NeverDeclaredCancelled(log: Log) {
    forall k :: 0 <= k < |log| && log[k].body.ScopeState? ==> log[k].body.declared != DeclaredCancelled
  }

  /** Whatever failed, answered unreadably or is being tried as a pivot was created first. */
  ghost predicate WorkIsCreated(a: Run) {
    && (forall k :: 0 <= k < |a.log| && a.log[k].body.Failed? ==> IsCreated(a.log, a.log[k].body.vertex))
    && (forall k :: 0 <= k < |a.log| && a.log[k].body.Unreadable? ==> IsPlanner(a.log, a.log[k].body.planner))
    && (forall s :: s in a.rows && a.rows[s].pivot.Some? ==> IsCreated(a.log, a.rows[s].pivot.value))
    && (forall s :: s in a.absent ==> IsCreated(a.log, a.absent[s]))
  }

  ghost predicate Inv(a: Run) {
    Numbered(a.log) && CreatedOnce(a.log) && Coherent(a) && Sound(a.log) && NeverDeclaredCancelled(a.log)
      && WorkIsCreated(a)
  }

  /* ---------------------------------------------------------------- facts about any log */

  lemma {:induction false} CancelledCompleted(log: Log, s: Id)
    requires NeverDeclaredCancelled(log) && PhaseOf(log, s) == Cancelled
    ensures CompletedIn(log, s)
  {
    var n := |log| - 1;
    if log[n].body != Cancel(s, true) {
      CancelledCompleted(log[..n], s);
      var k :| 0 <= k < n && log[..n][k].body == Cancel(s, true);
      assert log[k].body == Cancel(s, true);
    }
  }

  /** A scope that started a pivot can only be fenced again once that pivot was disproved. */
  lemma {:induction false} FencedPivotDisproved(log: Log, s: Id)
    requires HistOf(log, s).pivotAt.Some?
    ensures PhaseOf(log, s) != Unmaterialized && PhaseOf(log, s) != Open
    ensures PhaseOf(log, s) == Fenced || PhaseOf(log, s) == Asked ==> ProvenAbsent(log, s)
  {
    var n := |log| - 1;
    if HistOf(log[..n], s).pivotAt.Some? {
      FencedPivotDisproved(log[..n], s);
      if ProvenAbsent(log[..n], s) {
        var k :| 0 <= k < n && log[..n][k].body.Failed? && log[..n][k].body.absent && log[..n][k].body.scope == Some(s);
        assert log[k].body.Failed? && log[k].body.absent && log[k].body.scope == Some(s);
      }
      if log[n].body.Failed? && log[n].body.absent && log[n].body.scope == Some(s) { assert ProvenAbsent(log, s); }
    }
  }

  /* ---------------------------------------------------------------- growth */

  ghost predicate Answering(b: Body) { b.Boundary? || b.CancelRequested? }

  lemma QuietGrowthSound(log: Log, next: Log, bodies: seq<Body>)
    requires Sound(log) && Appended(log, next, bodies)
    requires forall k :: 0 <= k < |bodies| ==> !Answering(bodies[k])
    ensures Sound(next)
  {
    forall i | 0 <= i < |next| && next[i].body.Boundary? ensures BoundarySoundAt(next, i) {
      OldBoundaryStands(log, next, i);
    }
    forall i | 0 <= i < |next| && next[i].body.CancelRequested? ensures AskSound(next[..i], next[i].body) {
      OldRequestStands(log, next, i);
    }
  }

  lemma OldBoundaryStands(log: Log, next: Log, i: nat)
    requires Sound(log) && |log| <= |next| && next[..|log|] == log && i < |next| && next[i].body.Boundary?
    requires forall k :: |log| <= k < |next| ==> !next[k].body.Boundary?
    ensures BoundarySoundAt(next, i)
  {
    assert i < |log| && log[i] == next[i];
    assert next[..i] == log[..i];
    assert BoundarySoundAt(log, i);
    if log[i].body.selected.Some? { assert next[i + 1] == log[i + 1]; }
  }

  lemma OldRequestStands(log: Log, next: Log, i: nat)
    requires Sound(log) && |log| <= |next| && next[..|log|] == log && i < |next| && next[i].body.CancelRequested?
    requires forall k :: |log| <= k < |next| ==> !next[k].body.CancelRequested?
    ensures AskSound(next[..i], next[i].body)
  {
    assert i < |log| && log[i] == next[i];
    assert next[..i] == log[..i];
  }

  lemma GrowthIsCreated(log: Log, next: Log, v: Id)
    requires |log| <= |next| && next[..|log|] == log && IsCreated(log, v)
    ensures IsCreated(next, v)
  {
    var i :| 0 <= i < |log| && log[i].body.Created? && log[i].body.vertex == v;
    assert next[i] == log[i];
  }

  lemma GrowthIsPlanner(log: Log, next: Log, v: Id)
    requires |log| <= |next| && next[..|log|] == log && IsPlanner(log, v) && CreatedOnce(next)
    ensures IsPlanner(next, v)
  {
    CreatedOfSome(log, v);
    var i :| 0 <= i < |log| && log[i].body == CreatedOf(log, v).value;
    assert next[i] == log[i];
    CreatedOfAt(next, i);
  }

  lemma GrowthCreatedOnce(log: Log, next: Log, bodies: seq<Body>)
    requires CreatedOnce(log) && Appended(log, next, bodies) && (forall k :: 0 <= k < |bodies| ==> !bodies[k].Created?)
    ensures CreatedOnce(next)
  {
    forall i, j | 0 <= i < j < |next| && next[i].body.Created? && next[j].body.Created?
      ensures next[i].body.vertex != next[j].body.vertex {
      assert log[i] == next[i] && log[j] == next[j];
    }
  }

  lemma FreezeCreatedOnce(log: Log, next: Log, proposedSeq: nat, created: seq<Body>)
    requires CreatedOnce(log) && FreshWork(log, created) && Appended(log, next, [Frozen(proposedSeq)] + created)
    ensures CreatedOnce(next)
  {
    forall i, j | 0 <= i < j < |next| && next[i].body.Created? && next[j].body.Created?
      ensures next[i].body.vertex != next[j].body.vertex {
      if j < |log| {
        assert log[i] == next[i] && log[j] == next[j];
      } else {
        assert next[j].body == created[j - |log| - 1];
        if i < |log| {
          assert log[i] == next[i];
        } else {
          assert next[i].body == created[i - |log| - 1];
        }
      }
    }
  }

  lemma GrowthNeverDeclared(log: Log, next: Log, bodies: seq<Body>)
    requires NeverDeclaredCancelled(log) && Appended(log, next, bodies)
    requires forall k :: 0 <= k < |bodies| && bodies[k].ScopeState? ==> bodies[k].declared != DeclaredCancelled
    ensures NeverDeclaredCancelled(next)
  {
    forall k | 0 <= k < |next| && next[k].body.ScopeState? ensures next[k].body.declared != DeclaredCancelled {
      if k < |log| { assert log[k] == next[k]; } else { assert next[k].body == bodies[k - |log|]; }
    }
  }

  lemma GrowthWork(a: Run, b: Run, bodies: seq<Body>)
    requires WorkIsCreated(a) && Appended(a.log, b.log, bodies) && CreatedOnce(b.log)
    requires forall k :: 0 <= k < |bodies| && bodies[k].Failed? ==> IsCreated(a.log, bodies[k].vertex)
    requires forall k :: 0 <= k < |bodies| && bodies[k].Unreadable? ==> IsPlanner(a.log, bodies[k].planner)
    requires forall s :: s in b.rows && b.rows[s].pivot.Some? ==> IsCreated(a.log, b.rows[s].pivot.value)
    requires forall s :: s in b.absent ==> IsCreated(a.log, b.absent[s])
    ensures WorkIsCreated(b)
  {
    forall k | 0 <= k < |b.log| && b.log[k].body.Failed? ensures IsCreated(b.log, b.log[k].body.vertex) {
      if k < |a.log| { assert a.log[k] == b.log[k]; } else { assert b.log[k].body == bodies[k - |a.log|]; }
      GrowthIsCreated(a.log, b.log, b.log[k].body.vertex);
    }
    forall k | 0 <= k < |b.log| && b.log[k].body.Unreadable? ensures IsPlanner(b.log, b.log[k].body.planner) {
      if k < |a.log| { assert a.log[k] == b.log[k]; } else { assert b.log[k].body == bodies[k - |a.log|]; }
      GrowthIsPlanner(a.log, b.log, b.log[k].body.planner);
    }
    forall s | s in b.rows && b.rows[s].pivot.Some? ensures IsCreated(b.log, b.rows[s].pivot.value) {
      GrowthIsCreated(a.log, b.log, b.rows[s].pivot.value);
    }
    forall s | s in b.absent ensures IsCreated(b.log, b.absent[s]) { GrowthIsCreated(a.log, b.log, b.absent[s]); }
  }

  /* ---------------------------------------------------------------- every step keeps the invariant */

  /** The events a step of anyone but the ladder appends. */
  function StepBodies(a: Run, step: Step): (bodies: seq<Body>)
    requires !step.Recover? && (step.FailAbsent? ==> step.s in a.absent)
  {
    match step
    case Freeze(proposedSeq, created) => [Frozen(proposedSeq)] + created
    case Note(n) => [n]
    case Report(r) => [r]
    case EnsureScope(s) => [ScopeState(s, DeclaredOpen)]
    case Seal(v, s, key) => [Try(v, s, key), Succeeded(v, Some(s))]
    case AdmitPivot(s, v) => [Started(v, Some(s), true)]
    case ResolveAbsent(s) => []
    case FailAbsent(s) => [Failed(a.absent[s], Some(s), true)]
    case FailUnknown(s, v) => [Failed(v, Some(s), false), ScopeState(s, DeclaredSuspended)]
    case PassPivot(s, v) => [PivotPassed(v, s), Succeeded(v, Some(s))]
    case ConfirmTry(v, s, key) => [Confirm(v, s, key)]
    case Commit(s) => [ScopeState(s, DeclaredCommitted)]
    case Suspend(s) => [ScopeState(s, DeclaredSuspended)]
    case StartCancel(s) => [Cancel(s, false)]
    case CompleteCancel(s) => [Cancel(s, true)]
  }

  /** An event that answers nothing, declares nothing cancelled, and speaks of created work only. */
  ghost predicate IsPlain(log: Log, b: Body) {
    && !Answering(b)
    && (b.ScopeState? ==> b.declared != DeclaredCancelled)
    && (b.Failed? ==> IsCreated(log, b.vertex))
    && (b.Unreadable? ==> IsPlanner(log, b.planner))
  }

  lemma OrdinaryBodies(policy: Policy, price: Pricing, a: Run, step: Step, b: Run)
    requires WorkIsCreated(a) && !step.Recover? && Takes(policy, price, a, step, b)
    ensures step.FailAbsent? ==> step.s in a.absent
    ensures forall k :: 0 <= k < |StepBodies(a, step)| ==> IsPlain(a.log, StepBodies(a, step)[k])
    ensures !step.Freeze? ==> forall k :: 0 <= k < |StepBodies(a, step)| ==> !StepBodies(a, step)[k].Created?
  {
    hide IsCreated, CreatedOf, Appended, Recovers, FenceOn, Outstanding, SelectBoundary;
    if step.Report? && step.report.Failed? { CreatedOfSome(a.log, step.report.vertex); }
  }

  lemma OrdinaryRows(policy: Policy, price: Pricing, a: Run, step: Step, b: Run)
    requires WorkIsCreated(a) && !step.Recover? && Takes(policy, price, a, step, b)
    ensures forall s :: s in b.rows && b.rows[s].pivot.Some? ==> IsCreated(a.log, b.rows[s].pivot.value)
    ensures forall s :: s in b.absent ==> IsCreated(a.log, b.absent[s])
  {
    hide IsCreated, CreatedOf, Appended, Recovers, FreshWork, IsNote, IsReport, Outstanding, SelectBoundary;
    if step.AdmitPivot? { CreatedOfSome(a.log, step.v); }
  }

  lemma OrdinaryAppended(policy: Policy, price: Pricing, a: Run, step: Step, b: Run)
    requires Numbered(a.log) && !step.Recover? && Takes(policy, price, a, step, b)
    ensures step.FailAbsent? ==> step.s in a.absent
    ensures Appended(a.log, b.log, StepBodies(a, step))
  {
    hide Recovers, FreshWork, IsNote, IsReport, FenceOn, Outstanding, SelectBoundary;
    if step.ResolveAbsent? {
      assert a.log[..|a.log|] == a.log;
    } else {
      hide Appended;
    }
  }

  lemma OrdinaryStepInv(policy: Policy, price: Pricing, a: Run, step: Step, b: Run)
    requires Inv(a) && !step.Recover? && Takes(policy, price, a, step, b)
    ensures Inv(b)
  {
    StepKeepsCoherent(policy, price, a, step, b);
    OrdinaryBodies(policy, price, a, step, b);
    OrdinaryRows(policy, price, a, step, b);
    OrdinaryAppended(policy, price, a, step, b);
    var bodies := StepBodies(a, step);
    if step.Freeze? {
      assert FreshWork(a.log, step.created);
      FreezeCreatedOnce(a.log, b.log, step.proposedSeq, step.created);
    }
    hide Coherent, Sound, WorkIsCreated, NeverDeclaredCancelled, CreatedOnce, Takes, StepBodies, IsCreated, CreatedOf,
      IsPlanner;
    if !step.Freeze? { GrowthCreatedOnce(a.log, b.log, bodies); }
    QuietGrowthSound(a.log, b.log, bodies);
    GrowthNeverDeclared(a.log, b.log, bodies);
    GrowthWork(a, b, bodies);
  }

  /** Who is answered was created. */
  lemma OutstandingIsCreated(a: Run, v: Id)
    requires WorkIsCreated(a) && v in Outstanding(a.log)
    ensures IsCreated(a.log, v)
    ensures !Unrecovered(a.log, v) ==> IsPlanner(a.log, v) && v !in AnsweredBy(a.log)
  {
    OutstandingIs(a.log, v);
    if Unrecovered(a.log, v) {
      FailedOnce(a.log, v);
    } else {
      var k :| 0 <= k < |a.log| && a.log[k].body == Unreadable(v);
      assert IsPlanner(a.log, a.log[k].body.planner);
      CreatedOfSome(a.log, v);
    }
  }

  /** A decision to escalate now satisfies the oracle's condition on the log it read. */
  lemma EscalationAnswerSound(a: Run, d: Decision)
    requires Inv(a) && IsFinalEscalation(a.log, d) && IsCreated(a.log, d.failed)
    ensures AnswerSound(a.log, Boundary(d.failed, None, d.cancelled), {})
  {
    hide Sound, WorkIsCreated;
    CitedSound(a, d.cancelled);
    AskedSound(a, d.failed);
    if FirstScope(a.log, d.failed).Some? {
      assert AgreesAt(a, FirstScope(a.log, d.failed).value);
    }
  }

  lemma CitedSound(a: Run, cited: set<Id>)
    requires Coherent(a) && NeverDeclaredCancelled(a.log) && CitesCancelled(a.log, cited)
    ensures forall s :: s in cited ==> HistOf(a.log, s).closedAt.Some? && CompletedIn(a.log, s)
  {
    forall s | s in cited ensures HistOf(a.log, s).closedAt.Some? && CompletedIn(a.log, s) {
      assert AgreesAt(a, s);
      CancelledCompleted(a.log, s);
    }
  }

  lemma AskedSound(a: Run, v: Id)
    requires Coherent(a) && Unresolved(a.log, v) == {}
    ensures forall s :: AskedFor(a.log, s, v) ==> HistOf(a.log, s).closedAt.Some? || HistOf(a.log, s).suspendedAt.Some?
  {
    forall s | AskedFor(a.log, s, v) ensures HistOf(a.log, s).closedAt.Some? || HistOf(a.log, s).suspendedAt.Some? {
      assert AgreesAt(a, s);
      MentionedHasEntry(a.log, s);
      assert s !in Unresolved(a.log, v);
    }
  }

  /** A decision to replan now discards only from scopes that have closed. */
  lemma SelectionAnswerSound(a: Run, policy: Policy, locked: Option<Locked>, d: Decision)
    requires Inv(a) && IsLegalSelection(a.log, policy, locked, d) && IsCreated(a.log, d.failed)
    ensures AnswerSound(a.log, Boundary(d.failed, d.selected, d.cancelled), d.shadowed)
  {
    hide Sound, WorkIsCreated, RunBlocks, AncestorPlanners, Episode, RuleAuthored, TimesSelected, BacktrackFloor;
    CitedSound(a, d.cancelled);
    AskedSound(a, d.failed);
    forall s | HistOf(a.log, s).openedAt.Some? && HistOf(a.log, s).members * d.shadowed != {}
      ensures HistOf(a.log, s).closedAt.Some? {
      assert AgreesAt(a, s);
      MentionedHasEntry(a.log, s);
      assert s in ScopesMeeting(a.log, d.shadowed);
    }
  }

  /** A request names only scopes that are open, unrequested, and past no pivot that still stands. */
  lemma RequestAskSound(a: Run, d: Decision)
    requires Inv(a) && IsOpenRequest(a.log, d)
    ensures AskSound(a.log, CancelRequested(d.failed, d.requestScopes))
  {
    hide Sound, WorkIsCreated;
    forall s | s in d.requestScopes ensures
        var h := HistOf(a.log, s);
        && h.openedAt.Some? && h.cancellingAt.None? && h.closedAt.None? && h.suspendedAt.None?
        && (Scope(a.log, s).Some? ==> Scope(a.log, s).value.requestedFor.None?)
        && (h.pivotAt.Some? ==> ProvenAbsent(a.log, s))
    {
      assert AgreesAt(a, s);
      if HistOf(a.log, s).pivotAt.Some? { FencedPivotDisproved(a.log, s); }
    }
  }

  lemma RequestSound(a: Run, b: Run, d: Decision)
    requires Inv(a) && d.action == Request && IsOpenRequest(a.log, d) && Appended(a.log, b.log, Drafts(d))
    ensures Sound(b.log)
  {
    var n := |a.log|;
    RequestAskSound(a, d);
    hide Coherent, WorkIsCreated, AskSound, BoundarySoundAt, NeverDeclaredCancelled;
    assert b.log[..n] == a.log;
    assert b.log[n].body == Drafts(d)[0];
    forall i | 0 <= i < |b.log| && b.log[i].body.Boundary? ensures BoundarySoundAt(b.log, i) {
      OldBoundaryStands(a.log, b.log, i);
    }
    forall i | 0 <= i < |b.log| && b.log[i].body.CancelRequested? ensures AskSound(b.log[..i], b.log[i].body) {
      if i < n { OldRequestIn(a.log, b.log, i); }
    }
  }

  lemma OldRequestIn(log: Log, next: Log, i: nat)
    requires Sound(log) && |log| <= |next| && next[..|log|] == log && i < |log| && next[i].body.CancelRequested?
    ensures AskSound(next[..i], next[i].body)
  {
    assert log[i] == next[i];
    assert next[..i] == log[..i];
  }

  lemma OldBoundaryIn(log: Log, next: Log, i: nat)
    requires Sound(log) && |log| <= |next| && next[..|log|] == log && i < |log| && next[i].body.Boundary?
    ensures BoundarySoundAt(next, i)
  {
    assert log[i] == next[i];
    assert next[..i] == log[..i];
    assert BoundarySoundAt(log, i);
    if log[i].body.selected.Some? { assert next[i + 1] == log[i + 1]; }
  }

  lemma RecordSound(a: Run, b: Run, d: Decision)
    requires Inv(a) && d.action == Record && Appended(a.log, b.log, Drafts(d))
    requires AnswerSound(a.log, Boundary(d.failed, d.selected, d.cancelled), if d.selected.Some? then d.shadowed
      else {})
    ensures Sound(b.log)
  {
    var n := |a.log|;
    assert b.log[..n] == a.log;
    assert b.log[n].body == Drafts(d)[0];
    if d.selected.Some? { assert b.log[n + 1].body == Drafts(d)[1]; }
    hide Coherent, WorkIsCreated, AskSound, NeverDeclaredCancelled, AnswerSound;
    forall i | 0 <= i < |b.log| && b.log[i].body.Boundary? ensures BoundarySoundAt(b.log, i) {
      if i < n { OldBoundaryIn(a.log, b.log, i); }
    }
    forall i | 0 <= i < |b.log| && b.log[i].body.CancelRequested? ensures AskSound(b.log[..i], b.log[i].body) {
      if i < n { OldRequestIn(a.log, b.log, i); }
    }
  }

  lemma RecoverSound(policy: Policy, price: Pricing, a: Run, b: Run, v: Id, tries: Tries)
    requires Inv(a) && Takes(policy, price, a, Recover(v, tries), b)
    ensures Sound(b.log)
  {
    hide SelectBoundary, Coherent, Sound, AnswerSound, NeverDeclaredCancelled, IsLegalSelection, IsFinalEscalation,
      IsOpenRequest;
    var locked := Some(View(a.rows, tries));
    var d := SelectBoundary(a.log, v, policy, price, locked);
    DecisionFacts(a.log, v, policy, price, locked);
    OutstandingIsCreated(a, v);
    if d.action == Request {
      RequestSound(a, b, d);
    } else if d.selected.None? {
      EscalationAnswerSound(a, d);
      EscalationUnselected(a.log, d);
      RecordSound(a, b, d);
    } else {
      SelectionAnswerSound(a, policy, locked, d);
      RecordSound(a, b, d);
    }
  }

  lemma EscalationUnselected(log: Log, d: Decision)
    requires IsFinalEscalation(log, d)
    ensures d.selected == None
  {
  }

  lemma RecoverInv(policy: Policy, price: Pricing, a: Run, b: Run, v: Id, tries: Tries)
    requires Inv(a) && Takes(policy, price, a, Recover(v, tries), b)
    ensures Inv(b)
  {
    hide SelectBoundary, Coherent, Sound, CreatedOnce, NeverDeclaredCancelled, Outstanding, View, IsCreated, Recovers,
      Numbered, WorkIsCreated, Drafts;
    StepKeepsCoherent(policy, price, a, Recover(v, tries), b);
    RecoverSound(policy, price, a, b, v, tries);
    RecoveredGrowth(a, b, SelectBoundary(a.log, v, policy, price, Some(View(a.rows, tries))));
  }

  lemma RecoveredGrowth(a: Run, b: Run, d: Decision)
    requires CreatedOnce(a.log) && NeverDeclaredCancelled(a.log) && WorkIsCreated(a) && Recovers(a, b, d)
    ensures Numbered(b.log) && CreatedOnce(b.log) && NeverDeclaredCancelled(b.log) && WorkIsCreated(b)
  {
    hide CreatedOnce, NeverDeclaredCancelled, IsCreated;
    GrowthCreatedOnce(a.log, b.log, Drafts(d));
    GrowthNeverDeclared(a.log, b.log, Drafts(d));
    GrowthWork(a, b, Drafts(d));
  }

  lemma StepInv(policy: Policy, price: Pricing, a: Run, step: Step, b: Run)
    requires Inv(a) && Takes(policy, price, a, step, b)
    ensures Inv(b)
  {
    if step.Recover? {
      RecoverInv(policy, price, a, b, step.v, step.tries);
    } else {
      OrdinaryStepInv(policy, price, a, step, b);
    }
  }

  lemma {:induction false} RunInv(policy: Policy, price: Pricing, run: seq<Run>, steps: seq<Step>, k: nat)
    requires IsRun(policy, price, run, steps) && k < |run|
    ensures Inv(run[k])
  {
    hide Takes, Inv;
    if k == 0 {
      StartInv();
    } else {
      RunInv(policy, price, run, steps, k - 1);
      StepInv(policy, price, run[k - 1], steps[k - 1], run[k]);
    }
  }

  lemma StartInv()
    ensures Inv(Start)
  {
    StartCoherent();
  }

  /* ---------------------------------------------------------------- the theorems */

  /**
   Cancel before replan: in every run, whatever the interleaving, a boundary that selects a
   planner discards work only from closed scopes, cites only scopes that finished cancelling,
   and an escalation never leaves its own scope releasable.
   */
  lemma CancelBeforeReplanAlways(policy: Policy, price: Pricing, run: seq<Run>, steps: seq<Step>, k: nat)
    requires IsRun(policy, price, run, steps) && k < |run|
    ensures CancelBeforeReplan(run[k].log)
  {
    RunInv(policy, price, run, steps, k);
    SoundIsCancelBeforeReplan(run[k].log);
  }

  /**
   Request discipline: in every run the request oracle passes exactly when no request names
   a scope whose pivot had started. Whatever else it demands always holds.
   */
  lemma RequestDisciplineExactly(policy: Policy, price: Pricing, run: seq<Run>, steps: seq<Step>, k: nat)
    requires IsRun(policy, price, run, steps) && k < |run|
    ensures RequestDiscipline(run[k].log) <==> NoPivotBeforeRequest(run[k].log)
    ensures AskedOnce(run[k].log)
    ensures forall i, s ::
      0 <= i < |run[k].log| && run[k].log[i].body.CancelRequested? && s in run[k].log[i].body.requested ==>
        NotAnsweredEarly(run[k].log, i, s)
          && (PivotStartedBefore(run[k].log, i, s) ==> ProvenAbsent(run[k].log[..i], s))
  {
    RunInv(policy, price, run, steps, k);
    var log := run[k].log;
    SoundDiscipline(log);
    SoundIsAskedOnce(log);
    forall i, s | 0 <= i < |log| && log[i].body.CancelRequested? && s in log[i].body.requested
      ensures NotAnsweredEarly(log, i, s) && (PivotStartedBefore(log, i, s) ==> ProvenAbsent(log[..i], s))
    {
      SoundIsNotEarly(log, i, s);
      PivotDatePrefix(log, i, s);
      assert AskSound(log[..i], log[i].body);
    }
  }

  /** The database's guard on requests never fires: the ladder asks only for open, unrequested rows. */
  lemma RequestNeverRefused(policy: Policy, price: Pricing, a: Run, v: Id, tries: Tries)
    requires Inv(a)
    ensures var d := SelectBoundary(a.log, v, policy, price, Some(View(a.rows, tries)));
      d.action == Request ==> forall s :: s in d.requestScopes ==>
        s in a.rows && a.rows[s].state == RowOpen && !a.rows[s].requested
  {
    hide SelectBoundary, Sound, WorkIsCreated, Disagreeing, IsLegalSelection, IsFinalEscalation, CreatedOnce,
      NeverDeclaredCancelled, Numbered, View;
    var locked := Some(View(a.rows, tries));
    var d := SelectBoundary(a.log, v, policy, price, locked);
    DecisionFacts(a.log, v, policy, price, locked);
    if d.action == Request {
      forall s | s in d.requestScopes ensures s in a.rows && a.rows[s].state == RowOpen && !a.rows[s].requested {
        assert AgreesAt(a, s);
      }
    }
  }

  predicate IsClosed(state: RowState) { state == RowCancelled || state == RowCommitted }

  /** Nor does its guard on discards: no discarded vertex belongs to a row that has not closed. */
  lemma DiscardNeverRefused(policy: Policy, price: Pricing, a: Run, v: Id, tries: Tries)
    requires Inv(a)
    ensures var d := SelectBoundary(a.log, v, policy, price, Some(View(a.rows, tries)));
      d.action == Record ==> forall s :: s in a.rows && MembersOf(a.log, s) * d.shadowed != {} ==>
        IsClosed(a.rows[s].state)
  {
    hide SelectBoundary, Sound, WorkIsCreated, RunBlocks, AncestorPlanners, Episode, RuleAuthored, TimesSelected,
      BacktrackFloor;
    var locked := Some(View(a.rows, tries));
    var d := SelectBoundary(a.log, v, policy, price, locked);
    DecisionFacts(a.log, v, policy, price, locked);
    EscalationDiscardsNothing(a.log, v, policy, price, locked);
    if d.action == Record && d.selected.Some? {
      forall s | s in a.rows && MembersOf(a.log, s) * d.shadowed != {} ensures IsClosed(a.rows[s].state) {
        assert AgreesAt(a, s);
        MentionedHasEntry(a.log, s);
        assert s in ScopesMeeting(a.log, d.shadowed);
      }
    }
  }

  lemma EscalationDiscardsNothing(log: Log, v: Id, policy: Policy, price: Pricing, locked: Option<Locked>)
    ensures var d := SelectBoundary(log, v, policy, price, locked); d.selected.None? ==> d.shadowed == {}
  {
    hide Judge, CandidateFor, ScopesMeeting, RunBlocks, AncestorPlanners, Episode, Unresolved, Disagreeing,
      RuleAuthored, CancelledFor, PhaseOf, FirstScope, Cheapest, SuspendedScopes;
  }
}
