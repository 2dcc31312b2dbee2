/**
 When the request oracle passes, and what holds of every request whether it passes or not.

 The oracle forbids asking for a scope whose pivot had started. The ladder does ask for one
 whose pivot was started and then disproved, and in every run that is the only difference.
 */
module RequestSafety {
  import opened EventLog
  import opened CausalGraph
  import opened ScopePhases
  import opened RunOracles
  import opened RecoveryLadder
  import opened LadderFacts
  import opened RunProtocol
  import opened RunInvariant
  import opened RecoverySafety
  import opened RunSafety

  ghost predicate PassedBefore(log: Log, i: nat, s: Id)
    requires i <= |log|
  {
    exists k :: 0 <= k < i && log[k].body.PivotPassed? && log[k].body.txn == s
  }

  predicate IsDisproof(b: Body) { b.Failed? && b.absent && b.scope.Some? }

  predicate AfterPivot(state: RowState) { state == RowPassed || state == RowCommitted || state == RowSuspended }

  predicate Asks(b: Body, s: Id) { b.CancelRequested? && s in b.requested }

  /**
   What the log's pivots say of the rows: only a started pivot is disproved, and a scope whose pivot passed is never
   open again nor asked for.
   */
  ghost predicate PivotStory(a: Run) {
    && (forall s :: s in a.absent ==> PivotStartedBefore(a.log, |a.log|, s))
    && (forall k :: 0 <= k < |a.log| && IsDisproof(a.log[k].body) ==>
      PivotStartedBefore(a.log, k, a.log[k].body.scope.value))
    && (forall k :: 0 <= k < |a.log| && a.log[k].body.PivotPassed? ==>
      a.log[k].body.txn in a.rows && AfterPivot(a.rows[a.log[k].body.txn].state))
    && (forall i, s :: 0 <= i < |a.log| && Asks(a.log[i].body, s) ==> !PassedBefore(a.log, i, s))
  }

  /** How a step moves rows and gaps. */
  lemma StepRows(policy: Policy, price: Pricing, a: Run, step: Step, b: Run)
    requires Takes(policy, price, a, step, b)
    ensures forall s :: s in a.rows && AfterPivot(a.rows[s].state) ==> s in b.rows && AfterPivot(b.rows[s].state)
    ensures forall s :: s in b.absent ==> s in a.absent || InState(a, s, RowInflight)
  {
    hide SelectBoundary, Appended, Outstanding, FreshWork, IsNote, IsReport, CreatedOf;
  }

  lemma StepPivots(policy: Policy, price: Pricing, a: Run, step: Step, b: Run)
    requires !step.Recover? && Takes(policy, price, a, step, b) && (step.FailAbsent? ==> step.s in a.absent)
    ensures forall k :: 0 <= k < |StepBodies(a, step)| && IsDisproof(StepBodies(a, step)[k]) ==>
      StepBodies(a, step)[k].scope.value in a.absent
    ensures forall k :: 0 <= k < |StepBodies(a, step)| && StepBodies(a, step)[k].PivotPassed? ==>
      StepBodies(a, step)[k].txn in b.rows && AfterPivot(b.rows[StepBodies(a, step)[k].txn].state)
  {
    hide SelectBoundary, Appended, Outstanding, CreatedOf, FenceOn, Recovers;
  }

  lemma InflightStarted(a: Run, s: Id)
    requires Coherent(a) && InState(a, s, RowInflight)
    ensures PivotStartedBefore(a.log, |a.log|, s)
  {
    assert AgreesAt(a, s);
    PivotDate(a.log, s);
  }

  lemma StartedGrows(log: Log, next: Log, i: nat, j: nat, s: Id)
    requires i <= j <= |next| && i <= |log| && next[..i] == log[..i] && PivotStartedBefore(log, i, s)
    ensures PivotStartedBefore(next, j, s)
  {
    var k :| 0 <= k < i && log[k].body.Started? && log[k].body.pivot && log[k].body.scope == Some(s);
    assert next[k] == next[..i][k] && log[k] == log[..i][k];
  }

  lemma PassedSame(log: Log, next: Log, i: nat, s: Id)
    requires i <= |log| && i <= |next| && next[..i] == log[..i]
    ensures PassedBefore(log, i, s) <==> PassedBefore(next, i, s)
  {
    assert forall k :: 0 <= k < i ==> next[..i][k] == next[k] && log[..i][k] == log[k];
  }

  /** The story of the grown log, given what each new event may say. */
  lemma StoryGrows(a: Run, b: Run, bodies: seq<Body>)
    requires PivotStory(a) && Appended(a.log, b.log, bodies)
    requires forall s :: s in a.rows && AfterPivot(a.rows[s].state) ==> s in b.rows && AfterPivot(b.rows[s].state)
    requires forall s :: s in b.absent ==> PivotStartedBefore(a.log, |a.log|, s)
    requires forall k :: 0 <= k < |bodies| && IsDisproof(bodies[k]) ==>
      PivotStartedBefore(a.log, |a.log|, bodies[k].scope.value)
    requires forall k :: 0 <= k < |bodies| && bodies[k].PivotPassed? ==>
      bodies[k].txn in b.rows && AfterPivot(b.rows[bodies[k].txn].state)
    requires forall k :: 1 <= k < |bodies| ==> !bodies[k].CancelRequested?
    requires bodies != [] ==> forall s :: Asks(bodies[0], s) ==> !PassedBefore(a.log, |a.log|, s)
    ensures PivotStory(b)
  {
    hide AfterPivot, PivotStartedBefore, PassedBefore, Numbered;
    var n := |a.log|;
    assert forall k :: 0 <= k < n ==> b.log[k] == a.log[k];
    assert a.log[..n] == a.log;
    forall s | s in b.absent ensures PivotStartedBefore(b.log, |b.log|, s) {
      StartedGrows(a.log, b.log, n, |b.log|, s);
    }
    forall k | 0 <= k < |b.log| && IsDisproof(b.log[k].body)
      ensures PivotStartedBefore(b.log, k, b.log[k].body.scope.value) {
      if k < n {
        assert b.log[..k] == a.log[..k];
        StartedGrows(a.log, b.log, k, k, b.log[k].body.scope.value);
      } else {
        assert b.log[k].body == bodies[k - n];
        StartedGrows(a.log, b.log, n, k, b.log[k].body.scope.value);
      }
    }
    forall i, s | 0 <= i < |b.log| && Asks(b.log[i].body, s) ensures !PassedBefore(b.log, i, s) {
      if i >= n {
        assert b.log[i].body == bodies[i - n];
        assert i == n && Asks(bodies[0], s);
      }
      assert b.log[..i] == a.log[..i] && !PassedBefore(a.log, i, s);
      PassedSame(a.log, b.log, i, s);
    }
  }

  lemma GapsStarted(policy: Policy, price: Pricing, a: Run, step: Step, b: Run)
    requires Coherent(a) && PivotStory(a) && Takes(policy, price, a, step, b)
    ensures forall s :: s in b.absent ==> PivotStartedBefore(a.log, |a.log|, s)
  {
    StepRows(policy, price, a, step, b);
    hide Takes, Coherent, PivotStartedBefore;
    forall s | s in b.absent ensures PivotStartedBefore(a.log, |a.log|, s) {
      if s !in a.absent { InflightStarted(a, s); }
    }
  }

  lemma DraftsSay(d: Decision)
    ensures forall k :: 0 <= k < |Drafts(d)| ==>
      !IsDisproof(Drafts(d)[k]) && !Drafts(d)[k].PivotPassed? && (k >= 1 ==> !Drafts(d)[k].CancelRequested?)
    ensures Drafts(d) != [] ==> forall s :: Asks(Drafts(d)[0], s) ==> d.action == Request && s in d.requestScopes
  {
  }

  lemma RecoverStory(policy: Policy, price: Pricing, a: Run, v: Id, tries: Tries, b: Run)
    requires Inv(a) && PivotStory(a) && Takes(policy, price, a, Recover(v, tries), b)
    ensures PivotStory(b)
  {
    hide SelectBoundary, Coherent, Sound, WorkIsCreated, CreatedOnce, NeverDeclaredCancelled, Numbered, Outstanding,
      View, Appended, PivotStartedBefore, PassedBefore, PivotStory, Drafts, AskRows, AfterPivot, Asks, IsDisproof,
      InState;
    StepRows(policy, price, a, Recover(v, tries), b);
    GapsStarted(policy, price, a, Recover(v, tries), b);
    RequestUnpassed(policy, price, a, v, tries);
    var d := SelectBoundary(a.log, v, policy, price, Some(View(a.rows, tries)));
    DraftsSay(d);
    StoryGrows(a, b, Drafts(d));
  }

  lemma StepStory(policy: Policy, price: Pricing, a: Run, step: Step, b: Run)
    requires Inv(a) && PivotStory(a) && Takes(policy, price, a, step, b)
    ensures PivotStory(b)
  {
    hide Takes, PivotStartedBefore, PassedBefore, Coherent, Sound, WorkIsCreated, CreatedOnce, NeverDeclaredCancelled,
      Numbered;
    if step.Recover? {
      hide PivotStory;
      RecoverStory(policy, price, a, step.v, step.tries, b);
    } else {
      StepRows(policy, price, a, step, b);
      GapsStarted(policy, price, a, step, b);
      OrdinaryBodies(policy, price, a, step, b);
      OrdinaryAppended(policy, price, a, step, b);
      StepPivots(policy, price, a, step, b);
      var bodies := StepBodies(a, step);
      hide StepBodies;
      forall k | 0 <= k < |bodies| ensures !bodies[k].CancelRequested? { assert IsPlain(a.log, bodies[k]); }
      StoryGrows(a, b, bodies);
    }
  }

  lemma RequestUnpassed(policy: Policy, price: Pricing, a: Run, v: Id, tries: Tries)
    requires Inv(a) && PivotStory(a)
    ensures var d := SelectBoundary(a.log, v, policy, price, Some(View(a.rows, tries)));
      d.action == Request ==> forall s :: s in d.requestScopes ==> !PassedBefore(a.log, |a.log|, s)
  {
    hide SelectBoundary, Inv, PivotStartedBefore, View;
    RequestNeverRefused(policy, price, a, v, tries);
  }

  lemma {:induction false} RunStory(policy: Policy, price: Pricing, run: seq<Run>, steps: seq<Step>, k: nat)
    requires IsRun(policy, price, run, steps) && k < |run|
    ensures PivotStory(run[k])
  {
    hide Takes, Inv;
    if k > 0 {
      RunStory(policy, price, run, steps, k - 1);
      RunInv(policy, price, run, steps, k - 1);
      StepStory(policy, price, run[k - 1], steps[k - 1], run[k]);
    }
  }

  /**
   When it was asked for, the scope had opened and had not begun to cancel, closed, been suspended or passed its
   pivot; and its failure was not answered before it resolved.
   */
  ghost predicate SoundRequest(log: Log, i: nat, s: Id)
    requires i < |log| && log[i].body.CancelRequested?
  {
    var h, at := HistOf(log, s), log[i].runSeq;
    && h.openedAt.Some? && h.openedAt.value <= at && !Before(h.cancellingAt, at) && !Before(h.closedAt, at)
      && !Before(h.suspendedAt, at)
    && !PassedBefore(log, i, s) && NotAnsweredEarly(log, i, s)
  }

  ghost predicate NoDisproofBeforeRequest(log: Log) {
    forall i, s :: 0 <= i < |log| && Asks(log[i].body, s) ==> !ProvenAbsent(log[..i], s)
  }

  lemma DisprovedIffStarted(a: Run, i: nat, s: Id)
    requires Inv(a) && PivotStory(a) && i < |a.log| && Asks(a.log[i].body, s)
    ensures ProvenAbsent(a.log[..i], s) <==> PivotStartedBefore(a.log, i, s)
  {
    hide Coherent, WorkIsCreated, CreatedOnce, Numbered, NeverDeclaredCancelled;
    assert AskSound(a.log[..i], a.log[i].body);
    PivotDatePrefix(a.log, i, s);
    if ProvenAbsent(a.log[..i], s) {
      var k :| 0 <= k < i && a.log[..i][k].body.Failed? && a.log[..i][k].body.absent
        && a.log[..i][k].body.scope == Some(s);
      assert IsDisproof(a.log[k].body);
      StartedGrows(a.log, a.log, k, i, s);
    }
  }

  /**
   Every request of every run is sound; no scope is asked for twice; and the request oracle
   passes exactly when none of the scopes asked for had a pivot disproved before.
   */
  lemma RequestsAreSound(policy: Policy, price: Pricing, run: seq<Run>, steps: seq<Step>, k: nat)
    requires IsRun(policy, price, run, steps) && k < |run|
    ensures AskedOnce(run[k].log)
    ensures forall i, s :: 0 <= i < |run[k].log| && Asks(run[k].log[i].body, s) ==> SoundRequest(run[k].log, i, s)
    ensures RequestDiscipline(run[k].log) <==> NoDisproofBeforeRequest(run[k].log)
  {
    var a, log := run[k], run[k].log;
    RunInv(policy, price, run, steps, k);
    RunStory(policy, price, run, steps, k);
    hide IsRun, RequestDiscipline, Coherent, WorkIsCreated, CreatedOnce, NeverDeclaredCancelled, ProvenAbsent,
      PivotStartedBefore;
    SoundDiscipline(log);
    SoundIsAskedOnce(log);
    forall i, s | 0 <= i < |log| && Asks(log[i].body, s)
      ensures SoundRequest(log, i, s) && (ProvenAbsent(log[..i], s) <==> PivotStartedBefore(log, i, s)) {
      SoundIsNotEarly(log, i, s);
      assert AskSound(log[..i], log[i].body);
      PastAndFuture(log, i, s);
      DisprovedIffStarted(a, i, s);
    }
  }

  /** Of a finished run the oracle asks besides that no scope asked for is still waiting to cancel or cancelling. */
  lemma ResolvedExactly(policy: Policy, price: Pricing, run: seq<Run>, steps: seq<Step>, k: nat)
    requires IsRun(policy, price, run, steps) && k < |run|
    ensures AllResolved(run[k].log) <==>
      forall i, s :: 0 <= i < |run[k].log| && Asks(run[k].log[i].body, s) ==>
        PhaseOf(run[k].log, s) != Asked && PhaseOf(run[k].log, s) != Cancelling
  {
    var a, log := run[k], run[k].log;
    RunInv(policy, price, run, steps, k);
    hide IsRun, Sound, WorkIsCreated, CreatedOnce, NeverDeclaredCancelled, Coherent, PhaseOf, HistOf;
    forall i, s | 0 <= i < |log| && Asks(log[i].body, s)
      ensures HasResolved(HistOf(log, s)) <==> PhaseOf(log, s) != Asked && PhaseOf(log, s) != Cancelling
    {
      AskedResolves(a, i, s);
    }
  }

  lemma AskedResolves(a: Run, i: nat, s: Id)
    requires Coherent(a) && i < |a.log| && Asks(a.log[i].body, s)
    ensures HasResolved(HistOf(a.log, s)) <==> PhaseOf(a.log, s) != Asked && PhaseOf(a.log, s) != Cancelling
  {
    assert AgreesAt(a, s);
    AskedForIs(a.log, s);
  }
}
