/**
 What every answer in every run's log says.

 Each boundary and each request is the one the log before it called for, so what `LadderMeaning`
 says of one decision can be read off the finished log. The first reading is the savepoint rule: a
 replan never goes back to a planner that succeeded after the work it undoes had begun.
 */
module AnswerSafety {
  import opened EventLog
  import opened CausalGraph
  import opened ScopePhases
  import opened RecoveryLadder
  import opened LadderFacts
  import opened LogPositions
  import opened LogReaders
  import opened LadderMeaning
  import opened RunProtocol
  import opened RunInvariant
  import opened RecoverySafety
  import opened RunSafety

  /** The boundary at `i` is the answer the log before it called for, and is followed by what it discards. */
  ghost predicate RightBoundary(policy: Policy, price: Pricing, log: Log, i: int, d: Decision, locked: Locked) {
    && 0 <= i < |log|
    && IsAnswer(log[..i], d.failed, policy, price, Some(locked), d)
    && d.action == Record
    && log[i].body == Boundary(d.failed, d.selected, d.cancelled)
    && (d.selected.Some? ==> i + 1 < |log| && log[i + 1].body == Shadowed(d.shadowed))
  }

  ghost predicate RightRequest(policy: Policy, price: Pricing, log: Log, i: int, d: Decision, locked: Locked) {
    && 0 <= i < |log|
    && IsAnswer(log[..i], d.failed, policy, price, Some(locked), d)
    && d.action == Request
    && log[i].body == CancelRequested(d.failed, d.requestScopes)
  }

  ghost predicate AnswersRight(policy: Policy, price: Pricing, log: Log) {
    && (forall i :: 0 <= i < |log| && log[i].body.Boundary? ==>
      exists d, locked :: RightBoundary(policy, price, log, i, d, locked))
    && (forall i :: 0 <= i < |log| && log[i].body.CancelRequested? ==>
      exists d, locked :: RightRequest(policy, price, log, i, d, locked))
  }

  lemma RightGrows(policy: Policy, price: Pricing, log: Log, next: Log)
    requires AnswersRight(policy, price, log) && |log| <= |next| && next[..|log|] == log
    requires forall k :: |log| <= k < |next| && next[k].body.Boundary? ==>
      exists d, locked :: RightBoundary(policy, price, next, k, d, locked)
    requires forall k :: |log| <= k < |next| && next[k].body.CancelRequested? ==>
      exists d, locked :: RightRequest(policy, price, next, k, d, locked)
    ensures AnswersRight(policy, price, next)
  {
    hide IsAnswer;
    forall i | 0 <= i < |log| ensures next[i] == log[i] && next[..i] == log[..i] {
      assert next[..i] == next[..|log|][..i];
    }
    forall i | 0 <= i < |log| && next[i].body.Boundary?
      ensures exists d, locked :: RightBoundary(policy, price, next, i, d, locked)
    {
      var d, locked :| RightBoundary(policy, price, log, i, d, locked);
      assert RightBoundary(policy, price, next, i, d, locked);
    }
    forall i | 0 <= i < |log| && next[i].body.CancelRequested?
      ensures exists d, locked :: RightRequest(policy, price, next, i, d, locked)
    {
      var d, locked :| RightRequest(policy, price, log, i, d, locked);
      assert RightRequest(policy, price, next, i, d, locked);
    }
  }

  lemma RecoverRight(policy: Policy, price: Pricing, a: Run, v: Id, tries: Tries, b: Run)
    requires Numbered(a.log) && AnswersRight(policy, price, a.log) && Takes(policy, price, a, Recover(v, tries), b)
    ensures AnswersRight(policy, price, b.log)
  {
    hide SelectBoundary, Outstanding, View, IsAnswer, AnswersRight, AskRows, Numbered;
    var locked := View(a.rows, tries);
    var d := SelectBoundary(a.log, v, policy, price, Some(locked));
    var n := |a.log|;
    DecisionExactly(a.log, v, policy, price, Some(locked));
    AnswerNames(a.log, v, policy, price, Some(locked), d);
    assert forall k :: n <= k < |b.log| ==> b.log[k].body == Drafts(d)[k - n];
    if d.action == Request {
      assert RightRequest(policy, price, b.log, n, d, locked);
    } else {
      assert RightBoundary(policy, price, b.log, n, d, locked);
    }
    RightGrows(policy, price, a.log, b.log);
  }

  lemma AnswerNames(log: Log, v: Id, policy: Policy, price: Pricing, locked: Option<Locked>, d: Decision)
    requires IsAnswer(log, v, policy, price, locked, d)
    ensures d.failed == v
  {
  }

  lemma OrdinaryRight(policy: Policy, price: Pricing, a: Run, step: Step, b: Run)
    requires Inv(a) && AnswersRight(policy, price, a.log) && !step.Recover? && Takes(policy, price, a, step, b)
    ensures AnswersRight(policy, price, b.log)
  {
    hide Takes, StepBodies, Coherent, Sound, WorkIsCreated, CreatedOnce, NeverDeclaredCancelled, Numbered, AnswersRight;
    OrdinaryBodies(policy, price, a, step, b);
    OrdinaryAppended(policy, price, a, step, b);
    var bodies := StepBodies(a, step);
    forall k | |a.log| <= k < |b.log| ensures !Answering(b.log[k].body) {
      assert b.log[k].body == bodies[k - |a.log|];
      assert IsPlain(a.log, bodies[k - |a.log|]);
    }
    RightGrows(policy, price, a.log, b.log);
  }

  /** In every run every boundary and every request is the one the log before it called for. */
  lemma {:induction false} AnswersAlwaysRight(policy: Policy, price: Pricing, run: seq<Run>, steps: seq<Step>, k: nat)
    requires IsRun(policy, price, run, steps) && k < |run|
    ensures AnswersRight(policy, price, run[k].log)
  {
    hide Takes, Inv, AnswersRight;
    if k == 0 {
      NothingAnswered(policy, price);
    } else {
      AnswersAlwaysRight(policy, price, run, steps, k - 1);
      RunInv(policy, price, run, steps, k - 1);
      if steps[k - 1].Recover? {
        assert Numbered(run[k - 1].log) by { InvNumbered(run[k - 1]); }
        RecoverRight(policy, price, run[k - 1], steps[k - 1].v, steps[k - 1].tries, run[k]);
      } else {
        OrdinaryRight(policy, price, run[k - 1], steps[k - 1], run[k]);
      }
    }
  }

  lemma InvNumbered(a: Run)
    requires Inv(a)
    ensures Numbered(a.log)
  {
  }

  lemma NothingAnswered(policy: Policy, price: Pricing)
    ensures AnswersRight(policy, price, [])
  {
  }

  /* ---------------------------------------------------------------- released scopes stay released */

  /** A scope whose cancellation completed is never anything but cancelled or suspended again. */
  ghost predicate ReleasedStay(a: Run) {
    forall i, s :: 0 <= i < |a.log| && a.log[i].body == Cancel(s, true) ==>
      s in a.rows && a.rows[s].state in {RowCancelled, RowSuspended}
  }

  lemma StepReleased(policy: Policy, price: Pricing, a: Run, step: Step, b: Run, s: Id)
    requires Takes(policy, price, a, step, b)
    ensures InState(a, s, RowCancelled) || InState(a, s, RowSuspended) ==>
      InState(b, s, RowCancelled) || InState(b, s, RowSuspended)
    ensures step == CompleteCancel(s) ==> InState(b, s, RowCancelled)
  {
    hide Appended, CreatedOf, FreshWork, IsNote, IsReport, Outstanding, SelectBoundary;
  }

  lemma ReleasesNamed(policy: Policy, price: Pricing, a: Run, step: Step, b: Run, k: nat, s: Id)
    requires !step.Recover? && Takes(policy, price, a, step, b) && (step.FailAbsent? ==> step.s in a.absent)
    requires k < |StepBodies(a, step)| && StepBodies(a, step)[k] == Cancel(s, true)
    ensures step == CompleteCancel(s)
  {
    hide Appended, CreatedOf, Outstanding, SelectBoundary, IsCreated, IsPlanner, Recovers;
  }

  lemma StepReleasedStay(policy: Policy, price: Pricing, a: Run, step: Step, b: Run)
    requires Inv(a) && ReleasedStay(a) && Takes(policy, price, a, step, b)
    ensures ReleasedStay(b)
  {
    hide Takes, StepBodies, Coherent, Sound, WorkIsCreated, CreatedOnce, NeverDeclaredCancelled, Numbered;
    if step.Recover? { RecoverAppends(policy, price, a, step.v, step.tries, b); }
    else { OrdinaryAppended(policy, price, a, step, b); }
    forall i, s | 0 <= i < |b.log| && b.log[i].body == Cancel(s, true)
      ensures s in b.rows && b.rows[s].state in {RowCancelled, RowSuspended}
    {
      StepReleased(policy, price, a, step, b, s);
      if i < |a.log| {
        assert b.log[..|a.log|][i] == a.log[i];
      } else if step.Recover? {
        assert false;
      } else {
        ReleasesNamed(policy, price, a, step, b, i - |a.log|, s);
      }
    }
  }

  lemma RecoverAppends(policy: Policy, price: Pricing, a: Run, v: Id, tries: Tries, b: Run)
    requires Takes(policy, price, a, Recover(v, tries), b)
    ensures |a.log| <= |b.log| && b.log[..|a.log|] == a.log
    ensures forall k :: |a.log| <= k < |b.log| ==> !b.log[k].body.Cancel?
  {
    hide SelectBoundary, Outstanding, Numbered;
    var d := SelectBoundary(a.log, v, policy, price, Some(View(a.rows, tries)));
    assert forall k :: |a.log| <= k < |b.log| ==> b.log[k].body == Drafts(d)[k - |a.log|];
  }

  lemma {:induction false} RunReleased(policy: Policy, price: Pricing, run: seq<Run>, steps: seq<Step>, k: nat)
    requires IsRun(policy, price, run, steps) && k < |run|
    ensures ReleasedStay(run[k])
  {
    hide Takes, Inv;
    if k > 0 {
      RunReleased(policy, price, run, steps, k - 1);
      RunInv(policy, price, run, steps, k - 1);
      StepReleasedStay(policy, price, run[k - 1], steps[k - 1], run[k]);
    }
  }

  /* ---------------------------------------------------------------- the savepoint rule */

  /** Some vertex the boundary at `i` discards was created in this scope. */
  ghost predicate DiscardsFrom(log: Log, i: int, s: Id) {
    && 0 <= i && i + 1 < |log| && log[i + 1].body.Shadowed?
    && exists m ::
      0 <= m < i && log[m].body.Created? && log[m].body.scope == Some(s) && log[m].body.vertex in log[i + 1].body.hidden
  }

  /** The scope was released before `i`, and after everything that had gone wrong with `v` by then. */
  ghost predicate ReleasedFor(log: Log, i: int, v: Id, s: Id) {
    exists c ::
      0 <= c < i <= |log| && log[c].body == Cancel(s, true)
        && forall f :: 0 <= f < i && Troubles(v)(log[f]) ==> f < c
  }

  /**
   A boundary that goes back to `p` discards from no scope released for this failure that anything had spoken of
   before `p` last succeeded.
   */
  ghost predicate SavepointKept(log: Log, i: int)
    requires 0 <= i < |log| && log[i].body.Boundary?
  {
    log[i].body.selected.Some? ==>
      forall s, j, q ::
        DiscardsFrom(log, i, s) && ReleasedFor(log, i, log[i].body.answered, s) && 0 <= j < i && Namings(s)(log[j])
            && Last(log[..i], Successes(log[i].body.selected.value), q) ==>
          q <= j
  }

  ghost predicate SavepointsKept(log: Log) {
    forall i :: 0 <= i < |log| && log[i].body.Boundary? ==> SavepointKept(log, i)
  }

  /** What a recorded selection rests on: a priced verdict on the planner it goes back to. */
  lemma SelectionRests(log: Log, v: Id, policy: Policy, price: Pricing, locked: Option<Locked>, d: Decision)
      returns (e: Above)
    requires IsAnswer(log, v, policy, price, locked, d) && d.selected.Some? && CreatedOnce(log)
    ensures e.planner == d.selected.value && SuccessSeq(log, e.planner) == Some(e.succeededAt)
    ensures !UndoesEarlier(log, v, e)
    ensures forall m :: m in d.shadowed ==> m in Descendants(log, e.planner) && Never(log, Discards(m))
  {
    hide Differs, EpisodeBegan, Tally, Unplannable, UndoesEarlier, Disturbs, Never, Descendants, Reportable, Blocks,
      StillReleasing, PhaseOf, AncestorPlanners, HoldsUp, OwnScope, IsNearest;
    AncestorPlannersExact(log, v);
    var k :| IsChoice(d.candidates, k) && IsResumption(log, locked, d.candidates[k].planner, d);
    e := AncestorPlanners(log, v)[k];
    assert e in AncestorPlanners(log, v);
  }

  lemma ReleasedPhase(a: Run, s: Id, c: nat)
    requires Coherent(a) && ReleasedStay(a) && c < |a.log| && a.log[c].body == Cancel(s, true)
    ensures PhaseOf(a.log, s) == Cancelled || PhaseOf(a.log, s) == Suspended
  {
    hide Scope;
    assert AgreesAt(a, s);
  }

  lemma RecordKeepsSavepoint(policy: Policy, price: Pricing, a: Run, v: Id, tries: Tries, b: Run)
    requires Inv(a) && ReleasedStay(a) && Takes(policy, price, a, Recover(v, tries), b)
    requires b.log[|a.log|].body.Boundary?
    ensures SavepointKept(b.log, |a.log|)
  {
    hide SelectBoundary, Coherent, Sound, WorkIsCreated, NeverDeclaredCancelled, Outstanding, View, AskRows, IsAnswer,
      SuspendedScopes, IsFinalEscalation, IsOpenRequest, Disagreeing, ReleasedStay, Numbered, UndoesEarlier,
      CreatedOnce,
      SuccessSeq, Descendants, Never, SavepointKept, AncestorPlanners, RunBlocks, ScopesMeeting, ShadowSet, Unresolved;
    var locked, n := Some(View(a.rows, tries)), |a.log|;
    var d := SelectBoundary(a.log, v, policy, price, locked);
    DecisionExactly(a.log, v, policy, price, locked);
    DecisionFacts(a.log, v, policy, price, locked);
    assert forall k :: n <= k < |b.log| ==> b.log[k].body == Drafts(d)[k - n];
    if d.selected.Some? {
      var e := SelectionRests(a.log, v, policy, price, locked, d);
      SuspendedIs(a.log);
      NothingEarlier(a, v, d, e, b.log);
    } else {
      UnselectedKept(b.log, n);
    }
  }

  lemma UnselectedKept(log: Log, i: nat)
    requires i < |log| && log[i].body.Boundary? && log[i].body.selected.None?
    ensures SavepointKept(log, i)
  {
  }

  lemma NothingEarlier(a: Run, v: Id, d: Decision, e: Above, log: Log)
    requires Numbered(a.log) && Coherent(a) && ReleasedStay(a) && |a.log| + 1 < |log| && log[..|a.log|] == a.log
    requires log[|a.log|].body == Boundary(v, Some(e.planner), d.cancelled)
    requires log[|a.log| + 1].body == Shadowed(d.shadowed)
    requires SuccessSeq(a.log, e.planner) == Some(e.succeededAt) && !UndoesEarlier(a.log, v, e)
    requires forall m :: m in d.shadowed ==> m in Descendants(a.log, e.planner) && Never(a.log, Discards(m))
    requires forall s :: PhaseOf(a.log, s) != Suspended
    ensures SavepointKept(log, |a.log|)
  {
    hide *;
    assert forall i :: 0 <= i < |a.log| ==> log[i] == a.log[i];
    forall s: Id, j, q | DiscardsFrom(log, |a.log|, s) && ReleasedFor(log, |a.log|, v, s) && 0 <= j < |a.log|
        && Namings(s)(log[j]) && Last(log[..|a.log|], Successes(e.planner), q)
      ensures q <= j
    {
      ReleasedUndone(a, v, s, log);
      DiscardDisturbs(a.log, e.planner, d.shadowed, s, log);
      NotBefore(a.log, v, e, s, j, q);
    }
    KeptFrom(log, |a.log|);
  }

  lemma KeptFrom(log: Log, i: nat)
    requires i < |log| && log[i].body.Boundary? && log[i].body.selected.Some?
    requires forall s, j, q ::
      DiscardsFrom(log, i, s) && ReleasedFor(log, i, log[i].body.answered, s) && 0 <= j < i && Namings(s)(log[j])
          && Last(log[..i], Successes(log[i].body.selected.value), q) ==>
        q <= j
    ensures SavepointKept(log, i)
  {
    hide DiscardsFrom, ReleasedFor, Last;
  }

  lemma ReleasedUndone(a: Run, v: Id, s: Id, log: Log)
    requires Numbered(a.log) && Coherent(a) && ReleasedStay(a) && |a.log| <= |log| && log[..|a.log|] == a.log
    requires ReleasedFor(log, |a.log|, v, s) && PhaseOf(a.log, s) != Suspended
    ensures PhaseOf(a.log, s) == Cancelled && UndoneSince(a.log, v, s)
  {
    hide Coherent, ReleasedStay, PhaseOf, Numbered, UndoneSince;
    var c :| 0 <= c < |a.log| && log[c].body == Cancel(s, true)
      && forall f :: 0 <= f < |a.log| && Troubles(v)(log[f]) ==> f < c;
    assert forall i :: 0 <= i < |a.log| ==> log[i] == a.log[i];
    ReleasedPhase(a, s, c);
    UndoneAfter(a.log, v, s, c);
  }

  lemma DiscardDisturbs(pre: Log, p: Id, discarded: set<Id>, s: Id, log: Log)
    requires |pre| + 1 < |log| && log[..|pre|] == pre && log[|pre| + 1].body == Shadowed(discarded)
    requires forall m :: m in discarded ==> m in Descendants(pre, p) && Never(pre, Discards(m))
    requires DiscardsFrom(log, |pre|, s) && PhaseOf(pre, s) != Unmaterialized
    ensures Disturbs(pre, p, s)
  {
    hide PhaseOf, Descendants, Never;
    var m :| 0 <= m < |pre| && log[m].body.Created? && log[m].body.scope == Some(s)
      && log[m].body.vertex in log[|pre| + 1].body.hidden;
    assert log[m] == pre[m];
  }

  lemma UndoneAfter(log: Log, v: Id, s: Id, c: nat)
    requires Numbered(log) && c < |log| && log[c].body == Cancel(s, true) && PhaseOf(log, s) == Cancelled
    requires forall f :: 0 <= f < |log| && Troubles(v)(log[f]) ==> f < c
    ensures UndoneSince(log, v, s)
  {
    hide PhaseOf;
    assert Closings(s)(log[c]);
  }

  lemma {:induction false} NotBefore(log: Log, v: Id, e: Above, s: Id, j: int, q: int)
    requires Numbered(log) && !UndoesEarlier(log, v, e) && Disturbs(log, e.planner, s) && UndoneSince(log, v, s)
    requires 0 <= j < |log| && Namings(s)(log[j]) && Last(log, Successes(e.planner), q)
    requires SuccessSeq(log, e.planner) == Some(e.succeededAt)
    ensures q <= j
  {
    hide Disturbs, UndoneSince, SuccessSeq, Namings;
    SuccessSeqIs(log, e.planner);
  }

  lemma SavepointGrows(log: Log, next: Log)
    requires SavepointsKept(log) && |log| <= |next| && next[..|log|] == log
    requires forall i :: 0 <= i < |log| && log[i].body.Boundary? && log[i].body.selected.Some? ==> i + 1 < |log|
    requires forall i :: |log| <= i < |next| && next[i].body.Boundary? ==> SavepointKept(next, i)
    ensures SavepointsKept(next)
  {
    hide Last;
    forall i | 0 <= i < |log| && next[i].body.Boundary? ensures SavepointKept(next, i) {
      assert forall j :: 0 <= j < |log| ==> next[j] == log[j];
      assert next[..i] == log[..i];
      assert SavepointKept(log, i);
    }
  }

  lemma StepSavepoints(policy: Policy, price: Pricing, a: Run, step: Step, b: Run)
    requires Inv(a) && ReleasedStay(a) && AnswersRight(policy, price, a.log) && SavepointsKept(a.log)
    requires Takes(policy, price, a, step, b)
    ensures SavepointsKept(b.log)
  {
    hide Takes, StepBodies, Coherent, Sound, WorkIsCreated, CreatedOnce, NeverDeclaredCancelled, Numbered,
      SavepointsKept,
      ReleasedStay, SavepointKept, IsAnswer;
    assert forall i :: 0 <= i < |a.log| && a.log[i].body.Boundary? && a.log[i].body.selected.Some? ==> i + 1 < |a.log|;
    if step.Recover? {
      RecoverAppends(policy, price, a, step.v, step.tries, b);
      OneBoundary(policy, price, a, step.v, step.tries, b);
      if b.log[|a.log|].body.Boundary? { RecordKeepsSavepoint(policy, price, a, step.v, step.tries, b); }
    } else {
      OrdinaryBodies(policy, price, a, step, b);
      OrdinaryAppended(policy, price, a, step, b);
      forall k | |a.log| <= k < |b.log| ensures !b.log[k].body.Boundary? {
        assert IsPlain(a.log, StepBodies(a, step)[k - |a.log|]);
      }
    }
    SavepointGrows(a.log, b.log);
  }

  lemma OneBoundary(policy: Policy, price: Pricing, a: Run, v: Id, tries: Tries, b: Run)
    requires Takes(policy, price, a, Recover(v, tries), b)
    ensures |a.log| < |b.log| && forall k :: |a.log| < k < |b.log| ==> !b.log[k].body.Boundary?
  {
    hide SelectBoundary, Outstanding, Numbered;
    var d := SelectBoundary(a.log, v, policy, price, Some(View(a.rows, tries)));
    assert forall k :: |a.log| <= k < |b.log| ==> b.log[k].body == Drafts(d)[k - |a.log|];
  }

  /** In every run no replan undoes what had begun before the planner it goes back to succeeded. */
  lemma {:induction false} SavepointsAlwaysKept(policy: Policy, price: Pricing, run: seq<Run>, steps: seq<Step>, k: nat)
    requires IsRun(policy, price, run, steps) && k < |run|
    ensures SavepointsKept(run[k].log)
  {
    hide Takes, Inv, AnswersRight, SavepointsKept, ReleasedStay;
    if k == 0 {
      NothingKept();
    } else {
      SavepointsAlwaysKept(policy, price, run, steps, k - 1);
      RunInv(policy, price, run, steps, k - 1);
      RunReleased(policy, price, run, steps, k - 1);
      AnswersAlwaysRight(policy, price, run, steps, k - 1);
      StepSavepoints(policy, price, run[k - 1], steps[k - 1], run[k]);
    }
  }

  lemma NothingKept()
    ensures SavepointsKept([])
  {
  }
}
