/**
 The oracle that a failure inside a router's branch never calls a model, read over whole runs.

 The oracle finds a router's branch by ancestry: whatever was created under a router that had
 started, and everything below it. The ladder asks who proposed the failed vertex instead, because
 a branch may hold a planner, whose own proposals are a model's. The two part company there.
 */
module DeterministicBranches {
  import opened EventLog
  import opened CausalGraph
  import opened ScopePhases
  import opened RecoveryLadder
  import opened LadderFacts
  import opened RunProtocol
  import opened RunInvariant
  import opened RecoverySafety
  import opened RunSafety
  import opened RecoveryBounds
  import opened RecoveryWitnesses
  import W = CoordinatorWitnesses

  /* ---------------------------------------------------------------- the oracle */

  /** When a vertex last started. */
  function LastStart(log: Log, v: Id): (at: Option<nat>) {
    if log == [] then None
    else
      var last := log[|log| - 1];
      if last.body.Started? && last.body.vertex == v then Some(last.runSeq) else LastStart(log[..|log| - 1], v)
  }

  /** A router last started before this position. */
  predicate RunningRouter(log: Log, r: Id, at: nat) {
    HasRole(log, r, Router) && LastStart(log, r).Some? && LastStart(log, r).value < at
  }

  /**
   The vertices of routers' branches among the first `n` events: emitted by a running router, or below one that was.
   */
  function Branch(log: Log, n: nat): (ids: set<Id>)
    requires n <= |log|
  {
    if n == 0 then {}
    else
      var before := Branch(log, n - 1);
      var e := log[n - 1];
      if e.body.Created? && exists p :: p in e.body.parents && (RunningRouter(log, p, e.runSeq) || p in before)
      then before + {e.body.vertex} else before
  }

  predicate BranchFailure(log: Log, i: nat)
    requires i < |log|
  {
    log[i].body.Failed? && log[i].body.vertex in Branch(log, |log|)
  }

  /** The first failure inside a router's branch, at or after a position. */
  function FirstBranchFailure(log: Log, n: nat): (i: Option<nat>)
    requires n <= |log|
    ensures i.Some? ==> n <= i.value < |log| && BranchFailure(log, i.value)
    ensures i.Some? ==> forall k :: n <= k < i.value ==> !BranchFailure(log, k)
    ensures i.None? ==> forall k :: n <= k < |log| ==> !BranchFailure(log, k)
    decreases |log| - n
  {
    if n == |log| then None else if BranchFailure(log, n) then Some(n) else FirstBranchFailure(log, n + 1)
  }

  predicate CallsModel(log: Log, b: Body) { b.Started? && HasRole(log, b.vertex, Planner) }

  /** O2.no_deterministic_replan: after the first branch failure no boundary selects a planner and no planner starts. */
  ghost predicate NoDeterministicReplan(log: Log) {
    var first := FirstBranchFailure(log, 0);
    first.Some? ==> forall i :: 0 <= i < |log| && log[i].runSeq > log[first.value].runSeq ==>
      && !(log[i].body.Boundary? && log[i].body.selected.Some?)
      && !(log[i].body.Started? && HasRole(log, log[i].body.vertex, Planner))
  }

  /** The pass over the log, with a map of the routers' last starts. */
  method LastStarts(log: Log) returns (starts: map<Id, nat>)
    ensures forall v :: v in starts <==> LastStart(log, v).Some?
    ensures forall v :: v in starts ==> LastStart(log, v) == Some(starts[v])
  {
    starts := map[];
    for n := 0 to |log|
      invariant forall v :: v in starts <==> LastStart(log[..n], v).Some?
      invariant forall v :: v in starts ==> LastStart(log[..n], v) == Some(starts[v])
    {
      assert log[..n + 1][..n] == log[..n];
      if log[n].body.Started? { starts := starts[log[n].body.vertex := log[n].runSeq]; }
    }
    assert log[..|log|] == log;
  }

  method CheckNoDeterministicReplan(log: Log) returns (passed: bool)
    ensures passed <==> NoDeterministicReplan(log)
  {
    var starts := LastStarts(log);
    var branch: set<Id> := {};
    for n := 0 to |log|
      invariant branch == Branch(log, n)
    {
      var b := log[n].body;
      if b.Created? && exists p ::
        p in b.parents && ((HasRole(log, p, Router) && p in starts && starts[p] < log[n].runSeq) || p in branch) {
        branch := branch + {b.vertex};
      }
    }
    var failure := 0;
    while failure < |log| && !(log[failure].body.Failed? && log[failure].body.vertex in branch)
      invariant failure <= |log| && FirstBranchFailure(log, 0) == FirstBranchFailure(log, failure)
    {
      failure := failure + 1;
    }
    if failure == |log| { return true; }
    for i := 0 to |log|
      invariant forall k :: 0 <= k < i && log[k].runSeq > log[failure].runSeq ==>
        !Selecting(log[k].body) && !CallsModel(log, log[k].body)
    {
      if log[i].runSeq > log[failure].runSeq && (Selecting(log[i].body) || CallsModel(log, log[i].body)) {
        return false;
      }
    }
    passed := true;
  }

  /* ---------------------------------------------------------------- in every run */

  /** No replan answers work a rule authored. */
  ghost predicate RulesNotReplanned(log: Log) {
    forall i :: 0 <= i < |log| && Selecting(log[i].body) ==> !RuleAuthored(log[..i], log[i].body.answered)
  }

  lemma RulesGrow(log: Log, next: Log)
    requires RulesNotReplanned(log) && Prefix(log, next)
    requires forall k :: |log| <= k < |next| && Selecting(next[k].body) ==>
      k == |log| && !RuleAuthored(log, next[k].body.answered)
    ensures RulesNotReplanned(next)
  {
    hide RuleAuthored;
    forall i | 0 <= i < |next| && Selecting(next[i].body) ensures !RuleAuthored(next[..i], next[i].body.answered) {
      if i < |log| { assert log[i] == next[i] && next[..i] == log[..i]; }
    }
  }

  lemma DraftsSelect(log: Log, next: Log, d: Decision)
    requires Appended(log, next, Drafts(d)) && (d.action == Record && d.selected.Some? ==> !RuleAuthored(log, d.failed))
    ensures forall k :: |log| <= k < |next| && Selecting(next[k].body) ==>
      k == |log| && !RuleAuthored(log, next[k].body.answered)
  {
    hide RuleAuthored, Numbered;
    assert forall k :: |log| <= k < |next| ==> next[k].body == Drafts(d)[k - |log|];
  }

  lemma LegalNotByRule(log: Log, policy: Policy, locked: Option<Locked>, d: Decision)
    requires IsLegalSelection(log, policy, locked, d)
    ensures !RuleAuthored(log, d.failed)
  {
  }

  lemma RecoverRules(policy: Policy, price: Pricing, a: Run, v: Id, tries: Tries, b: Run)
    requires RulesNotReplanned(a.log) && Takes(policy, price, a, Recover(v, tries), b)
    ensures RulesNotReplanned(b.log)
  {
    hide SelectBoundary, Outstanding, View, RulesNotReplanned, IsLegalSelection, IsFinalEscalation, IsOpenRequest,
      Disagreeing, Drafts, AskRows, RuleAuthored, Numbered;
    var locked := Some(View(a.rows, tries));
    var d := SelectBoundary(a.log, v, policy, price, locked);
    DecisionFacts(a.log, v, policy, price, locked);
    if d.action == Record && d.selected.Some? { LegalNotByRule(a.log, policy, locked, d); }
    DraftsSelect(a.log, b.log, d);
    RulesGrow(a.log, b.log);
  }

  lemma OrdinaryRules(policy: Policy, price: Pricing, a: Run, step: Step, b: Run)
    requires Inv(a) && RulesNotReplanned(a.log) && !step.Recover? && Takes(policy, price, a, step, b)
    ensures RulesNotReplanned(b.log)
  {
    hide Takes, StepBodies, Coherent, Sound, WorkIsCreated, CreatedOnce, NeverDeclaredCancelled, Numbered,
      RulesNotReplanned, RuleAuthored;
    OrdinaryBodies(policy, price, a, step, b);
    OrdinaryAppended(policy, price, a, step, b);
    var bodies := StepBodies(a, step);
    forall k | |a.log| <= k < |b.log| ensures !Selecting(b.log[k].body) {
      assert b.log[k].body == bodies[k - |a.log|];
      assert IsPlain(a.log, bodies[k - |a.log|]);
    }
    RulesGrow(a.log, b.log);
  }

  lemma {:induction false} RunRules(policy: Policy, price: Pricing, run: seq<Run>, steps: seq<Step>, k: nat)
    requires IsRun(policy, price, run, steps) && k < |run|
    ensures RulesNotReplanned(run[k].log)
  {
    hide Takes, Inv, RuleAuthored;
    if k > 0 {
      RunRules(policy, price, run, steps, k - 1);
      RunInv(policy, price, run, steps, k - 1);
      if steps[k - 1].Recover? {
        RecoverRules(policy, price, run[k - 1], steps[k - 1].v, steps[k - 1].tries, run[k]);
      } else {
        OrdinaryRules(policy, price, run[k - 1], steps[k - 1], run[k]);
      }
    }
  }

  /** After this event every boundary about work no rule authored escalates, and no planner starts. */
  ghost predicate ModelLeftAlone(log: Log, first: nat)
    requires first < |log|
  {
    forall i :: first < i < |log| ==>
      && (log[i].body.Boundary? && !RuleAuthored(log[..i], log[i].body.answered) ==> log[i].body.selected.None?)
      && !CallsModel(log, log[i].body)
  }

  /**
   In every run, work a rule authored is never replanned, so the oracle passes exactly when, from the first
   branch failure on, every failure of work no rule authored that is answered is escalated, and no planner starts.
   */
  lemma DeterministicExactly(policy: Policy, price: Pricing, run: seq<Run>, steps: seq<Step>, k: nat)
    requires IsRun(policy, price, run, steps) && k < |run|
    ensures RulesNotReplanned(run[k].log)
    ensures var log := run[k].log; var first := FirstBranchFailure(log, 0);
      NoDeterministicReplan(log) <==> first.None? || ModelLeftAlone(log, first.value)
  {
    RunRules(policy, price, run, steps, k);
    RunInv(policy, price, run, steps, k);
    hide IsRun, Coherent, Sound, WorkIsCreated, CreatedOnce, NeverDeclaredCancelled, Numbered, RulesNotReplanned,
      NoDeterministicReplan, ModelLeftAlone;
    LeftAloneExactly(run[k].log);
  }

  lemma {:induction false} LeftAloneExactly(log: Log)
    requires Numbered(log) && RulesNotReplanned(log)
    ensures var first := FirstBranchFailure(log, 0); NoDeterministicReplan(log) <==>
      first.None? || ModelLeftAlone(log, first.value)
  {
    hide RuleAuthored, HasRole, BranchFailure;
    var first := FirstBranchFailure(log, 0);
    if first.Some? {
      assert forall i :: 0 <= i < |log| ==> (log[i].runSeq > log[first.value].runSeq <==> i > first.value);
      assert forall i :: 0 <= i < |log| && log[i].body.Boundary? ==>
        (Selecting(log[i].body) <==> log[i].body.selected.Some?);
    }
  }

  /* ---------------------------------------------------------------- a branch that holds a planner */

  /** A router runs and a rule's branch holds a planner; that planner proposes a tool of its own, which fails. */
  function Emitted(): (b: seq<Body>) {
    [Frozen(0), Created(7, [], None, Router), Started(7, None, false), Proposed(ByRouter)]
  }
  function Planned(): (b: seq<Body>) { Emitted() + [Frozen(4), Created(4, [7], None, Planner)] }
  function Answered(): (b: seq<Body>) { Planned() + [Succeeded(4, None)] }
  function Proposes(): (b: seq<Body>) { Answered() + [Frozen(0), Created(5, [4], None, Tool)] }
  function Fallen(): (b: seq<Body>) { Proposes() + [Failed(5, None, false)] }

  function Bare(bodies: seq<Body>): (a: Run) { Run(Written(bodies), map[], map[]) }

  lemma FreezeTakes(policy: Policy, price: Pricing, bodies: seq<Body>, proposedSeq: nat, created: Body)
    requires created.Created? && forall i :: 0 <= i < |bodies| && bodies[i].Created? ==>
      bodies[i].vertex != created.vertex
    ensures Takes(policy, price, Bare(bodies), Freeze(proposedSeq, [created]), Bare(bodies
      + [Frozen(proposedSeq), created]))
  {
    Wrote(bodies, [Frozen(proposedSeq), created]);
    assert [Frozen(proposedSeq)] + [created] == [Frozen(proposedSeq), created];
    hide Appended;
  }

  lemma NoteTakes(policy: Policy, price: Pricing, bodies: seq<Body>)
    ensures Takes(policy, price, Bare(bodies), Note(Proposed(ByRouter)), Bare(bodies + [Proposed(ByRouter)]))
  {
    Wrote(bodies, [Proposed(ByRouter)]);
    hide Appended, Written;
  }

  /** A start, a success or a failure of a vertex in no scope. */
  predicate PlainReport(b: Body, v: Id) {
    b == Started(v, None, false) || (b.Succeeded? && b.vertex == v && b.scope == None) || b == Failed(v, None, false)
  }

  lemma ReportTakes(policy: Policy, price: Pricing, bodies: seq<Body>, i: nat, report: Body)
    requires CreatedOnce(Written(bodies)) && i < |bodies| && bodies[i].Created? && bodies[i].scope == None
    requires PlainReport(report, bodies[i].vertex)
    ensures Takes(policy, price, Bare(bodies), Report(report), Bare(bodies + [report]))
  {
    Wrote(bodies, [report]);
    CreatedOfAt(Written(bodies), i);
    hide Appended, CreatedOf;
  }

  lemma EachOnce()
    ensures CreatedOnce(Written([Frozen(0), Created(7, [], None, Router)])) && CreatedOnce(Written(Planned()))
    ensures CreatedOnce(Written(Proposes())) && CreatedOnce(Written(Fallen()))
  {
  }

  lemma PlannedRun(policy: Policy, price: Pricing) returns (run: seq<Run>, steps: seq<Step>)
    ensures IsRun(policy, price, run, steps) && |run| > 0 && run[|run| - 1] == Bare(Planned())
  {
    hide Takes, IsRun, CreatedOnce, Written, Bare;
    var two := [Frozen(0), Created(7, [], None, Router)];
    var three := two + [Started(7, None, false)];
    EachOnce();
    run, steps := Began(policy, price);
    FreezeTakes(policy, price, [], 0, Created(7, [], None, Router));
    assert [] + two == two;
    run, steps := Then(policy, price, run, steps, Freeze(0, [Created(7, [], None, Router)]), Bare(two));
    ReportTakes(policy, price, two, 1, Started(7, None, false));
    run, steps := Then(policy, price, run, steps, Report(Started(7, None, false)), Bare(three));
    NoteTakes(policy, price, three);
    assert three + [Proposed(ByRouter)] == Emitted();
    run, steps := Then(policy, price, run, steps, Note(Proposed(ByRouter)), Bare(Emitted()));
    FreezeTakes(policy, price, Emitted(), 4, Created(4, [7], None, Planner));
    run, steps := Then(policy, price, run, steps, Freeze(4, [Created(4, [7], None, Planner)]), Bare(Planned()));
  }

  lemma FallenRun(policy: Policy, price: Pricing) returns (run: seq<Run>, steps: seq<Step>)
    ensures IsRun(policy, price, run, steps) && |run| > 0 && run[|run| - 1] == Bare(Fallen())
  {
    hide Takes, IsRun, CreatedOnce, Written, Bare;
    EachOnce();
    run, steps := PlannedRun(policy, price);
    ReportTakes(policy, price, Planned(), 5, Succeeded(4, None));
    run, steps := Then(policy, price, run, steps, Report(Succeeded(4, None)), Bare(Answered()));
    FreezeTakes(policy, price, Answered(), 0, Created(5, [4], None, Tool));
    run, steps := Then(policy, price, run, steps, Freeze(0, [Created(5, [4], None, Tool)]), Bare(Proposes()));
    ReportTakes(policy, price, Proposes(), 8, Failed(5, None, false));
    run, steps := Then(policy, price, run, steps, Report(Failed(5, None, false)), Bare(Fallen()));
  }

  lemma Began(policy: Policy, price: Pricing) returns (run: seq<Run>, steps: seq<Step>)
    ensures IsRun(policy, price, run, steps) && |run| > 0 && run[|run| - 1] == Bare([])
  {
    run, steps := [Start], [];
    assert Written([]) == [];
  }

  /** Before its creation a vertex is authored by whoever the freezes name in turn. */
  lemma {:induction false} AuthoredSkip(log: Log, n: nat, m: nat, v: Id, current: Source)
    requires n <= m < |log| && log[m].body.Frozen? && forall i :: n <= i < m ==>
      !(log[i].body.Created? && log[i].body.vertex == v)
    ensures AuthoredFrom(log, n, v, current) == AuthoredFrom(log, m + 1, v, SourceAt(log, log[m].body.proposedSeq))
    decreases m - n
  {
    hide SourceAt;
    if n < m {
      AuthoredSkip(log, n + 1, m, v, if log[n].body.Frozen? then SourceAt(log, log[n].body.proposedSeq) else current);
    }
  }

  lemma {:induction false} NoneThere(log: Log, q: nat)
    requires forall k :: 0 <= k < |log| ==> log[k].runSeq != q
    ensures SourceAt(log, q) == Submitted
  {
    if log != [] {
      var n := |log| - 1;
      assert forall k :: 0 <= k < n ==> log[..n][k] == log[k];
      NoneThere(log[..n], q);
    }
  }

  lemma FallenNotByRule()
    ensures !RuleAuthored(Written(Fallen()), 5)
  {
    var log := Written(Fallen());
    assert log[7] == Event(8, Frozen(0)) && log[8] == Event(9, Created(5, [4], None, Tool));
    NoneThere(log, 0);
    AuthoredSkip(log, 0, 7, 5, Submitted);
  }

  lemma FallenIs()
    ensures var log := Written(Fallen());
      && CreatedOf(log, 7) == Some(Created(7, [], None, Router))
        && CreatedOf(log, 4) == Some(Created(4, [7], None, Planner))
      && CreatedOf(log, 5) == Some(Created(5, [4], None, Tool))
  {
    var log := Written(Fallen());
    EachOnce();
    assert log[1].body == Created(7, [], None, Router) && log[5].body == Created(4, [7], None, Planner)
      && log[8].body == Created(5, [4], None, Tool);
    hide CreatedOf, CreatedOnce, Written;
    CreatedOfAt(log, 1);
    CreatedOfAt(log, 5);
    CreatedOfAt(log, 8);
  }

  lemma FallenSucceeded()
    ensures SuccessSeq(Written(Fallen()), 4) == Some(7) && LastOutcome(Written(Fallen()), 5) == DidFail
  {
    var log := Written(Fallen());
    assert log[..9][..8][..7][6] == Event(7, Succeeded(4, None)) && log[9] == Event(10, Failed(5, None, false));
    assert log[8] == log[..9][8] && log[7] == log[..9][..8][7];
    assert SuccessSeq(log, 4) == SuccessSeq(log[..9], 4);
    assert SuccessSeq(log[..9], 4) == SuccessSeq(log[..9][..8], 4);
    assert SuccessSeq(log[..9][..8], 4) == SuccessSeq(log[..9][..8][..7], 4);
  }

  lemma FallenShape()
    ensures forall k :: 0 <= k < |Fallen()| ==>
      !Fallen()[k].Shadowed? && !Fallen()[k].Boundary? && !Fallen()[k].PivotPassed?
    ensures forall k :: 0 <= k < |Fallen()| && Fallen()[k].Created? ==> Fallen()[k].scope == None
  {
  }

  lemma FallenBranch()
    ensures W.LoneBranch(Written(Fallen()), 4, 5) && Unrecovered(Written(Fallen()), 5)
  {
    var log := Written(Fallen());
    hide Fallen, CreatedOf, CreatedOnce, RuleAuthored, SuccessSeq, LastOutcome, Hidden, Escalated, BacktrackFloor,
      MembersOf;
    FallenShape();
    FallenIs();
    FallenNotByRule();
    FallenSucceeded();
    EachOnce();
    FloorBelow(log, 0);
    NothingAnswered(log);
    forall s, u ensures u !in MembersOf(log, s) { MemberIffCreated(log, s, u); }
  }

  /* ---------------------------------------------------------------- the oracle rejects it */

  lemma {:induction false} LastStartAt(log: Log, v: Id, i: nat)
    requires i < |log| && log[i].body.Started? && log[i].body.vertex == v
    requires forall k :: i < k < |log| ==> !log[k].body.Started?
    ensures LastStart(log, v) == Some(log[i].runSeq)
  {
    var n := |log| - 1;
    if i < n {
      assert forall k :: 0 <= k < n ==> log[..n][k] == log[k];
      LastStartAt(log[..n], v, i);
    }
  }

  lemma {:induction false} BranchGrows(log: Log, m: nat, n: nat)
    requires m <= n <= |log|
    ensures Branch(log, m) <= Branch(log, n)
    decreases n
  {
    if m < n { BranchGrows(log, m, n - 1); }
  }

  lemma {:induction false} JoinsBranch(log: Log, n: nat, p: Id)
    requires n < |log| && log[n].body.Created? && p in log[n].body.parents
    requires RunningRouter(log, p, log[n].runSeq) || p in Branch(log, n)
    ensures log[n].body.vertex in Branch(log, |log|)
  {
    hide RunningRouter;
    assert log[n].body.vertex in Branch(log, n + 1);
    BranchGrows(log, n + 1, |log|);
  }

  /** What the log of the witness holds, whatever follows. */
  ghost predicate BeginsFallen(log: Log) {
    |log| > 10 && log[1] == Event(2, Created(7, [], None, Router)) && log[2] == Event(3, Started(7, None, false))
      && log[5] == Event(6, Created(4, [7], None, Planner)) && log[8] == Event(9, Created(5, [4], None, Tool))
      && log[9] == Event(10, Failed(5, None, false)) && log[10].runSeq == 11
      && forall k :: 2 < k < |log| ==> !log[k].body.Started?
  }

  lemma BranchTold(log: Log)
    requires BeginsFallen(log)
    ensures BranchFailure(log, 9)
  {
    LastStartAt(log, 7, 2);
    assert CreatedAs(log[1].body, 7, Router);
    hide LastStart;
    assert 7 in log[5].body.parents && RunningRouter(log, 7, 6);
    assert 4 in Branch(log, 6);
    BranchGrows(log, 6, 8);
    assert 4 in log[8].body.parents;
    JoinsBranch(log, 8, 4);
  }

  lemma OracleRejects(log: Log)
    requires BeginsFallen(log) && Numbered(log) && Selecting(log[10].body)
    ensures !NoDeterministicReplan(log)
  {
    BranchTold(log);
    hide BranchFailure;
    var first := FirstBranchFailure(log, 0);
    assert log[first.value].runSeq <= log[9].runSeq;
  }

  lemma FallenThen(more: seq<Body>)
    requires |more| > 0 && forall k :: 0 <= k < |more| ==> !more[k].Started?
    ensures BeginsFallen(Written(Fallen() + more)) && Numbered(Written(Fallen() + more))
    ensures Written(Fallen() + more)[10].body == more[0]
  {
    var bodies := Fallen() + more;
    assert forall k :: 0 <= k < 10 ==> bodies[k] == Fallen()[k];
    assert forall k :: 10 <= k < |bodies| ==> bodies[k] == more[k - 10];
  }

  /**
   A run the oracle rejects: a rule's branch holds a planner, what that planner proposed fails, and the ladder,
   for which a model authored that work, resumes the planner.
   */
  lemma BranchPlannerIsResumed(policy: Policy, price: Pricing) returns (run: seq<Run>, steps: seq<Step>)
    requires CanReplan(policy) && Affords(policy, price, Written(Fallen()), 4)
    ensures IsRun(policy, price, run, steps) && |run| > 0 && !NoDeterministicReplan(run[|run| - 1].log)
  {
    hide IsRun, Takes, Inv, SelectBoundary, Unrecovered, Written, Fallen, W.LoneBranch, CalmRows, NoDeterministicReplan,
      BeginsFallen, Numbered, RunBlocks, Disagreeing, SuspendedScopes, Unresolved;
    run, steps := FallenRun(policy, price);
    var a := Bare(Fallen());
    RunInv(policy, price, run, steps, |run| - 1);
    FallenBranch();
    var more := AnswerStep(policy, price, Fallen(), 5);
    CalmIsFree(a);
    W.BranchResumes(a.log, 4, 5, policy, price, map[]);
    run, steps := Then(policy, price, run, steps, Recover(5, Tries({}, {})), Bare(Fallen() + more));
    FallenThen(more);
    OracleRejects(Written(Fallen() + more));
  }

  /** With no scope rows nothing disagrees, is suspended, awaited or blocks. */
  lemma CalmIsFree(a: Run)
    requires Inv(a) && a.rows == map[] && a.absent == map[]
    ensures Disagreeing(a.log, map[]) == {} && SuspendedScopes(a.log) == {} && RunBlocks(a.log, Some(map[])) == {}
    ensures forall v :: Unresolved(a.log, v) == {}
  {
    hide PhaseOf, Inv;
    InvCalm(a);
  }
}
