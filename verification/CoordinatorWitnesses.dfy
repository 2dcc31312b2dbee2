/**
 Executions of the two services together that break two of the promised properties.

 In both, a planner has succeeded and a tool below it has failed, so the ladder would resume
 that planner. In one the ladder waits for ever for a scope whose fence nobody answers for;
 in the other it records a replan that the freeze then refuses.
 */
module CoordinatorWitnesses {
  import opened EventLog
  import opened CausalGraph
  import opened ScopePhases
  import opened RecoveryLadder
  import opened LadderFacts
  import opened RunProtocol
  import opened RunInvariant
  import opened RecoverySafety
  import opened RunSafety
  import opened RecoveryBounds
  import opened RecoveryProgress
  import opened RecoveryWitnesses
  import opened ScopeAdmission
  import C = Coordinator
  import S = CoordinatorSafety

  /* ---------------------------------------------------------------- one planner above one failure */

  /** A succeeded planner under no other, with one tool below it, nothing answered yet, and only roots in scopes. */
  ghost predicate LoneBranch(log: Log, p: Id, v: Id) {
    && CreatedOnce(log) && p != v
    && IsPlanner(log, p) && AboveFloor(log, p)
    && (forall q :: q in ParentsOf(log, p) ==> !IsPlanner(log, q) && ParentsOf(log, q) == [])
    && !IsPlanner(log, v) && ParentsOf(log, v) == [p] && !RuleAuthored(log, v)
    && (forall k :: 0 <= k < |log| ==> !log[k].body.Shadowed? && !log[k].body.Boundary?)
    && (forall s, u :: u in MembersOf(log, s) ==> ParentsOf(log, u) == [])
  }

  lemma RootNotBelow(log: Log, a: Id, v: Id)
    requires CreatedOnce(log) && ParentsOf(log, v) == []
    ensures !Below(log, a, v)
  {
    forall n: nat | n >= 1 ensures !Path(log, a, v, n) {
      if Path(log, a, v, n) {
        var c := PathUnsnoc(log, a, v, n);
        EdgeParents(log, c, v);
      }
    }
  }

  lemma {:induction false} NoneAbove(log: Log, p: Id, a: Id, n: nat)
    requires CreatedOnce(log) && n >= 1 && Path(log, a, p, n)
    requires forall q :: q in ParentsOf(log, p) ==> !IsPlanner(log, q) && ParentsOf(log, q) == []
    ensures !IsPlanner(log, a)
  {
    hide ParentsOf, IsPlanner, CreatedOnce;
    var q := PathUnsnoc(log, a, p, n);
    EdgeParents(log, q, p);
    if n > 1 {
      assert Below(log, a, q);
      RootNotBelow(log, a, q);
    }
  }

  lemma {:induction false} OnlyPlannerAbove(log: Log, p: Id, v: Id)
    requires LoneBranch(log, p, v)
    ensures forall e :: e in AncestorPlanners(log, v) ==> e.planner == p && e.succeededAt == SuccessSeq(log, p).value
    ensures AncestorPlanners(log, v) != []
  {
    hide AncestorPlanners, ParentsOf, RuleAuthored, MembersOf;
    AncestorPlannersExact(log, v);
    forall e | e in AncestorPlanners(log, v) ensures e.planner == p && e.succeededAt == SuccessSeq(log, p).value {
      assert Belongs(log, v, e);
      if e.depth > 0 {
        var c := PathUnsnoc(log, e.planner, v, e.depth);
        EdgeParents(log, c, v);
        if e.depth > 1 { NoneAbove(log, p, e.planner, e.depth - 1); }
      }
    }
    EdgeParents(log, p, v);
    EdgeCreates(log, p, v);
    assert Path(log, v, v, 0) && Path(log, p, v, 1);
    assert Below(log, p, v);
    WalksAgree(log, v, p);
  }

  lemma NoScopeMet(log: Log, p: Id, v: Id)
    requires LoneBranch(log, p, v)
    ensures ScopesMeeting(log, ShadowSet(log, p)) == {}
  {
    hide ParentsOf, MembersOf, PhaseOf, RuleAuthored, AboveFloor, IsPlanner;
    forall s ensures MembersOf(log, s) * ShadowSet(log, p) == {} {
      forall u | u in MembersOf(log, s) ensures u !in ShadowSet(log, p) { RootNotBelow(log, p, u); }
    }
  }

  lemma {:induction false} NothingSpent(log: Log, p: Id)
    requires forall k :: 0 <= k < |log| ==> !log[k].body.Shadowed? && !log[k].body.Boundary?
    ensures Episode(log) == 0 && TimesSelected(log, p) == 0
  {
    NothingAnswered(log);
  }

  lemma {:induction false} BranchCandidate(log: Log, p: Id, v: Id, policy: Policy, price: Pricing)
    requires LoneBranch(log, p, v) && CanReplan(policy) && Affords(policy, price, log, p) && TimesSelected(log, p) == 0
    ensures var cs := Candidates(log, v, policy, price, AncestorPlanners(log, v)); var best := Cheapest(cs, |cs|);
      best.Some? && cs[best.value].planner == p && cs[best.value].requires_ == {}
  {
    OnlyPlannerAbove(log, p, v);
    NoScopeMet(log, p, v);
    hide AncestorPlanners, PhaseOf, ShadowSet, ScopesMeeting, RuleAuthored, MembersOf, ParentsOf, CreatedOnce,
      IsPlanner, SuccessSeq, BacktrackFloor, Judge, CandidateFor;
    var above := AncestorPlanners(log, v);
    var cs := Candidates(log, v, policy, price, above);
    forall i | 0 <= i < |above| ensures cs[i].Priced? && cs[i].planner == p && cs[i].requires_ == {} {
      assert above[i] in above;
      BranchIsLegal(log, p, v, policy, price, above[i]);
    }
    CheapestIsLeast(cs, |cs|);
    assert cs[0].Priced?;
  }

  lemma ResumeAtOnce(log: Log, v: Id, locked: Option<Locked>, base: Decision, best: Candidate, level: Level,
      discarded: set<Id>)
    requires best.Priced? && best.requires_ == {} && Unresolved(log, v) == {} && base.selected.None?
    ensures var d := Resume(log, v, locked, base, best, level, discarded); var blocks := RunBlocks(log, locked);
      if blocks == {} then d.action == Record && d.selected == Some(best.planner)
      else d.action == Wait && d.awaited == blocks
  {
    hide RunBlocks, Unresolved, CancelledFor;
    assert StillOpen(log, {}) == {};
  }

  /** The ladder would resume the planner, and waits only for what blocks the whole run. */
  lemma BranchResumes(log: Log, p: Id, v: Id, policy: Policy, price: Pricing, locked: Locked)
    requires LoneBranch(log, p, v) && CanReplan(policy) && Affords(policy, price, log, p)
    requires Disagreeing(log, locked) == {} && SuspendedScopes(log) == {} && Unresolved(log, v) == {}
    ensures var d := SelectBoundary(log, v, policy, price, Some(locked)); var blocks := RunBlocks(log, Some(locked));
      if blocks == {} then d.action == Record && d.selected == Some(p) else d.action == Wait && d.awaited == blocks
  {
    NothingSpent(log, p);
    BranchCandidate(log, p, v, policy, price);
    hide AncestorPlanners, PhaseOf, RunBlocks, Unresolved, Disagreeing, ShadowSet, SuspendedScopes, RuleAuthored,
      CreatedOnce, Episode, FirstScope, Resume, Escalation, CandidateFor, IsPlanner, AboveFloor, ParentsOf, MembersOf;
    var above := AncestorPlanners(log, v);
    var cs := Candidates(log, v, policy, price, above);
    var best := Cheapest(cs, |cs|);
    var level := if above[best.value].depth == above[0].depth then L1 else L2;
    ResumeAtOnce(log, v, Some(locked), Base(log, v).(candidates := cs), cs[best.value], level,
      ShadowSet(log, cs[best.value].planner));
  }

  lemma {:induction false} BranchIsLegal(log: Log, p: Id, v: Id, policy: Policy, price: Pricing, e: Above)
    requires CanReplan(policy) && Affords(policy, price, log, p) && TimesSelected(log, p) == 0
    requires e.planner == p && BacktrackFloor(log) <= e.succeededAt && ScopesMeeting(log, ShadowSet(log, p)) == {}
    ensures var c := CandidateFor(log, v, policy, price, e, ShadowSet(log, p));
      c.Priced? && c.planner == p && c.requires_ == {}
  {
    hide ScopesMeeting, ShadowSet;
  }

  /* ---------------------------------------------------------------- the run's work */

  /** Two tools in one scope, a planner, and a tool below the planner. */
  function Work(): (b: seq<Body>) {
    [Created(6, [], Some(9), Tool), Created(2, [], Some(9), Tool), Created(4, [], None, Planner),
      Created(5, [4], None, Tool)]
  }

  ghost predicate StartsWithWork(bodies: seq<Body>) {
    [Frozen(0)] + Work() <= bodies && forall i :: 5 <= i < |bodies| ==> !bodies[i].Created? && !bodies[i].Proposed?
  }

  lemma WorkIs(bodies: seq<Body>)
    requires StartsWithWork(bodies)
    ensures CreatedOnce(Written(bodies))
    ensures var log := Written(bodies);
      && CreatedOf(log, 6) == Some(Created(6, [], Some(9), Tool))
        && CreatedOf(log, 2) == Some(Created(2, [], Some(9), Tool))
      && CreatedOf(log, 4) == Some(Created(4, [], None, Planner))
        && CreatedOf(log, 5) == Some(Created(5, [4], None, Tool))
  {
    var log := Written(bodies);
    assert forall i :: 0 <= i < 5 ==> bodies[i] == ([Frozen(0)] + Work())[i];
    assert log[1].body == Work()[0] && log[2].body == Work()[1] && log[3].body == Work()[2] && log[4].body == Work()[3];
    hide CreatedOf;
    CreatedOfAt(log, 1);
    CreatedOfAt(log, 2);
    CreatedOfAt(log, 3);
    CreatedOfAt(log, 4);
  }

  lemma ScopedAre(bodies: seq<Body>, s: Id, u: Id)
    requires StartsWithWork(bodies) && u in MembersOf(Written(bodies), s)
    ensures u == 6 || u == 2
  {
    var log := Written(bodies);
    MemberIffCreated(log, s, u);
    var i :| 0 <= i < |log| && log[i].body.Created? && log[i].body.vertex == u && log[i].body.scope == Some(s);
    assert i < 5 && bodies[i] == ([Frozen(0)] + Work())[i];
  }

  lemma BranchIs(bodies: seq<Body>, floor: nat)
    requires StartsWithWork(bodies) && forall k :: 0 <= k < |bodies| ==> !bodies[k].Shadowed? && !bodies[k].Boundary?
    requires forall k :: 0 <= k < |bodies| && bodies[k].PivotPassed? ==> k < floor
    requires SuccessSeq(Written(bodies), 4).Some? && floor <= SuccessSeq(Written(bodies), 4).value
    ensures LoneBranch(Written(bodies), 4, 5) && PlannersUnscoped(Written(bodies))
  {
    var log := Written(bodies);
    WorkIs(bodies);
    FloorBelow(log, floor);
    assert forall i :: 0 <= i < 5 ==> bodies[i] == ([Frozen(0)] + Work())[i];
    NeverByRule(log, 0, 5);
    hide MembersOf, StartsWithWork, CreatedOf, SuccessSeq, BacktrackFloor, AuthoredFrom;
    forall s, u | u in MembersOf(log, s) ensures ParentsOf(log, u) == [] && !IsPlanner(log, u) {
      ScopedAre(bodies, s, u);
    }
  }

  /* ---------------------------------------------------------------- executions */

  /** Any execution may be extended by one more move. */
  lemma Next(policy: Policy, price: Pricing, states: seq<C.Db>, moves: seq<C.Move>, move: C.Move, d: C.Db)
      returns (longer: seq<C.Db>, made: seq<C.Move>)
    requires C.IsExecution(policy, price, states, moves) && |states| > 0
      && C.Acts(policy, price, states[|states| - 1], move, d)
    ensures C.IsExecution(policy, price, longer, made) && |longer| > 0 && longer[|longer| - 1] == d
  {
    hide C.Acts;
    longer, made := states + [d], moves + [move];
  }

  lemma FreezeMove(policy: Policy, price: Pricing)
    ensures C.Acts(policy, price, C.Empty, C.Engine(Freeze(0, Work())),
      C.Empty.(run := Run(Written([Frozen(0)] + Work()), map[], map[])))
  {
    assert FreshWork([], Work());
    FirstFreeze(policy, price, Work());
  }

  lemma ReportMove(policy: Policy, price: Pricing, c: C.Db, bodies: seq<Body>, report: Body)
    requires c.run.log == Written(bodies) && StartsWithWork(bodies)
      && (report == Succeeded(4, None) || report == Failed(5, None, false))
    ensures C.Acts(policy, price, c, C.Engine(Report(report)), c.(run := c.run.(log := Written(bodies + [report]))))
  {
    WorkIs(bodies);
    Wrote(bodies, [report]);
    hide CreatedOf, Written, Appended;
  }

  lemma EnsureMove(policy: Policy, price: Pricing, c: C.Db, bodies: seq<Body>)
    requires c.run == Run(Written(bodies), map[], map[])
    ensures C.Acts(policy, price, c, C.Ensure(9),
      c.(run := Run(Written(bodies
        + [ScopeState(9, DeclaredOpen)]), map[9 := Row(RowOpen, false, false, None)], map[])))
  {
    Wrote(bodies, [ScopeState(9, DeclaredOpen)]);
  }

  lemma StartMove(policy: Policy, price: Pricing, c: C.Db, bodies: seq<Body>, w: C.Worker, v: Id, invertible: bool)
    requires c.run.log == Written(bodies) && StartsWithWork(bodies) && (v == 6 || v == 2) && C.Stands(c, w) == C.Idle
      && 9 in c.run.rows
    ensures C.Acts(policy, price, c, C.StartCall(w, v, 9, 7, false, invertible),
      c.(at := c.at[w := C.Calling(v, 9, 7, false, invertible)]))
  {
    WorkIs(bodies);
    hide CreatedOf, Written;
  }

  /* ---------------------------------------------------------------- a ladder that waits for nobody */

  function Base9(): (b: seq<Body>) { [Frozen(0)] + Work() + [Succeeded(4, None)] + [ScopeState(9, DeclaredOpen)] }
  function Fenced9(): (b: seq<Body>) { Base9() + [Failed(2, Some(9), false)] }
  function Late9(): (b: seq<Body>) { Fenced9() + [Succeeded(2, Some(9))] }
  function Stuck9(): (b: seq<Body>) { Late9() + [Failed(5, None, false)] }

  function RowIs(fenced: bool): (rows: map<Id, Row>) { map[9 := Row(RowOpen, fenced, false, None)] }

  /** Two workers hold one vertex's lease, one after the other, and both are still calling. */
  function BothCalling(): (at: map<C.Worker, C.At>) {
    map[0 := C.Calling(2, 9, 7, false, false), 1 := C.Calling(2, 9, 7, false, false)]
  }

  lemma FailMove(policy: Policy, price: Pricing)
    ensures C.Acts(policy, price, C.Db(Run(Written(Base9()), RowIs(false), map[]), map[], map[], {}, BothCalling()),
      C.FailCall(0),
      C.Db(Run(Written(Fenced9()), RowIs(true), map[]), map[], map[], {}, BothCalling()[0 := C.Idle]))
  {
    Wrote(Base9(), [Failed(2, Some(9), false)]);
    hide Written, Appended;
  }

  lemma FinishMove(policy: Policy, price: Pricing)
    ensures C.Acts(policy, price,
      C.Db(Run(Written(Fenced9()), RowIs(true), map[]), map[], map[], {}, BothCalling()[0 := C.Idle]), C.FinishCall(1),
      C.Db(Run(Written(Late9()), RowIs(true), map[]), map[], map[], {}, map[0 := C.Idle, 1 := C.Idle]))
  {
    Wrote(Fenced9(), [Succeeded(2, Some(9))]);
    hide Written, Appended;
    assert BothCalling()[0 := C.Idle][1 := C.Idle] == map[0 := C.Idle, 1 := C.Idle];
  }

  function StuckState(): (c: C.Db) {
    C.Db(Run(Written(Stuck9()), RowIs(true), map[]), map[], map[], {}, map[0 := C.Idle, 1 := C.Idle])
  }

  /**
   A planner succeeds, a scope opens, and two workers call its one tool: the first fails, the second succeeds; then
   a tool below the planner fails.
   */
  lemma TwoReports(policy: Policy, price: Pricing) returns (states: seq<C.Db>, moves: seq<C.Move>)
    ensures C.IsExecution(policy, price, states, moves) && |states| > 0 && states[|states| - 1] == StuckState()
  {
    hide C.IsExecution, C.Acts, Written, StartsWithWork;
    states, moves := First(policy, price);
    FreezeMove(policy, price);
    var c := C.Empty.(run := Run(Written([Frozen(0)] + Work()), map[], map[]));
    states, moves := Next(policy, price, states, moves, C.Engine(Freeze(0, Work())), c);
    Prefixes();
    ReportMove(policy, price, c, [Frozen(0)] + Work(), Succeeded(4, None));
    c := c.(run := Run(Written([Frozen(0)] + Work() + [Succeeded(4, None)]), map[], map[]));
    states, moves := Next(policy, price, states, moves, C.Engine(Report(Succeeded(4, None))), c);
    EnsureMove(policy, price, c, [Frozen(0)] + Work() + [Succeeded(4, None)]);
    c := c.(run := Run(Written(Base9()), RowIs(false), map[]));
    states, moves := Next(policy, price, states, moves, C.Ensure(9), c);
    StartMove(policy, price, c, Base9(), 0, 2, false);
    c := c.(at := c.at[0 := C.Calling(2, 9, 7, false, false)]);
    states, moves := Next(policy, price, states, moves, C.StartCall(0, 2, 9, 7, false, false), c);
    StartMove(policy, price, c, Base9(), 1, 2, false);
    c := c.(at := c.at[1 := C.Calling(2, 9, 7, false, false)]);
    states, moves := Next(policy, price, states, moves, C.StartCall(1, 2, 9, 7, false, false), c);
    assert c.at == BothCalling();
    states, moves := LateSuccess(policy, price, states, moves);
  }

  lemma First(policy: Policy, price: Pricing) returns (states: seq<C.Db>, moves: seq<C.Move>)
    ensures C.IsExecution(policy, price, states, moves) && |states| > 0 && states[|states| - 1] == C.Empty
  {
    states, moves := [C.Empty], [];
  }

  lemma Prefixes()
    ensures StartsWithWork([Frozen(0)] + Work()) && StartsWithWork([Frozen(0)] + Work() + [Succeeded(4, None)])
    ensures StartsWithWork(Base9()) && StartsWithWork(Late9()) && StartsWithWork(Stuck9())
  {
  }

  lemma LateSuccess(policy: Policy, price: Pricing, before: seq<C.Db>, made: seq<C.Move>)
      returns (states: seq<C.Db>, moves: seq<C.Move>)
    requires C.IsExecution(policy, price, before, made) && |before| > 0
    requires before[|before| - 1] == C.Db(Run(Written(Base9()), RowIs(false), map[]), map[], map[], {}, BothCalling())
    ensures C.IsExecution(policy, price, states, moves) && |states| > 0 && states[|states| - 1] == StuckState()
  {
    hide C.IsExecution, C.Acts, Written, StartsWithWork;
    FailMove(policy, price);
    states, moves := Next(policy, price, before, made, C.FailCall(0),
      C.Db(Run(Written(Fenced9()), RowIs(true), map[]), map[], map[], {}, BothCalling()[0 := C.Idle]));
    FinishMove(policy, price);
    var c := C.Db(Run(Written(Late9()), RowIs(true), map[]), map[], map[], {}, map[0 := C.Idle, 1 := C.Idle]);
    states, moves := Next(policy, price, states, moves, C.FinishCall(1), c);
    Prefixes();
    ReportMove(policy, price, c, Late9(), Failed(5, None, false));
    states, moves := Next(policy, price, states, moves, C.Engine(Report(Failed(5, None, false))), StuckState());
  }

  lemma StuckPhases(a: Run)
    requires Inv(a) && a.rows == RowIs(true) && a.absent == map[]
    ensures forall s :: PhaseOf(a.log, s) == if s == 9 then Fenced else Unmaterialized
    ensures Disagreeing(a.log, View(a.rows, Tries({}, {}))) == {} && SuspendedScopes(a.log) == {}
      && Unresolved(a.log, 5) == {}
    ensures RunBlocks(a.log, Some(View(a.rows, Tries({}, {})))) == {9}
  {
    hide PhaseOf, Written, Disagreeing, CreatedOnce, Sound, WorkIsCreated;
    forall s ensures PhaseOf(a.log, s) == if s == 9 then Fenced else Unmaterialized { RowTells(a, s); }
    NoGapAgrees(a, Tries({}, {}));
    MentionedHasEntry(a.log, 9);
    PhaseHasEntry(a.log, 9);
  }

  lemma RowTells(a: Run, s: Id)
    requires Coherent(a) && s !in a.absent
    ensures PhaseOf(a.log, s) == if s in a.rows then RowPhase(a.rows[s]) else Unmaterialized
  {
    assert AgreesAt(a, s);
  }

  lemma {:induction false} PhaseHasEntry(log: Log, s: Id)
    requires PhaseOf(log, s) != Unmaterialized
    ensures Scope(log, s).Some?
  {
  }

  lemma StuckBranch()
    ensures LoneBranch(Written(Stuck9()), 4, 5) && PlannersUnscoped(Written(Stuck9()))
  {
    var log := Written(Stuck9());
    assert log[..6][5] == Event(6, Succeeded(4, None));
    SuccessGrows(log[..6], log, 4);
    Prefixes();
    BranchIs(Stuck9(), 0);
  }

  lemma LateOutcomes()
    ensures LastOutcome(Written(Stuck9()), 2) == DidSucceed && LastOutcome(Written(Stuck9()), 5) == DidFail
  {
    var log := Written(Stuck9());
    assert log[9] == Event(10, Failed(5, None, false)) && log[..9][8] == Event(9, Succeeded(2, Some(9)));
  }

  /** Only the tool below the planner is outstanding: the other failure was taken back. */
  lemma StuckOutstanding(v: Id)
    ensures v in Outstanding(Written(Stuck9())) <==> v == 5
  {
    var log := Written(Stuck9());
    assert forall k :: 0 <= k < |log| ==> !log[k].body.Shadowed? && !log[k].body.Boundary? && !log[k].body.Unreadable?;
    assert forall k :: 0 <= k < |log| && log[k].body.Failed? ==> log[k].body.vertex == 2 || log[k].body.vertex == 5;
    hide Outstanding, Written, LastOutcome, Hidden, Escalated;
    NothingAnswered(log);
    LateOutcomes();
    OutstandingIs(log, v);
    if Unrecovered(log, v) { FailedOnce(log, v); }
  }

  /**
   A run of the two services in which the ladder waits for ever. Two workers run one tool of an
   open scope; the first one's failure fences the scope and the second one's success takes that
   failure back. A failure elsewhere then waits for the fenced scope, for which nobody asks:
   no scope is on its way anywhere, no try is sealed that could expire, and no worker is busy.
   */
  lemma LadderWaitsForNobody(policy: Policy, price: Pricing) returns (states: seq<C.Db>, moves: seq<C.Move>)
    requires CanReplan(policy) && Affords(policy, price, Written(Stuck9()), 4)
    ensures C.IsExecution(policy, price, states, moves) && |states| > 0
    ensures var c := states[|states| - 1];
      && 5 in Outstanding(c.run.log) && AllWait(policy, price, c.run, Tries({}, {}))
      && SelectBoundary(c.run.log, 5, policy, price, Some(View(c.run.rows, Tries({}, {})))).awaited == {9}
      && (forall s :: !Moving(PhaseOf(c.run.log, s))) && FencerLapsed(c.run.log, 9)
      && c.brackets == map[] && forall w :: C.Stands(c, w) == C.Idle
  {
    hide C.IsExecution, SelectBoundary, Written, PhaseOf, Outstanding, FencerLapsed, LoneBranch, Inv, S.Safe,
      RunBlocks, Disagreeing, SuspendedScopes, Unresolved;
    states, moves := TwoReports(policy, price);
    var a, locked := StuckState().run, View(StuckState().run.rows, Tries({}, {}));
    S.ExecutionSafe(policy, price, states, moves, |states| - 1);
    S.SafeParts(StuckState());
    StuckPhases(a);
    StuckBranch();
    BranchResumes(a.log, 4, 5, policy, price, locked);
    forall v ensures v in Outstanding(a.log) <==> v == 5 { StuckOutstanding(v); }
    var run, steps := S.ExecutionIsRun(policy, price, states, moves, |states| - 1);
    NeverWaitsInVain(policy, price, run, steps, |run| - 1, Tries({}, {}), 5, 9);
  }

  /* ---------------------------------------------------------------- a recorded replan the freeze refuses */

  function Open9(): (b: seq<Body>) { [Frozen(0)] + Work() + [ScopeState(9, DeclaredOpen)] }
  function Sealed9(): (b: seq<Body>) { Open9() + [Try(6, 9, 7), Succeeded(6, Some(9))] }
  function Out9(): (b: seq<Body>) { Sealed9() + [Started(2, Some(9), true)] }
  function Passed9(): (b: seq<Body>) { Out9() + [PivotPassed(2, 9), Succeeded(2, Some(9))] }
  function Committed9(): (b: seq<Body>) { Passed9() + [ScopeState(9, DeclaredCommitted)] }
  function Replan9(): (b: seq<Body>) { Committed9() + [Succeeded(4, None)] + [Failed(5, None, false)] }

  /** A saga try: its tool can be compensated and has nothing to confirm. */
  function SagaTry(): (b: map<Id, C.Bracket>) { map[7 := C.Bracket(9, 6, C.Sealed, false, true)] }

  function InScope(bodies: seq<Body>, state: RowState, pivot: Option<Id>, brackets: map<Id, C.Bracket>,
      at: C.At): (c: C.Db) {
    C.Db(Run(Written(bodies), map[9 := Row(state, false, false, pivot)], map[]), brackets, map[], {}, map[0 := at])
  }

  lemma SealMove(policy: Policy, price: Pricing)
    ensures C.Acts(policy, price, InScope(Open9(), RowOpen, None, map[], C.Calling(6, 9, 7, false, true)),
      C.SealCall(0),
      InScope(Sealed9(), RowOpen, None, SagaTry(), C.Idle))
  {
    Wrote(Open9(), [Try(6, 9, 7), Succeeded(6, Some(9))]);
    hide Written, Appended;
  }

  lemma AdmitMove(policy: Policy, price: Pricing)
    ensures C.Acts(policy, price, InScope(Sealed9(), RowOpen, None, SagaTry(), C.Idle), C.Admit(0, 2, 9),
      InScope(Out9(), RowInflight, Some(2), SagaTry(), C.PivotOut(2, 9)))
  {
    assert StartsWithWork(Sealed9());
    WorkIs(Sealed9());
    Wrote(Sealed9(), [Started(2, Some(9), true)]);
    hide Written, Appended, CreatedOf;
  }

  lemma PassMove(policy: Policy, price: Pricing)
    ensures C.Acts(policy, price, InScope(Out9(), RowInflight, Some(2), SagaTry(), C.PivotOut(2, 9)),
      C.PivotSucceeds(0),
      InScope(Passed9(), RowPassed, Some(2), SagaTry(), C.AfterPivot(2, 9)))
  {
    Wrote(Out9(), [PivotPassed(2, 9), Succeeded(2, Some(9))]);
    hide Written, Appended;
  }

  /** Nothing is confirmable, so nothing is read to be confirmed. */
  lemma ReadMove(policy: Policy, price: Pricing)
    ensures C.Acts(policy, price, InScope(Passed9(), RowPassed, Some(2), SagaTry(), C.AfterPivot(2, 9)),
      C.ReadSealed(0, []),
      InScope(Passed9(), RowPassed, Some(2), SagaTry(), C.Confirming(2, 9, [])))
  {
    hide Written;
  }

  lemma CommitMove(policy: Policy, price: Pricing)
    ensures C.Acts(policy, price, InScope(Passed9(), RowPassed, Some(2), SagaTry(), C.Confirming(2, 9, [])),
      C.CommitScope(0),
      InScope(Committed9(), RowCommitted, Some(2), SagaTry(), C.Idle))
  {
    Wrote(Passed9(), [ScopeState(9, DeclaredCommitted)]);
    hide Written, Appended;
  }

  lemma ScopeOpened(policy: Policy, price: Pricing) returns (states: seq<C.Db>, moves: seq<C.Move>)
    ensures C.IsExecution(policy, price, states, moves) && |states| > 0
    ensures states[|states| - 1] == InScope(Open9(), RowOpen, None, map[], C.Calling(6, 9, 7, false, true))
  {
    hide C.IsExecution, C.Acts, Written, StartsWithWork;
    states, moves := First(policy, price);
    FreezeMove(policy, price);
    var c := C.Empty.(run := Run(Written([Frozen(0)] + Work()), map[], map[]));
    states, moves := Next(policy, price, states, moves, C.Engine(Freeze(0, Work())), c);
    EnsureMove(policy, price, c, [Frozen(0)] + Work());
    c := c.(run := Run(Written(Open9()), RowIs(false), map[]));
    states, moves := Next(policy, price, states, moves, C.Ensure(9), c);
    LaterPrefixes();
    StartMove(policy, price, c, Open9(), 0, 6, true);
    c := c.(at := c.at[0 := C.Calling(6, 9, 7, false, true)]);
    states, moves := Next(policy, price, states, moves, C.StartCall(0, 6, 9, 7, false, true), c);
    assert c.at == map[0 := C.Calling(6, 9, 7, false, true)];
  }

  lemma LaterPrefixes()
    ensures StartsWithWork(Open9()) && StartsWithWork(Committed9())
      && StartsWithWork(Committed9() + [Succeeded(4, None)]) && StartsWithWork(Replan9())
  {
  }

  /** The scope commits with the saga try still sealed. */
  lemma CommittedSealed(policy: Policy, price: Pricing) returns (states: seq<C.Db>, moves: seq<C.Move>)
    ensures C.IsExecution(policy, price, states, moves) && |states| > 0
    ensures states[|states| - 1] == InScope(Committed9(), RowCommitted, Some(2), SagaTry(), C.Idle)
  {
    hide C.IsExecution, C.Acts, InScope;
    states, moves := ScopeOpened(policy, price);
    SealMove(policy, price);
    states, moves := Next(policy, price, states, moves, C.SealCall(0),
      InScope(Sealed9(), RowOpen, None, SagaTry(), C.Idle));
    AdmitMove(policy, price);
    states, moves := Next(policy, price, states, moves, C.Admit(0, 2, 9),
      InScope(Out9(), RowInflight, Some(2), SagaTry(), C.PivotOut(2, 9)));
    PassMove(policy, price);
    states, moves := Next(policy, price, states, moves, C.PivotSucceeds(0),
      InScope(Passed9(), RowPassed, Some(2), SagaTry(), C.AfterPivot(2, 9)));
    ReadMove(policy, price);
    states, moves := Next(policy, price, states, moves, C.ReadSealed(0, []),
      InScope(Passed9(), RowPassed, Some(2), SagaTry(), C.Confirming(2, 9, [])));
    CommitMove(policy, price);
    states, moves := Next(policy, price, states, moves, C.CommitScope(0),
      InScope(Committed9(), RowCommitted, Some(2), SagaTry(), C.Idle));
  }

  function ReplanState(): (c: C.Db) { InScope(Replan9(), RowCommitted, Some(2), SagaTry(), C.Idle) }

  lemma FailureAfterCommit(policy: Policy, price: Pricing) returns (states: seq<C.Db>, moves: seq<C.Move>)
    ensures C.IsExecution(policy, price, states, moves) && |states| > 0 && states[|states| - 1] == ReplanState()
  {
    hide C.IsExecution, C.Acts, Written, StartsWithWork;
    states, moves := CommittedSealed(policy, price);
    LaterPrefixes();
    var c := InScope(Committed9(), RowCommitted, Some(2), SagaTry(), C.Idle);
    var four := Committed9() + [Succeeded(4, None)];
    ReportMove(policy, price, c, Committed9(), Succeeded(4, None));
    c := InScope(four, RowCommitted, Some(2), SagaTry(), C.Idle);
    states, moves := Next(policy, price, states, moves, C.Engine(Report(Succeeded(4, None))), c);
    ReportMove(policy, price, c, four, Failed(5, None, false));
    states, moves := Next(policy, price, states, moves, C.Engine(Report(Failed(5, None, false))), ReplanState());
  }

  lemma ReplanBranch()
    ensures LoneBranch(Written(Replan9()), 4, 5)
  {
    var log := Written(Replan9());
    assert log[..13][12] == Event(13, Succeeded(4, None));
    assert SuccessSeq(log, 4) == SuccessSeq(log[..13], 4);
    LaterPrefixes();
    BranchIs(Replan9(), 10);
  }

  lemma ReplanOutstanding()
    ensures 5 in Outstanding(Written(Replan9()))
  {
    var log := Written(Replan9());
    assert forall k :: 0 <= k < |log| ==> !log[k].body.Shadowed? && !log[k].body.Boundary?;
    assert log[13] == Event(14, Failed(5, None, false));
    assert LastOutcome(log, 5) == DidFail;
    hide Outstanding, Written, LastOutcome, Hidden, Escalated;
    NothingAnswered(log);
    OutstandingIs(log, 5);
  }

  /** The scopes a lock reports as holding a sealed try; once their deadlines pass, as holding an expired one. */
  function SealedScopes(c: C.Db): (ids: set<Id>) {
    set key | key in c.brackets && c.brackets[key].state == C.Sealed :: c.brackets[key].scope
  }

  lemma ReplanPhases(a: Run, tries: Tries)
    requires Inv(a) && a == ReplanState().run
    ensures forall s :: PhaseOf(a.log, s) == if s == 9 then Committed else Unmaterialized
    ensures Disagreeing(a.log, View(a.rows, tries)) == {} && SuspendedScopes(a.log) == {} && Unresolved(a.log, 5) == {}
    ensures RunBlocks(a.log, Some(View(a.rows, tries))) == {}
  {
    hide PhaseOf, Written, Disagreeing, CreatedOnce, Sound, WorkIsCreated;
    forall s ensures PhaseOf(a.log, s) == if s == 9 then Committed else Unmaterialized { RowTells(a, s); }
    NoGapAgrees(a, tries);
  }

  /**
   A run of the two services in which a recorded replan is refused. A saga try is sealed, the
   pivot passes, and the scope commits leaving the try sealed, because it has nothing to confirm.
   Once its deadline has passed the ladder still records a replan for a later failure, and the
   freeze that replan calls for is refused.
   */
  lemma RecordedReplanRefused(policy: Policy, price: Pricing) returns (states: seq<C.Db>, moves: seq<C.Move>)
    requires CanReplan(policy) && Affords(policy, price, Written(Replan9()), 4)
    ensures C.IsExecution(policy, price, states, moves) && |states| > 0
    ensures var c := states[|states| - 1]; var locked := View(c.run.rows, Tries(SealedScopes(c), SealedScopes(c)));
      var d := SelectBoundary(c.run.log, 5, policy, price, Some(locked));
      5 in Outstanding(c.run.log) && d.action == Record && d.selected == Some(4) && !FreezeAdmitted(locked)
  {
    hide C.IsExecution, SelectBoundary, Written, PhaseOf, LoneBranch, Inv, S.Safe, RunBlocks, Disagreeing,
      SuspendedScopes, Unresolved, Outstanding;
    states, moves := FailureAfterCommit(policy, price);
    var c := ReplanState();
    var tries := Tries(SealedScopes(c), SealedScopes(c));
    S.ExecutionSafe(policy, price, states, moves, |states| - 1);
    S.SafeParts(c);
    ReplanPhases(c.run, tries);
    ReplanBranch();
    ReplanOutstanding();
    BranchResumes(c.run.log, 4, 5, policy, price, View(c.run.rows, tries));
    assert 7 in c.brackets && 9 in SealedScopes(c);
    assert 9 in View(c.run.rows, tries) && AdmissionBlock(View(c.run.rows, tries)[9]) == Some(BlockExpiredTry);
  }
}
