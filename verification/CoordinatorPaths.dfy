/**
 A scope's two ways out, each walked by one worker: a try sealed and confirmed once the pivot has
 passed, and a try sealed and undone once the pivot was disproved.
 */
module CoordinatorPaths {
  import opened EventLog
  import opened RecoveryLadder
  import opened RunProtocol
  import opened RecoveryWitnesses
  import opened CoordinatorWitnesses
  import C = Coordinator

  /** The database with scope 9 in it and one worker about. */
  function In9(bodies: seq<Body>, row: Row, absent: map<Id, Id>, brackets: map<Id, C.Bracket>,
      members: map<(Id, Id), bool>, inverses: set<(Id, Id)>, at: C.At): (c: C.Db) {
    C.Db(Run(Written(bodies), map[9 := row], absent), brackets, members, inverses, map[0 := at])
  }

  const OpenRow := Row(RowOpen, false, false, None)
  const OutRow := Row(RowInflight, false, false, Some(2))
  const FencedRow := Row(RowOpen, true, false, None)

  function TheTry(state: C.BracketState): (b: map<Id, C.Bracket>) { map[7 := C.Bracket(9, 6, state, true, true)] }

  lemma StartBoth(policy: Policy, price: Pricing)
    ensures C.Acts(policy, price, In9(Open9(), OpenRow, map[], map[], map[], {}, C.Idle).(at := map[]),
      C.StartCall(0, 6, 9, 7, true, true),
      In9(Open9(), OpenRow, map[], map[], map[], {}, C.Calling(6, 9, 7, true, true)))
  {
    LaterPrefixes();
    WorkIs(Open9());
    hide CreatedOf, Written;
  }

  lemma SealBoth(policy: Policy, price: Pricing)
    ensures C.Acts(policy, price, In9(Open9(), OpenRow, map[], map[], map[], {}, C.Calling(6, 9, 7, true, true)),
      C.SealCall(0), In9(Sealed9(), OpenRow, map[], TheTry(C.Sealed), map[], {}, C.Idle))
  {
    Wrote(Open9(), [Try(6, 9, 7), Succeeded(6, Some(9))]);
    hide Written, Appended;
  }

  lemma AdmitGuards()
    ensures C.AdmitsPivot(In9(Sealed9(), OpenRow, map[], TheTry(C.Sealed), map[], {}, C.Idle), 0, 2, 9,
      In9(Out9(), OutRow, map[], TheTry(C.Sealed), map[], {}, C.PivotOut(2, 9)))
  {
    assert StartsWithWork(Sealed9());
    WorkIs(Sealed9());
    Wrote(Sealed9(), [Started(2, Some(9), true)]);
    hide Written, Appended, CreatedOf;
  }

  lemma AdmitBoth(policy: Policy, price: Pricing)
    ensures C.Acts(policy, price, In9(Sealed9(), OpenRow, map[], TheTry(C.Sealed), map[], {}, C.Idle), C.Admit(0, 2, 9),
      In9(Out9(), OutRow, map[], TheTry(C.Sealed), map[], {}, C.PivotOut(2, 9)))
  {
    AdmitGuards();
    hide C.AdmitsPivot, In9;
  }

  /** A scope is opened, a try sealed in it and its pivot sent out. */
  lemma PivotIsOut(policy: Policy, price: Pricing) returns (states: seq<C.Db>, moves: seq<C.Move>)
    ensures C.IsExecution(policy, price, states, moves) && |states| > 0
    ensures states[|states| - 1] == In9(Out9(), OutRow, map[], TheTry(C.Sealed), map[], {}, C.PivotOut(2, 9))
  {
    hide C.IsExecution, C.Acts, Written, StartsWithWork;
    states, moves := First(policy, price);
    FreezeMove(policy, price);
    var c := C.Empty.(run := Run(Written([Frozen(0)] + Work()), map[], map[]));
    states, moves := Next(policy, price, states, moves, C.Engine(Freeze(0, Work())), c);
    EnsureMove(policy, price, c, [Frozen(0)] + Work());
    c := In9(Open9(), OpenRow, map[], map[], map[], {}, C.Idle).(at := map[]);
    states, moves := Next(policy, price, states, moves, C.Ensure(9), c);
    StartBoth(policy, price);
    c := In9(Open9(), OpenRow, map[], map[], map[], {}, C.Calling(6, 9, 7, true, true));
    states, moves := Next(policy, price, states, moves, C.StartCall(0, 6, 9, 7, true, true), c);
    SealBoth(policy, price);
    c := In9(Sealed9(), OpenRow, map[], TheTry(C.Sealed), map[], {}, C.Idle);
    states, moves := Next(policy, price, states, moves, C.SealCall(0), c);
    AdmitBoth(policy, price);
    states, moves := Next(policy, price, states, moves, C.Admit(0, 2, 9),
      In9(Out9(), OutRow, map[], TheTry(C.Sealed), map[], {}, C.PivotOut(2, 9)));
  }

  /* ---------------------------------------------------------------- confirmed */

  function Confirmed9(): (b: seq<Body>) { Passed9() + [Confirm(6, 9, 7)] }
  function Kept9(): (b: seq<Body>) { Confirmed9() + [ScopeState(9, DeclaredCommitted)] }

  const PassedRow := Row(RowPassed, false, false, Some(2))
  const CommittedRow := Row(RowCommitted, false, false, Some(2))

  lemma PassGuards()
    ensures C.PassesPivot(
      In9(Out9(), OutRow, map[], TheTry(C.Sealed), map[], {}, C.PivotOut(2, 9)), 0,
      In9(Passed9(), PassedRow, map[], TheTry(C.Sealed), map[], {}, C.AfterPivot(2, 9)))
  {
    Wrote(Out9(), [PivotPassed(2, 9), Succeeded(2, Some(9))]);
    hide Written, Appended;
  }

  lemma PassBoth(policy: Policy, price: Pricing)
    ensures C.Acts(policy, price, In9(Out9(), OutRow, map[], TheTry(C.Sealed), map[], {}, C.PivotOut(2, 9)),
      C.PivotSucceeds(0), In9(Passed9(), PassedRow, map[], TheTry(C.Sealed), map[], {}, C.AfterPivot(2, 9)))
  {
    PassGuards();
    hide C.PassesPivot, In9;
  }

  lemma ReadBoth(policy: Policy, price: Pricing)
    ensures C.Acts(policy, price, In9(Passed9(), PassedRow, map[], TheTry(C.Sealed), map[], {}, C.AfterPivot(2, 9)),
      C.ReadSealed(0, [7]), In9(Passed9(), PassedRow, map[], TheTry(C.Sealed), map[], {}, C.Confirming(2, 9, [7])))
  {
    hide Written;
  }

  lemma ConfirmBoth(policy: Policy, price: Pricing)
    ensures C.Acts(policy, price,
      In9(Passed9(), PassedRow, map[], TheTry(C.Sealed), map[], {}, C.Confirming(2, 9, [7])),
      C.ConfirmOne(0), In9(Confirmed9(), PassedRow, map[], TheTry(C.Confirmed), map[], {}, C.Confirming(2, 9, [])))
  {
    Wrote(Passed9(), [Confirm(6, 9, 7)]);
    hide Written, Appended;
    assert [7][1..] == [];
  }

  lemma CommitGuards()
    ensures C.CommitsScope(
      In9(Confirmed9(), PassedRow, map[], TheTry(C.Confirmed), map[], {}, C.Confirming(2, 9, [])), 0,
      In9(Kept9(), CommittedRow, map[], TheTry(C.Confirmed), map[], {}, C.Idle))
  {
    Wrote(Confirmed9(), [ScopeState(9, DeclaredCommitted)]);
    hide Written, Appended;
  }

  lemma CommitBoth(policy: Policy, price: Pricing)
    ensures C.Acts(policy, price,
      In9(Confirmed9(), PassedRow, map[], TheTry(C.Confirmed), map[], {}, C.Confirming(2, 9, [])),
      C.CommitScope(0), In9(Kept9(), CommittedRow, map[], TheTry(C.Confirmed), map[], {}, C.Idle))
  {
    CommitGuards();
    hide C.CommitsScope, In9;
  }

  /** One way out: the pivot passes, the try is confirmed and the scope commits. */
  lemma ScopeCommits(policy: Policy, price: Pricing) returns (states: seq<C.Db>, moves: seq<C.Move>)
    ensures C.IsExecution(policy, price, states, moves) && |states| > 0
    ensures states[|states| - 1] == In9(Kept9(), CommittedRow, map[], TheTry(C.Confirmed), map[], {}, C.Idle)
  {
    hide C.IsExecution, C.Acts, In9;
    states, moves := PivotIsOut(policy, price);
    PassBoth(policy, price);
    states, moves := Next(policy, price, states, moves, C.PivotSucceeds(0),
      In9(Passed9(), PassedRow, map[], TheTry(C.Sealed), map[], {}, C.AfterPivot(2, 9)));
    ReadBoth(policy, price);
    states, moves := Next(policy, price, states, moves, C.ReadSealed(0, [7]),
      In9(Passed9(), PassedRow, map[], TheTry(C.Sealed), map[], {}, C.Confirming(2, 9, [7])));
    ConfirmBoth(policy, price);
    states, moves := Next(policy, price, states, moves, C.ConfirmOne(0),
      In9(Confirmed9(), PassedRow, map[], TheTry(C.Confirmed), map[], {}, C.Confirming(2, 9, [])));
    CommitBoth(policy, price);
    states, moves := Next(policy, price, states, moves, C.CommitScope(0),
      In9(Kept9(), CommittedRow, map[], TheTry(C.Confirmed), map[], {}, C.Idle));
  }

  /* ---------------------------------------------------------------- undone */

  function Absent9(): (b: seq<Body>) { Out9() + [Failed(2, Some(9), true)] }
  function Begun9(): (b: seq<Body>) { Absent9() + [Cancel(9, false)] }
  function Gone9(): (b: seq<Body>) { Begun9() + [Cancel(9, true)] }

  const CancellingRow := Row(RowCancelling, true, false, None)
  const CancelledRow := Row(RowCancelled, true, false, None)

  lemma DisproveBoth(policy: Policy, price: Pricing)
    ensures C.Acts(policy, price, In9(Out9(), OutRow, map[], TheTry(C.Sealed), map[], {}, C.PivotOut(2, 9)),
      C.PivotAbsent(0), In9(Out9(), FencedRow, map[9 := 2], TheTry(C.Sealed), map[], {}, C.Disproved(2, 9)))
  {
    hide Written;
  }

  lemma ReportBoth(policy: Policy, price: Pricing)
    ensures C.Acts(policy, price, In9(Out9(), FencedRow, map[9 := 2], TheTry(C.Sealed), map[], {}, C.Disproved(2, 9)),
      C.ReportAbsent(0), In9(Absent9(), FencedRow, map[], TheTry(C.Sealed), map[], {}, C.Idle))
  {
    Wrote(Out9(), [Failed(2, Some(9), true)]);
    hide Written, Appended;
  }

  lemma BeginGuards()
    ensures C.BeginsCancel(In9(Absent9(), FencedRow, map[], TheTry(C.Sealed), map[], {}, C.Idle), 0, 9,
      In9(Begun9(), CancellingRow, map[], TheTry(C.Sealed), map[(9, 6) := false], {}, C.Undoing(9)))
  {
    Wrote(Absent9(), [Cancel(9, false)]);
    hide Written, Appended;
    assert 7 in TheTry(C.Sealed);
    assert C.ToInvert(TheTry(C.Sealed), 9, 7);
    assert C.NewMembers(TheTry(C.Sealed), 9) == map[(9, 6) := false];
  }

  lemma BeginBoth(policy: Policy, price: Pricing)
    ensures C.Acts(policy, price, In9(Absent9(), FencedRow, map[], TheTry(C.Sealed), map[], {}, C.Idle),
      C.BeginCancel(0, 9),
      In9(Begun9(), CancellingRow, map[], TheTry(C.Sealed), map[(9, 6) := false], {}, C.Undoing(9)))
  {
    BeginGuards();
    hide C.BeginsCancel, In9;
  }

  lemma ClaimBoth(policy: Policy, price: Pricing)
    ensures C.Acts(policy, price,
      In9(Begun9(), CancellingRow, map[], TheTry(C.Sealed), map[(9, 6) := false], {}, C.Undoing(9)),
      C.ClaimMember(0, 6),
      In9(Begun9(), CancellingRow, map[], TheTry(C.Sealed), map[(9, 6) := false], {}, C.Inverting(9, 6)))
  {
    hide Written;
  }

  lemma InvertBoth(policy: Policy, price: Pricing)
    ensures C.Acts(policy, price,
      In9(Begun9(), CancellingRow, map[], TheTry(C.Sealed), map[(9, 6) := false], {}, C.Inverting(9, 6)),
      C.InverseSucceeds(0),
      In9(Begun9(), CancellingRow, map[], TheTry(C.Sealed), map[(9, 6) := false], {(9, 6)}, C.Inverted(9, 6)))
  {
    hide Written;
  }

  lemma CompleteBoth(policy: Policy, price: Pricing)
    ensures C.Acts(policy, price,
      In9(Begun9(), CancellingRow, map[], TheTry(C.Sealed), map[(9, 6) := false], {(9, 6)}, C.Inverted(9, 6)),
      C.CompleteMember(0),
      In9(Begun9(), CancellingRow, map[], TheTry(C.Sealed), map[(9, 6) := true], {(9, 6)}, C.Undoing(9)))
  {
    hide Written;
  }

  lemma FinishGuards()
    ensures C.FinishesCancel(
      In9(Begun9(), CancellingRow, map[], TheTry(C.Sealed), map[(9, 6) := true], {(9, 6)}, C.Undoing(9)), 0,
      In9(Gone9(), CancelledRow, map[], TheTry(C.Released), map[(9, 6) := true], {(9, 6)}, C.Idle))
  {
    Wrote(Begun9(), [Cancel(9, true)]);
    hide Written, Appended;
    assert C.Release(TheTry(C.Sealed), 9) == TheTry(C.Released);
  }

  lemma FinishBoth(policy: Policy, price: Pricing)
    ensures C.Acts(policy, price,
      In9(Begun9(), CancellingRow, map[], TheTry(C.Sealed), map[(9, 6) := true], {(9, 6)}, C.Undoing(9)),
      C.FinishCancel(0), In9(Gone9(), CancelledRow, map[], TheTry(C.Released), map[(9, 6) := true], {(9, 6)}, C.Idle))
  {
    FinishGuards();
    hide C.FinishesCancel, In9;
  }

  /** The other way out: the pivot is disproved, the try's inverse succeeds and the scope is released. */
  lemma ScopeIsReleased(policy: Policy, price: Pricing) returns (states: seq<C.Db>, moves: seq<C.Move>)
    ensures C.IsExecution(policy, price, states, moves) && |states| > 0
    ensures states[|states| - 1] ==
      In9(Gone9(), CancelledRow, map[], TheTry(C.Released), map[(9, 6) := true], {(9, 6)}, C.Idle)
  {
    hide C.IsExecution, C.Acts, In9;
    states, moves := PivotIsOut(policy, price);
    DisproveBoth(policy, price);
    states, moves := Next(policy, price, states, moves, C.PivotAbsent(0),
      In9(Out9(), FencedRow, map[9 := 2], TheTry(C.Sealed), map[], {}, C.Disproved(2, 9)));
    ReportBoth(policy, price);
    states, moves := Next(policy, price, states, moves, C.ReportAbsent(0),
      In9(Absent9(), FencedRow, map[], TheTry(C.Sealed), map[], {}, C.Idle));
    BeginBoth(policy, price);
    states, moves := Next(policy, price, states, moves, C.BeginCancel(0, 9),
      In9(Begun9(), CancellingRow, map[], TheTry(C.Sealed), map[(9, 6) := false], {}, C.Undoing(9)));
    ClaimBoth(policy, price);
    states, moves := Next(policy, price, states, moves, C.ClaimMember(0, 6),
      In9(Begun9(), CancellingRow, map[], TheTry(C.Sealed), map[(9, 6) := false], {}, C.Inverting(9, 6)));
    InvertBoth(policy, price);
    states, moves := Next(policy, price, states, moves, C.InverseSucceeds(0),
      In9(Begun9(), CancellingRow, map[], TheTry(C.Sealed), map[(9, 6) := false], {(9, 6)}, C.Inverted(9, 6)));
    CompleteBoth(policy, price);
    states, moves := Next(policy, price, states, moves, C.CompleteMember(0),
      In9(Begun9(), CancellingRow, map[], TheTry(C.Sealed), map[(9, 6) := true], {(9, 6)}, C.Undoing(9)));
    FinishBoth(policy, price);
    states, moves := Next(policy, price, states, moves, C.FinishCancel(0),
      In9(Gone9(), CancelledRow, map[], TheTry(C.Released), map[(9, 6) := true], {(9, 6)}, C.Idle));
  }

  /* ---------------------------------------------------------------- handed to a person */

  /** The execution ends with scope 9 suspended and the worker free. */
  ghost predicate EndsSuspended(policy: Policy, price: Pricing, states: seq<C.Db>, moves: seq<C.Move>) {
    && C.IsExecution(policy, price, states, moves) && |states| > 0
    && var c := states[|states| - 1]; InState(c.run, 9, RowSuspended) && C.Stands(c, 0) == C.Idle
  }

  function Upserted(row: Row): (r: Row) { row.(state := RowSuspended) }

  /** Nothing establishes what the pivot did. */
  lemma LostPivotSuspends(policy: Policy, price: Pricing) returns (states: seq<C.Db>, moves: seq<C.Move>)
    ensures EndsSuspended(policy, price, states, moves)
  {
    states, moves := PivotIsOut(policy, price);
    var c := In9(Out9(), OutRow, map[], TheTry(C.Sealed), map[], {}, C.PivotOut(2, 9));
    var more := [Failed(2, Some(9), false), ScopeState(9, DeclaredSuspended)];
    var d := In9(Out9() + more, Upserted(OutRow), map[], TheTry(C.Sealed), map[], {}, C.Idle);
    assert C.Acts(policy, price, c, C.PivotUnknown(0), d) by {
      assert C.LosesPivot(c, 0, d) by {
        Wrote(Out9(), more);
        hide Written, Appended, C.IsExecution, C.Acts;
      }
      hide C.LosesPivot, C.IsExecution, In9;
    }
    hide C.IsExecution, C.Acts;
    states, moves := Next(policy, price, states, moves, C.PivotUnknown(0), d);
  }

  /** A confirm fails. */
  lemma FailedConfirmSuspends(policy: Policy, price: Pricing) returns (states: seq<C.Db>, moves: seq<C.Move>)
    ensures EndsSuspended(policy, price, states, moves)
  {
    hide C.IsExecution;
    states, moves := PivotIsOut(policy, price);
    PassBoth(policy, price);
    states, moves := Next(policy, price, states, moves, C.PivotSucceeds(0),
      In9(Passed9(), PassedRow, map[], TheTry(C.Sealed), map[], {}, C.AfterPivot(2, 9)));
    ReadBoth(policy, price);
    var c := In9(Passed9(), PassedRow, map[], TheTry(C.Sealed), map[], {}, C.Confirming(2, 9, [7]));
    states, moves := Next(policy, price, states, moves, C.ReadSealed(0, [7]), c);
    var d := In9(Passed9() + [ScopeState(9, DeclaredSuspended)], Upserted(PassedRow), map[],
      TheTry(C.Sealed), map[], {},
      C.Idle);
    FailBoth(policy, price);
    hide C.Acts;
    states, moves := Next(policy, price, states, moves, C.ConfirmFails(0), d);
  }

  lemma UnconfirmedGuards()
    ensures C.FailsConfirm(
      In9(Passed9(), PassedRow, map[], TheTry(C.Sealed), map[], {}, C.Confirming(2, 9, [7])), 0,
      In9(Passed9() + [ScopeState(9, DeclaredSuspended)], Upserted(PassedRow), map[],
        TheTry(C.Sealed), map[], {}, C.Idle))
  {
    Wrote(Passed9(), [ScopeState(9, DeclaredSuspended)]);
    hide Written, Appended;
  }

  lemma FailBoth(policy: Policy, price: Pricing)
    ensures C.Acts(policy, price,
      In9(Passed9(), PassedRow, map[], TheTry(C.Sealed), map[], {}, C.Confirming(2, 9, [7])),
      C.ConfirmFails(0),
      In9(Passed9() + [ScopeState(9, DeclaredSuspended)], Upserted(PassedRow), map[],
        TheTry(C.Sealed), map[], {}, C.Idle))
  {
    UnconfirmedGuards();
    hide C.FailsConfirm, In9;
  }

  /** An attempt nobody can resolve keeps an open scope from being cancelled. */
  lemma UnresolvedSuspends(policy: Policy, price: Pricing) returns (states: seq<C.Db>, moves: seq<C.Move>)
    ensures EndsSuspended(policy, price, states, moves)
  {
    hide C.IsExecution, C.Acts;
    states, moves := PivotIsOut(policy, price);
    DisproveBoth(policy, price);
    states, moves := Next(policy, price, states, moves, C.PivotAbsent(0),
      In9(Out9(), FencedRow, map[9 := 2], TheTry(C.Sealed), map[], {}, C.Disproved(2, 9)));
    ReportBoth(policy, price);
    states, moves := Next(policy, price, states, moves, C.ReportAbsent(0),
      In9(Absent9(), FencedRow, map[], TheTry(C.Sealed), map[], {}, C.Idle));
    SuspendBoth(policy, price);
    states, moves := Next(policy, price, states, moves, C.SuspendInstead(0, 9),
      In9(Absent9() + [ScopeState(9, DeclaredSuspended)], Upserted(FencedRow), map[],
        TheTry(C.Sealed), map[], {}, C.Idle));
  }

  lemma SuspendGuards()
    ensures C.SuspendsScope(In9(Absent9(), FencedRow, map[], TheTry(C.Sealed), map[], {}, C.Idle), 0, 9,
      In9(Absent9() + [ScopeState(9, DeclaredSuspended)], Upserted(FencedRow), map[],
        TheTry(C.Sealed), map[], {}, C.Idle))
  {
    Wrote(Absent9(), [ScopeState(9, DeclaredSuspended)]);
    hide Written, Appended;
  }

  lemma SuspendBoth(policy: Policy, price: Pricing)
    ensures C.Acts(policy, price, In9(Absent9(), FencedRow, map[], TheTry(C.Sealed), map[], {}, C.Idle),
      C.SuspendInstead(0, 9),
      In9(Absent9() + [ScopeState(9, DeclaredSuspended)], Upserted(FencedRow), map[],
        TheTry(C.Sealed), map[], {}, C.Idle))
  {
    SuspendGuards();
    hide C.SuspendsScope, In9;
  }

  /** A worker stops while undoing a scope; another pass resumes it, and the inverse fails. */
  lemma FailedInverseSuspends(policy: Policy, price: Pricing) returns (states: seq<C.Db>, moves: seq<C.Move>)
    ensures EndsSuspended(policy, price, states, moves)
  {
    hide C.IsExecution, C.Acts;
    states, moves := PivotIsOut(policy, price);
    DisproveBoth(policy, price);
    states, moves := Next(policy, price, states, moves, C.PivotAbsent(0),
      In9(Out9(), FencedRow, map[9 := 2], TheTry(C.Sealed), map[], {}, C.Disproved(2, 9)));
    ReportBoth(policy, price);
    states, moves := Next(policy, price, states, moves, C.ReportAbsent(0),
      In9(Absent9(), FencedRow, map[], TheTry(C.Sealed), map[], {}, C.Idle));
    BeginBoth(policy, price);
    states, moves := Next(policy, price, states, moves, C.BeginCancel(0, 9), Undoing9(C.Undoing(9)));
    StopAndResume(policy, price);
    states, moves := Next(policy, price, states, moves, C.Stop(0), Undoing9(C.Idle));
    states, moves := Next(policy, price, states, moves, C.ResumeCancel(0, 9), Undoing9(C.Undoing(9)));
    ClaimBoth(policy, price);
    states, moves := Next(policy, price, states, moves, C.ClaimMember(0, 6), Undoing9(C.Inverting(9, 6)));
    FailInverse(policy, price);
    states, moves := Next(policy, price, states, moves, C.InverseFails(0),
      In9(Begun9() + [ScopeState(9, DeclaredSuspended)], Upserted(CancellingRow), map[], TheTry(C.Sealed),
        map[(9, 6) := false], {}, C.Idle));
  }

  function Undoing9(at: C.At): (c: C.Db) {
    In9(Begun9(), CancellingRow, map[], TheTry(C.Sealed), map[(9, 6) := false], {}, at)
  }

  lemma ResumeGuards()
    ensures C.Stops(Undoing9(C.Undoing(9)), 0, Undoing9(C.Idle))
    ensures C.ResumesCancel(Undoing9(C.Idle), 0, 9, Undoing9(C.Undoing(9)))
  {
    hide Written;
  }

  lemma StopAndResume(policy: Policy, price: Pricing)
    ensures C.Acts(policy, price, Undoing9(C.Undoing(9)), C.Stop(0), Undoing9(C.Idle))
    ensures C.Acts(policy, price, Undoing9(C.Idle), C.ResumeCancel(0, 9), Undoing9(C.Undoing(9)))
  {
    ResumeGuards();
    hide C.Stops, C.ResumesCancel, Undoing9;
  }

  lemma FailGuards()
    ensures C.FailsInverse(Undoing9(C.Inverting(9, 6)), 0,
      In9(Begun9() + [ScopeState(9, DeclaredSuspended)], Upserted(CancellingRow), map[], TheTry(C.Sealed),
        map[(9, 6) := false], {}, C.Idle))
  {
    Wrote(Begun9(), [ScopeState(9, DeclaredSuspended)]);
    hide Written, Appended;
  }

  lemma FailInverse(policy: Policy, price: Pricing)
    ensures C.Acts(policy, price, Undoing9(C.Inverting(9, 6)), C.InverseFails(0),
      In9(Begun9() + [ScopeState(9, DeclaredSuspended)], Upserted(CancellingRow), map[], TheTry(C.Sealed),
        map[(9, 6) := false], {}, C.Idle))
  {
    FailGuards();
    hide C.FailsInverse, In9;
  }

  /** A released scope may be swept again, to no effect. */
  lemma ReleasedIsSwept(policy: Policy, price: Pricing) returns (states: seq<C.Db>, moves: seq<C.Move>)
    ensures C.IsExecution(policy, price, states, moves) && |states| > 0
    ensures var c := states[|states| - 1]; InState(c.run, 9, RowCancelled) && C.Stands(c, 0) == C.Undoing(9)
  {
    states, moves := ScopeIsReleased(policy, price);
    var c := In9(Gone9(), CancelledRow, map[], TheTry(C.Released), map[(9, 6) := true], {(9, 6)}, C.Idle);
    var d := In9(Gone9(), CancelledRow, map[], TheTry(C.Released), map[(9, 6) := true], {(9, 6)}, C.Undoing(9));
    assert C.Acts(policy, price, c, C.ResumeCancel(0, 9), d) by { hide Written, C.IsExecution; }
    hide C.IsExecution, C.Acts;
    states, moves := Next(policy, price, states, moves, C.ResumeCancel(0, 9), d);
  }
}
