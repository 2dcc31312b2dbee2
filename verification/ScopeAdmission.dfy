/**
 The runtime half of admission: which locked scopes refuse a freeze, and how that compares
 with what the ladder checked when it recorded the boundary the freeze answers.
 */
module ScopeAdmission {
  import opened EventLog
  import opened CausalGraph
  import opened ScopePhases
  import opened RecoveryLadder
  import opened LadderFacts
  import opened RunProtocol
  import opened RunInvariant
  import opened RecoverySafety
  import opened RunSafety

  datatype Block = BlockFenced | BlockCancelling | BlockSuspended | BlockInflight | BlockPassed | BlockExpiredTry

  /** Why a scope refuses new work, when it does. */
  function AdmissionBlock(row: LockedScope): (b: Option<Block>) {
    match row.state
    case RowCancelling => Some(BlockCancelling)
    case RowSuspended => Some(BlockSuspended)
    case RowInflight => Some(BlockInflight)
    case RowPassed => Some(BlockPassed)
    case _ =>
      if row.fenced && row.state == RowOpen then Some(BlockFenced)
      else if row.hasExpiredTry then Some(BlockExpiredTry) else None
  }

  /** What each refusal says of the row it is about. */
  predicate Refuses(row: LockedScope, b: Block) {
    match b
    case BlockFenced => row.state == RowOpen && row.fenced
    case BlockCancelling => row.state == RowCancelling
    case BlockSuspended => row.state == RowSuspended
    case BlockInflight => row.state == RowInflight
    case BlockPassed => row.state == RowPassed
    case BlockExpiredTry =>
      row.hasExpiredTry && (row.state == RowCommitted || row.state == RowCancelled ||
        (row.state == RowOpen && !row.fenced))
  }

  lemma BlockTells(row: LockedScope, b: Block)
    ensures AdmissionBlock(row) == Some(b) <==> Refuses(row, b)
  {
  }

  ghost predicate FreezeAdmitted(locked: Locked) {
    forall s :: s in locked ==> AdmissionBlock(locked[s]).None?
  }

  /** The check over the locked rows in their order: one violation for each scope that refuses. */
  method CheckScopeAdmission(order: seq<Id>, locked: Locked) returns (accepted: bool, violations: seq<(Id, Block)>)
    requires forall i :: 0 <= i < |order| ==> order[i] in locked
    requires forall s :: s in locked ==> s in order
    ensures accepted <==> FreezeAdmitted(locked)
    ensures accepted <==> violations == []
    ensures forall s, b :: (s, b) in violations <==> s in locked && Refuses(locked[s], b)
  {
    violations := [];
    for i := 0 to |order|
      invariant forall s, b :: (s, b) in violations <==> s in order[..i] && AdmissionBlock(locked[s]) == Some(b)
    {
      var block := AdmissionBlock(locked[order[i]]);
      if block.Some? {
        violations := violations + [(order[i], block.value)];
      }
    }
    assert order[..|order|] == order;
    accepted := |violations| == 0;
    if !accepted {
      var v := violations[0];
      assert (v.0, v.1) in violations;
    }
  }

  /**
   Where rows and log agree, the scopes that refuse a freeze are those the ladder waits
   for, the suspended ones, and any closed scope that still shows an expired sealed try.
   */
  lemma WhoRefuses(log: Log, locked: Locked, s: Id)
    requires Disagreeing(log, locked) == {} && s in locked
    ensures AdmissionBlock(locked[s]).Some? <==>
      s in RunBlocks(log, Some(locked)) || s in SuspendedScopes(log)
        || (IsClosed(locked[s].state) && locked[s].hasExpiredTry)
  {
    assert s !in Disagreeing(log, locked);
  }

  /**
   A replan the ladder records is one the freeze accepts exactly when no closed scope still
   shows an expired sealed try: such a scope is terminal to the ladder but not to admission.
   */
  lemma RecordedReplanIsAdmitted(policy: Policy, price: Pricing, run: seq<Run>, steps: seq<Step>, k: nat, v: Id,
      tries: Tries)
    requires IsRun(policy, price, run, steps) && k < |run|
    requires var d := SelectBoundary(run[k].log, v, policy, price, Some(View(run[k].rows, tries)));
      d.action == Record && d.selected.Some?
    ensures FreezeAdmitted(View(run[k].rows, tries)) <==>
      forall s :: s in run[k].rows && IsClosed(run[k].rows[s].state) ==> s !in tries.expired
  {
    var a := run[k];
    RunInv(policy, price, run, steps, k);
    hide SelectBoundary, IsRun, Sound, WorkIsCreated, CreatedOnce, RunBlocks, SuspendedScopes, AncestorPlanners,
      Episode, RuleAuthored, TimesSelected, BacktrackFloor, Unresolved, ScopesMeeting, Disagreeing, AdmissionBlock,
      Coherent;
    var locked := View(a.rows, tries);
    DecisionFacts(a.log, v, policy, price, Some(locked));
    forall s | s in locked
      ensures AdmissionBlock(locked[s]).Some? <==> IsClosed(locked[s].state) && locked[s].hasExpiredTry {
      WhoRefuses(a.log, locked, s);
    }
    assert locked.Keys == a.rows.Keys;
  }
}
