/**
 A submission's way to its verdict: normalised, resolved against the tool view, admitted by the
 run's scopes, lowered and checked. What is said of the rewritten workflow is a statement about
 the workflow as it was submitted.
 */
module Submission {
  import opened Proposals
  import opened Normalize
  import opened CheckRules
  import RecoveryLadder
  import ScopeAdmission

  datatype Judgement = NotNormalized | NotResolved | ScopesRefuse | Checked(verdict: CheckRules.Verdict)

  function Names(ws: Workflow): (ids: seq<Name>) { if ws == [] then [] else Names(ws[..|ws| - 1]) + [ws[|ws| - 1].id] }

  lemma {:induction false} NamesAre(ws: Workflow)
    ensures forall x :: x in Names(ws) <==> exists i :: 0 <= i < |ws| && ws[i].id == x
  {
    if ws != [] {
      var n := |ws| - 1;
      NamesAre(ws[..n]);
      assert forall i :: 0 <= i < n ==> ws[..n][i] == ws[i];
      forall x ensures x in Names(ws) <==> exists i :: 0 <= i < |ws| && ws[i].id == x {
        if x in Names(ws[..n]) {
          var i :| 0 <= i < n && ws[..n][i].id == x;
          assert ws[i].id == x;
        }
        if i :| 0 <= i < |ws| && ws[i].id == x {
          assert i < n ==> ws[..n][i].id == x;
        }
      }
    }
  }

  /** Every rule but R14, and where a router will stand, scopes placed well among those the run holds. */
  ghost predicate Acceptable(p: Proposal, reg: Registry, existing: seq<Snapshot>) {
    OtherRules(p, reg, existing) && (Routers(p.graph) != {} ==> forall i :: 0 <= i < |p.scopes| ==>
      Placed(p, reg, existing, p.scopes[i].id))
  }

  lemma {:induction false} SameVerdict(ws: Workflow, scopes: seq<ScopeDecl>, reg: Registry, existing: seq<Snapshot>)
    requires Distinct(ws) && ParentsKnown(ById(ws), ws) && RoutersFree(ById(ws), ws)
    ensures var p := Proposal(ById(ws), scopes); var q := Proposal(ById(ExpandAll(ById(ws), ws)), scopes);
      && (WellFormed(q, reg) <==> WellFormed(p, reg))
      && (MembersSubmitted(p) ==> (OtherRules(q, reg, existing) && AllRouted(q) <==> Acceptable(p, reg, existing)))
  {
    PassIsNormalGraph(ws);
    hide WellFormed, OtherRules, AllRouted, ById, ExpandAll, Fits, NormalGraph, MembersSubmitted, Routers;
    var p := Proposal(ById(ws), scopes);
    SameWellFormed(p, reg);
    if MembersSubmitted(p) { NormalizationKeepsVerdict(p, reg, existing); }
  }

  /** A tool call whose tool the view does not hold. */
  predicate Missing(v: Vertex, reg: Registry) { v.kind == ToolKind && !(v.tool.Some? && v.tool.value in reg) }

  predicate Resolves(ws: Workflow, reg: Registry) { forall i :: 0 <= i < |ws| ==> !Missing(ws[i].vertex, reg) }

  lemma ResolvesIs(ws: Workflow, reg: Registry)
    ensures Resolves(ws, reg) <==> !exists i ::
      0 <= i < |ws| && ws[i].vertex.kind == ToolKind && (ws[i].vertex.tool.None? || ws[i].vertex.tool.value !in reg)
  {
    assert forall i :: 0 <= i < |ws| ==> (Missing(ws[i].vertex, reg) <==>
      ws[i].vertex.kind == ToolKind && (ws[i].vertex.tool.None? || ws[i].vertex.tool.value !in reg));
  }

  /** Interposed routers call no tool, and nothing submitted calls another one. */
  lemma {:induction false} SameResolves(g: Graph, ws: Workflow, reg: Registry)
    ensures Resolves(ExpandAll(g, ws), reg) <==> Resolves(ws, reg)
  {
    var out := ExpandAll(g, ws);
    if Resolves(ws, reg) {
      forall k | 0 <= k < |out| ensures !Missing(out[k].vertex, reg) {
        var i := ExpandedFrom(g, ws, k);
        hide ExpandAll;
        assert !Missing(ws[i].vertex, reg);
      }
    }
    if Resolves(out, reg) {
      forall i | 0 <= i < |ws| ensures !Missing(ws[i].vertex, reg) { StillCalls(g, ws, reg, i); }
    }
  }

  lemma {:induction false} StillCalls(g: Graph, ws: Workflow, reg: Registry, i: nat)
    requires i < |ws| && Resolves(ExpandAll(g, ws), reg)
    ensures !Missing(ws[i].vertex, reg)
  {
    hide ExpandAll;
    ExpandedHas(g, ws, i);
    var out := ExpandAll(g, ws);
    var w := Expand(g, ws[i])[|Expand(g, ws[i])| - 1];
    assert w in out;
    var k :| 0 <= k < |out| && out[k] == w;
    assert !Missing(out[k].vertex, reg);
  }

  method AllResolve(ws: Workflow, reg: Registry) returns (ok: bool)
    ensures ok <==> Resolves(ws, reg)
  {
    for i := 0 to |ws|
      invariant Resolves(ws[..i], reg)
    {
      if Missing(ws[i].vertex, reg) { return false; }
    }
    ok := true;
  }

  /** A run whose scopes are locked in this order. */
  ghost predicate IsOrder(order: seq<nat>, locked: RecoveryLadder.Locked) {
    (forall i :: 0 <= i < |order| ==> order[i] in locked) && forall s :: s in locked ==> s in order
  }

  /**
   The verdict on what was submitted, stage by stage: refused before anything else exactly on an unknown parent or a
   taken router name; then exactly when some tool it calls is not in the view; then exactly when some scope of the run
   refuses new work; and then judged exactly when it was well formed, and accepted exactly when the registry had no
   defect and the submission, as its author wrote it, is acceptable. Author ids are distinct and scopes hold submitted
   vertices only, where that matters.
   */
  method JudgeSubmission(ws: Workflow, scopes: seq<ScopeDecl>, reg: Registry, existing: seq<Snapshot>, order: seq<nat>,
      locked: RecoveryLadder.Locked, defects: seq<Violation>) returns (r: Judgement)
    requires IsOrder(order, locked)
    ensures r.NotNormalized? <==> !ParentsKnown(ById(ws), ws) || !RoutersFree(ById(ws), ws)
    ensures !r.NotNormalized? ==> (r.NotResolved? <==> exists i ::
      0 <= i < |ws| && ws[i].vertex.kind == ToolKind && (ws[i].vertex.tool.None? || ws[i].vertex.tool.value !in reg))
    ensures !r.NotNormalized? && !r.NotResolved? ==> (r.ScopesRefuse? <==> !ScopeAdmission.FreezeAdmitted(locked))
    ensures r.Checked? && Distinct(ws) ==> (r.verdict.Judged? <==> WellFormed(Proposal(ById(ws), scopes), reg))
    ensures r.Checked? && Distinct(ws) && r.verdict.Judged? && MembersSubmitted(Proposal(ById(ws), scopes)) ==>
      (r.verdict.accepted <==> defects == [] && Acceptable(Proposal(ById(ws), scopes), reg, existing))
  {
    hide WellFormed, OtherRules, AllRouted, ById, ExpandAll, ParentsKnown, RoutersFree, Fits, NormalGraph,
      MembersSubmitted, Routers, Interposed, Distinct, Resolves, ScopeAdmission.FreezeAdmitted;
    var outcome := NormalizeWorkflow(ws);
    if !outcome.Normalized? { return NotNormalized; }
    var out := outcome.workflow;
    var resolves := AllResolve(out, reg);
    SameResolves(ById(ws), ws, reg);
    ResolvesIs(ws, reg);
    if !resolves { return NotResolved; }
    var admitted, refusals := ScopeAdmission.CheckScopeAdmission(order, locked);
    if !admitted { return ScopesRefuse; }
    NamesAre(out);
    ByIdKeys(out);
    var verdict := CheckSubDag(Proposal(ById(out), scopes), Names(out), reg, existing, defects);
    if Distinct(ws) { SameVerdict(ws, scopes, reg, existing); }
    return Checked(verdict);
  }
}
