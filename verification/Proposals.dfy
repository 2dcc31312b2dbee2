/**
 A proposed subgraph as admission reads it, and the rules it is judged by.

 A proposal's vertices are keyed by author id. The rules are stated here on reachability;
 the checker that computes them is in `CheckRules`.
 */
module Proposals {
  import opened EventLog

  type Name = string

  datatype Kind = PlannerKind | ToolKind | RouterKind | BarrierKind

  datatype Effect = NoEffect | Bufferable | Reversible | Irreversible
  datatype Mode = PlainMode | Saga | Tcc

  datatype Tool = Tool(effect: Effect, mode: Mode, compensated: bool, retryable: bool, footprint: set<Name>,
      writes: set<Name>)

  datatype Vertex = Vertex(parents: seq<Name>, kind: Kind, tool: Option<Name>, scope: Option<Name>,
      confirmedOutput: bool)

  type Graph = map<Name, Vertex>

  type Registry = map<Name, Tool>

  /** A scope of the proposal; members of a repeated id are those of its last declaration. */
  datatype ScopeDecl = ScopeDecl(id: Name, members: seq<Name>)

  datatype Proposal = Proposal(graph: Graph, scopes: seq<ScopeDecl>)

  /** A scope the run already holds. */
  datatype Snapshot = Snapshot(id: Name, halfOpen: bool, pivotCount: nat)

  /* ---------------------------------------------------------------- reachability */

  /** Going up from `b` by `n` parent edges reaches `a`. */
  ghost predicate Up(g: Graph, a: Name, b: Name, n: nat)
    decreases n
  {
    if n == 0 then a == b else b in g && exists p :: p in g[b].parents && Up(g, a, p, n - 1)
  }

  ghost predicate Anc(g: Graph, a: Name, b: Name) { exists n: nat :: n >= 1 && Up(g, a, b, n) }

  ghost predicate Known(g: Graph) { forall id, p :: id in g && p in g[id].parents ==> p in g }

  ghost predicate Acyclic(g: Graph) { forall id :: !Anc(g, id, id) }

  lemma AncStep(g: Graph, a: Name, b: Name)
    ensures Anc(g, a, b) <==> b in g && exists p :: p in g[b].parents && (a == p || Anc(g, a, p))
  {
    if Anc(g, a, b) {
      var n: nat :| n >= 1 && Up(g, a, b, n);
      var p :| p in g[b].parents && Up(g, a, p, n - 1);
      if n > 1 { assert Anc(g, a, p); }
    }
    if b in g {
      if p :| p in g[b].parents && (a == p || Anc(g, a, p)) {
        var n: nat;
        if a == p { n := 0; } else { n :| n >= 1 && Up(g, a, p, n); }
        assert Up(g, a, p, n);
        assert Up(g, a, b, n + 1);
      }
    }
  }

  lemma {:induction false} UpTrans(g: Graph, a: Name, b: Name, c: Name, n: nat, m: nat)
    requires Up(g, a, b, n) && Up(g, b, c, m)
    ensures Up(g, a, c, n + m)
    decreases m
  {
    if m > 0 {
      var p :| p in g[c].parents && Up(g, b, p, m - 1);
      UpTrans(g, a, b, p, n, m - 1);
    }
  }

  lemma AncTrans(g: Graph, a: Name, b: Name, c: Name)
    requires Anc(g, a, b) && Anc(g, b, c)
    ensures Anc(g, a, c)
  {
    var n: nat :| n >= 1 && Up(g, a, b, n);
    var m: nat :| m >= 1 && Up(g, b, c, m);
    UpTrans(g, a, b, c, n, m);
  }

  lemma AncIsKnown(g: Graph, a: Name, b: Name)
    requires Known(g) && Anc(g, a, b)
    ensures a in g && b in g
  {
    var n: nat :| n >= 1 && Up(g, a, b, n);
    UpIsKnown(g, a, b, n);
  }

  lemma {:induction false} UpIsKnown(g: Graph, a: Name, b: Name, n: nat)
    requires Known(g) && Up(g, a, b, n) && n >= 1
    ensures a in g && b in g
    decreases n
  {
    var p :| p in g[b].parents && Up(g, a, p, n - 1);
    if n > 1 { UpIsKnown(g, a, p, n - 1); }
  }

  ghost function Ancestors(g: Graph, b: Name): (r: set<Name>) { set a | a in g && Anc(g, a, b) }

  ghost function Descendants(g: Graph, a: Name): (r: set<Name>) { set b | b in g && Anc(g, a, b) }

  /* ---------------------------------------------------------------- reading a proposal */

  predicate HasTool(p: Proposal, reg: Registry, id: Name) {
    id in p.graph && p.graph[id].kind == ToolKind && p.graph[id].tool.Some? && p.graph[id].tool.value in reg
  }

  function ToolOf(p: Proposal, reg: Registry, id: Name): (t: Tool)
    requires HasTool(p, reg, id)
  {
    reg[p.graph[id].tool.value]
  }

  predicate IsPivot(p: Proposal, reg: Registry, id: Name) {
    HasTool(p, reg, id) && ToolOf(p, reg, id).effect == Irreversible
  }

  predicate Undoable(t: Tool) { t.effect == NoEffect || t.effect == Bufferable || t.mode == Tcc || t.compensated }

  /** The members of a scope id: its last declaration counts. */
  function Members(scopes: seq<ScopeDecl>, id: Name): (m: set<Name>) {
    if scopes == [] then {}
    else
      var last := scopes[|scopes| - 1];
      if last.id == id then set v | v in last.members else Members(scopes[..|scopes| - 1], id)
  }

  /** A barrier with at least two parents that every one of these pivots waits for. */
  ghost predicate GuardedBy(p: Proposal, b: Name, first: Name, second: Name) {
    && b in p.graph && p.graph[b].kind == BarrierKind && |p.graph[b].parents| >= 2
    && Anc(p.graph, b, first) && Anc(p.graph, b, second)
  }

  ghost predicate Related(p: Proposal, reg: Registry, r: Name, first: Name, second: Name) {
    IsPivot(p, reg, r) && (r == first || r == second || Anc(p.graph, first, r) || Anc(p.graph, second, r))
  }

  ghost predicate Separated(p: Proposal, reg: Registry, b: Name, first: Name, second: Name) {
    && b in p.graph && p.graph[b].kind == BarrierKind && Anc(p.graph, first, b) && Anc(p.graph, second, b)
    && forall r :: Related(p, reg, r, first, second) ==> Anc(p.graph, b, r)
  }

  predicate HasRouter(p: Proposal) { exists id :: id in p.graph && p.graph[id].kind == RouterKind }

  /* ---------------------------------------------------------------- the rules, each at the place it is checked */

  /** R10: a side effect needs a scope. */
  predicate EffectScoped(p: Proposal, reg: Registry, id: Name) {
    HasTool(p, reg, id) && ToolOf(p, reg, id).effect != NoEffect ==> p.graph[id].scope.Some?
  }

  /** The pivots among the members of a scope. */
  function PivotsIn(p: Proposal, reg: Registry, s: Name): (r: set<Name>) {
    set v | v in Members(p.scopes, s) && IsPivot(p, reg, v)
  }

  /** R3: one pivot per scope. */
  predicate OnePivot(p: Proposal, reg: Registry, s: Name) { |PivotsIn(p, reg, s)| <= 1 }

  /** R2, R1: what a pivot's scope does before it can be undone, and what it does after can be repeated. */
  ghost predicate AroundPivot(p: Proposal, reg: Registry, v: Name, m: Name) {
    HasTool(p, reg, m) ==>
      && (Anc(p.graph, m, v) && ToolOf(p, reg, m).effect != NoEffect ==> Undoable(ToolOf(p, reg, m)))
      && (Anc(p.graph, v, m) ==> ToolOf(p, reg, m).retryable)
  }

  /** R11: a reversible predecessor whose footprint meets the pivot's is in the pivot's scope. */
  predicate MustBeInside(p: Proposal, reg: Registry, v: Name, a: Name) {
    && IsPivot(p, reg, v) && HasTool(p, reg, a)
    && ToolOf(p, reg, a).effect == Reversible && ToolOf(p, reg, a).footprint * ToolOf(p, reg, v).footprint != {}
  }

  ghost predicate ScopeFits(p: Proposal, reg: Registry, s: Name) {
    && OnePivot(p, reg, s)
    && (forall v, m :: v in PivotsIn(p, reg, s) && m in Members(p.scopes, s) ==> AroundPivot(p, reg, v, m))
    && (forall v, a :: v in PivotsIn(p, reg, s) && Anc(p.graph, a, v) && MustBeInside(p, reg, v, a) ==>
      a in Members(p.scopes, s))
  }

  /** The first snapshot of a scope id. */
  function Existing(existing: seq<Snapshot>, s: Name): (r: Option<Snapshot>) {
    if existing == [] then None else if existing[0].id == s then Some(existing[0]) else Existing(existing[1..], s)
  }

  predicate SomeHalfOpen(existing: seq<Snapshot>) { exists j :: 0 <= j < |existing| && existing[j].halfOpen }

  /** R12 and R3 across freezes. */
  predicate Placed(p: Proposal, reg: Registry, existing: seq<Snapshot>, s: Name) {
    var known := Existing(existing, s);
    (SomeHalfOpen(existing) ==> known.Some?) && (known.Some? ==> known.value.pivotCount + |PivotsIn(p, reg, s)| <= 1)
  }

  /** R5: parallel pivots wait for one barrier. */
  ghost predicate Guarded(p: Proposal, a: Name, b: Name) {
    Anc(p.graph, a, b) || Anc(p.graph, b, a) || exists g :: GuardedBy(p, g, a, b)
  }

  /** R7: no edge reads an unconfirmed output of another scope. */
  predicate EdgeConfirmed(p: Proposal, reg: Registry, v: Name, c: Name)
    requires v in p.graph && c in p.graph
  {
    var parent, child := p.graph[v], p.graph[c];
    var crosses := parent.kind == ToolKind && parent.scope.Some? && child.scope.Some? && parent.scope != child.scope;
    crosses && (!HasTool(p, reg, v) || ToolOf(p, reg, v).effect != NoEffect) ==> parent.confirmedOutput
  }

  /** R14: a tool never hands control straight to a planner. */
  predicate RouterBetween(p: Proposal, v: Name, c: Name)
    requires v in p.graph && c in p.graph
  {
    p.graph[c].kind == PlannerKind ==> p.graph[v].kind != ToolKind
  }

  /** R12: a planner or router joins no scope. */
  predicate Decides(k: Kind) { k == PlannerKind || k == RouterKind }

  predicate Unscoped(p: Proposal, id: Name)
    requires id in p.graph
  {
    Decides(p.graph[id].kind) ==> p.graph[id].scope.None? && forall i :: 0 <= i < |p.scopes| ==>
      id !in p.scopes[i].members
  }

  /** R8: after a pivot no read in its scope has anything depending on it. */
  predicate ReadsOnly(p: Proposal, reg: Registry, v: Name, d: Name) {
    IsPivot(p, reg, v) && HasTool(p, reg, d) && p.graph[d].scope == p.graph[v].scope
      && ToolOf(p, reg, d).effect == NoEffect
  }

  /** R9: parallel writers of one thing before a pivot are separated by a barrier. */
  predicate Collide(p: Proposal, reg: Registry, a: Name, b: Name) {
    HasTool(p, reg, a) && HasTool(p, reg, b) && ToolOf(p, reg, a).writes * ToolOf(p, reg, b).writes != {}
  }

  ghost predicate WritersFit(p: Proposal, reg: Registry, a: Name, b: Name) {
    || Anc(p.graph, a, b) || Anc(p.graph, b, a)
    || (forall r :: !Related(p, reg, r, a, b))
    || exists g :: Separated(p, reg, g, a, b)
  }

  /* ---------------------------------------------------------------- the rules over a whole proposal */

  ghost predicate AllPlaced(p: Proposal, reg: Registry, existing: seq<Snapshot>) {
    HasRouter(p) ==> forall i :: 0 <= i < |p.scopes| ==> Placed(p, reg, existing, p.scopes[i].id)
  }

  ghost predicate AllGuarded(p: Proposal, reg: Registry) {
    forall a, b :: IsPivot(p, reg, a) && IsPivot(p, reg, b) && a != b ==> Guarded(p, a, b)
  }

  predicate AllConfirmed(p: Proposal, reg: Registry) {
    forall c, v :: c in p.graph && v in p.graph[c].parents && v in p.graph ==> EdgeConfirmed(p, reg, v, c)
  }

  predicate AllRouted(p: Proposal) {
    forall c, v :: c in p.graph && v in p.graph[c].parents && v in p.graph ==> RouterBetween(p, v, c)
  }

  ghost predicate NoReadsAfterPivot(p: Proposal, reg: Registry) {
    forall v, d, x :: ReadsOnly(p, reg, v, d) && Anc(p.graph, v, d) ==> !Anc(p.graph, d, x)
  }

  ghost predicate AllSeparated(p: Proposal, reg: Registry) {
    forall a, b :: Collide(p, reg, a, b) && a != b ==> WritersFit(p, reg, a, b)
  }

  /** Every rule but R14. */
  ghost predicate OtherRules(p: Proposal, reg: Registry, existing: seq<Snapshot>) {
    && (forall id :: id in p.graph ==> EffectScoped(p, reg, id))
    && (forall i :: 0 <= i < |p.scopes| ==> ScopeFits(p, reg, p.scopes[i].id))
    && AllPlaced(p, reg, existing)
    && AllGuarded(p, reg)
    && AllConfirmed(p, reg)
    && (forall id :: id in p.graph ==> Unscoped(p, id))
    && NoReadsAfterPivot(p, reg)
    && AllSeparated(p, reg)
  }

  /** What the checker refuses to judge: a tool name on a non-tool, an unknown tool or parent, a cycle. */
  ghost predicate WellFormed(p: Proposal, reg: Registry) {
    && (forall id :: id in p.graph && p.graph[id].tool.Some? ==>
      p.graph[id].kind == ToolKind && p.graph[id].tool.value in reg)
    && Known(p.graph) && Acyclic(p.graph)
  }
}
