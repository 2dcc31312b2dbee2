/**
 Normalisation puts a router in front of every planner that has parents, and changes nothing
 the rules can see except R14.
 */
module Normalize {
  import opened EventLog
  import opened Proposals

  const Suffix: string := "#router"

  function RouterOf(id: Name): (r: Name) { id + Suffix }

  /** Whose router this id names. */
  function OwnerOf(r: Name): (id: Name) { if |r| >= |Suffix| then r[..|r| - |Suffix|] else r }

  lemma OwnerInverts(id: Name)
    ensures OwnerOf(RouterOf(id)) == id
  {
  }

  datatype Entry = Entry(id: Name, vertex: Vertex)

  type Workflow = seq<Entry>

  ghost predicate Distinct(ws: Workflow) { forall i, j :: 0 <= i < j < |ws| ==> ws[i].id != ws[j].id }

  function ById(ws: Workflow): (g: Graph) {
    if ws == [] then map[] else ById(ws[..|ws| - 1])[ws[|ws| - 1].id := ws[|ws| - 1].vertex]
  }

  lemma {:induction false} ByIdAt(ws: Workflow, i: nat)
    requires Distinct(ws) && i < |ws|
    ensures ws[i].id in ById(ws) && ById(ws)[ws[i].id] == ws[i].vertex
  {
    var n := |ws| - 1;
    if i < n { ByIdAt(ws[..n], i); }
  }

  lemma {:induction false} ByIdKeys(ws: Workflow)
    ensures forall id :: id in ById(ws) <==> exists i :: 0 <= i < |ws| && ws[i].id == id
  {
    if ws != [] {
      var n := |ws| - 1;
      ByIdKeys(ws[..n]);
      forall id ensures id in ById(ws) <==> exists i :: 0 <= i < |ws| && ws[i].id == id {
        if id in ById(ws[..n]) {
          var i :| 0 <= i < n && ws[..n][i].id == id;
          assert ws[i].id == id;
        }
        if i :| 0 <= i < |ws| && ws[i].id == id {
          if i < n { assert ws[..n][i].id == id; }
        }
      }
    }
  }

  /* ---------------------------------------------------------------- on graphs */

  /** Behind exactly one router already, or a root. */
  predicate Canonical(g: Graph, parents: seq<Name>) {
    parents == [] || (|parents| == 1 && parents[0] in g && g[parents[0]].kind == RouterKind)
  }

  predicate Needs(g: Graph, v: Vertex) { v.kind == PlannerKind && !Canonical(g, v.parents) }

  function Routers(g: Graph): (r: set<Name>) { set id | id in g && Needs(g, g[id]) :: RouterOf(id) }

  function RouterFor(v: Vertex): (r: Vertex) { Vertex(v.parents, RouterKind, None, None, false) }

  function Behind(id: Name, v: Vertex): (r: Vertex) { v.(parents := [RouterOf(id)]) }

  ghost function NormalGraph(g: Graph): (r: Graph) {
    map id | id in g.Keys + Routers(g) ::
      if id in g then (if Needs(g, g[id]) then Behind(id, g[id]) else g[id])
      else if OwnerOf(id) in g then RouterFor(g[OwnerOf(id)]) else Vertex([], RouterKind, None, None, false)
  }

  /** Nothing submitted already has the name of a router to be added. */
  ghost predicate Fits(g: Graph) { Known(g) && Routers(g) !! g.Keys }

  lemma RouterIs(g: Graph, id: Name)
    requires Fits(g) && id in g && Needs(g, g[id])
    ensures RouterOf(id) !in g && RouterOf(id) in NormalGraph(g) && NormalGraph(g)[RouterOf(id)] == RouterFor(g[id])
    ensures NormalGraph(g)[id] == Behind(id, g[id])
  {
    OwnerInverts(id);
    assert RouterOf(id) in Routers(g);
  }

  lemma RouterFrom(g: Graph, r: Name) returns (id: Name)
    requires Fits(g) && r in NormalGraph(g) && r !in g
    ensures id in g && Needs(g, g[id]) && r == RouterOf(id) && NormalGraph(g)[r] == RouterFor(g[id])
  {
    id :| id in g && Needs(g, g[id]) && RouterOf(id) == r;
    RouterIs(g, id);
  }

  lemma NormalKnown(g: Graph)
    requires Fits(g)
    ensures Known(NormalGraph(g))
  {
    var h := NormalGraph(g);
    forall id, p | id in h && p in h[id].parents ensures p in h {
      if id in g {
        if Needs(g, g[id]) { RouterIs(g, id); }
      } else {
        var o := RouterFrom(g, id);
      }
    }
  }

  /** Every path survives: where a router was put in, it is one step longer. */
  lemma {:induction false} Lifts(g: Graph, a: Name, b: Name, n: nat)
    requires Fits(g) && n >= 1 && Up(g, a, b, n)
    ensures Anc(NormalGraph(g), a, b)
    decreases n
  {
    var h := NormalGraph(g);
    var p :| p in g[b].parents && Up(g, a, p, n - 1);
    if n > 1 { Lifts(g, a, p, n - 1); }
    if Needs(g, g[b]) {
      RouterIs(g, b);
      AncStep(h, a, RouterOf(b));
    }
    AncStep(h, a, b);
  }

  /** And no path is new. */
  lemma {:induction false} Lowers(g: Graph, a: Name, b: Name, n: nat)
    requires Fits(g) && a in g && b in g && n >= 1 && Up(NormalGraph(g), a, b, n)
    ensures Anc(g, a, b)
    decreases n
  {
    var h := NormalGraph(g);
    var p :| p in h[b].parents && Up(h, a, p, n - 1);
    if Needs(g, g[b]) {
      RouterIs(g, b);
      var q :| q in h[p].parents && Up(h, a, q, n - 2);
      if n > 2 { Lowers(g, a, q, n - 2); }
    } else if n > 1 {
      Lowers(g, a, p, n - 1);
    }
    AncStep(g, a, b);
  }

  /** Reachability among submitted vertices is unchanged. */
  lemma SameReach(g: Graph, a: Name, b: Name)
    requires Fits(g) && a in g && b in g
    ensures Anc(NormalGraph(g), a, b) <==> Anc(g, a, b)
  {
    if Anc(NormalGraph(g), a, b) {
      var n: nat :| n >= 1 && Up(NormalGraph(g), a, b, n);
      Lowers(g, a, b, n);
    }
    if Anc(g, a, b) {
      var n: nat :| n >= 1 && Up(g, a, b, n);
      Lifts(g, a, b, n);
    }
  }

  /** Above a router is what was above its planner; below it, the planner and what is below that. */
  lemma AboveRouter(g: Graph, a: Name, id: Name)
    requires Fits(g) && a in g && id in g && Needs(g, g[id])
    ensures Anc(NormalGraph(g), a, RouterOf(id)) <==> Anc(g, a, id)
  {
    var h := NormalGraph(g);
    RouterIs(g, id);
    AncStep(h, a, id);
    assert h[id].parents == [RouterOf(id)];
    SameReach(g, a, id);
  }

  lemma BelowRouter(g: Graph, id: Name, b: Name)
    requires Fits(g) && id in g && b in g && Needs(g, g[id])
    ensures Anc(NormalGraph(g), RouterOf(id), b) ==> b == id || Anc(g, id, b)
  {
    var h := NormalGraph(g);
    if Anc(h, RouterOf(id), b) {
      var n: nat :| n >= 1 && Up(h, RouterOf(id), b, n);
      BelowRouterPath(g, id, b, n);
    }
  }

  lemma {:induction false} BelowRouterPath(g: Graph, id: Name, b: Name, n: nat)
    requires Fits(g) && id in g && b in g && Needs(g, g[id]) && n >= 1 && Up(NormalGraph(g), RouterOf(id), b, n)
    ensures b == id || Anc(g, id, b)
    decreases n
  {
    hide Needs, Anc, Fits, RouterOf, NormalGraph;
    var h := NormalGraph(g);
    RouterIs(g, id);
    ParentsAre(g, b);
    var p :| p in h[b].parents && Up(h, RouterOf(id), p, n - 1);
    if Needs(g, g[b]) {
      RouterIs(g, b);
      if n == 1 {
        OwnerInverts(b);
        OwnerInverts(id);
      } else {
        var q :| q in h[p].parents && Up(h, RouterOf(id), q, n - 2);
        BelowRouterPath(g, id, q, n - 2);
        AncStep(g, id, b);
      }
    } else {
      BelowRouterPath(g, id, p, n - 1);
      AncStep(g, id, b);
    }
  }

  lemma ParentsAre(g: Graph, b: Name)
    requires Fits(g) && b in g
    ensures b in NormalGraph(g) && forall p :: p in g[b].parents ==> p in g
    ensures NormalGraph(g)[b].parents == if Needs(g, g[b]) then [RouterOf(b)] else g[b].parents
  {
  }

  lemma SameAcyclic(g: Graph)
    requires Fits(g)
    ensures Acyclic(NormalGraph(g)) <==> Acyclic(g)
  {
    var h := NormalGraph(g);
    NormalKnown(g);
    forall id | Anc(g, id, id) ensures Anc(h, id, id) {
      AncIsKnown(g, id, id);
      SameReach(g, id, id);
    }
    forall id | Anc(h, id, id) ensures exists v :: Anc(g, v, v) {
      AncIsKnown(h, id, id);
      if id in g {
        SameReach(g, id, id);
      } else {
        var o := RouterFrom(g, id);
        CycleThroughRouter(g, o);
      }
    }
    if Acyclic(g) { assert forall id :: !Anc(h, id, id); }
  }

  lemma CycleThroughRouter(g: Graph, id: Name)
    requires Fits(g) && id in g && Needs(g, g[id]) && Anc(NormalGraph(g), RouterOf(id), RouterOf(id))
    ensures Anc(g, id, id)
  {
    var h := NormalGraph(g);
    var r := RouterOf(id);
    RouterIs(g, id);
    AncStep(h, r, r);
    var p :| p in h[r].parents && (r == p || Anc(h, r, p));
    BelowRouter(g, id, p);
    AncStep(g, id, id);
  }

  /* ---------------------------------------------------------------- the rules see the same */

  ghost function Normal(p: Proposal): (q: Proposal) { p.(graph := NormalGraph(p.graph)) }

  ghost predicate MembersSubmitted(p: Proposal) {
    forall i, m :: 0 <= i < |p.scopes| && m in p.scopes[i].members ==> m in p.graph
  }

  lemma SameTools(p: Proposal, reg: Registry, id: Name)
    requires Fits(p.graph)
    ensures HasTool(Normal(p), reg, id) <==> HasTool(p, reg, id)
    ensures HasTool(p, reg, id) ==> ToolOf(Normal(p), reg, id) == ToolOf(p, reg, id)
    ensures id in p.graph ==>
      id in Normal(p).graph && Normal(p).graph[id] == p.graph[id].(parents := Normal(p).graph[id].parents)
    ensures id in p.graph && !Needs(p.graph, p.graph[id]) ==> Normal(p).graph[id] == p.graph[id]
  {
    if id in Normal(p).graph && id !in p.graph { var o := RouterFrom(p.graph, id); }
  }

  lemma SamePivots(p: Proposal, reg: Registry, s: Name)
    requires Fits(p.graph)
    ensures PivotsIn(Normal(p), reg, s) == PivotsIn(p, reg, s)
  {
    forall v ensures IsPivot(Normal(p), reg, v) <==> IsPivot(p, reg, v) { SameTools(p, reg, v); }
  }

  lemma SameScopeFits(p: Proposal, reg: Registry, s: Name)
    requires Fits(p.graph)
    ensures ScopeFits(Normal(p), reg, s) <==> ScopeFits(p, reg, s)
  {
    hide NormalGraph, Anc, Fits;
    var q := Normal(p);
    SamePivots(p, reg, s);
    forall v, m | v in PivotsIn(p, reg, s) ensures AroundPivot(q, reg, v, m) <==> AroundPivot(p, reg, v, m) {
      SameTools(p, reg, m);
      SameTools(p, reg, v);
      if HasTool(p, reg, m) {
        SameReach(p.graph, m, v);
        SameReach(p.graph, v, m);
      }
    }
    forall v, a | v in PivotsIn(p, reg, s)
      ensures Anc(q.graph, a, v) && MustBeInside(q, reg, v, a) <==> Anc(p.graph, a, v) && MustBeInside(p, reg, v, a)
    {
      SameTools(p, reg, a);
      SameTools(p, reg, v);
      if HasTool(p, reg, a) { SameReach(p.graph, a, v); }
    }
  }

  lemma SameBarrier(p: Proposal, b: Name)
    requires Fits(p.graph)
    ensures b in Normal(p).graph && Normal(p).graph[b].kind == BarrierKind <==>
      b in p.graph && p.graph[b].kind == BarrierKind
    ensures b in p.graph && p.graph[b].kind == BarrierKind ==> Normal(p).graph[b] == p.graph[b]
  {
    if b in Normal(p).graph && b !in p.graph { var o := RouterFrom(p.graph, b); }
  }

  lemma SameGuarded(p: Proposal, a: Name, b: Name)
    requires Fits(p.graph) && a in p.graph && b in p.graph
    ensures Guarded(Normal(p), a, b) <==> Guarded(p, a, b)
  {
    hide NormalGraph, Anc, Fits;
    SameReach(p.graph, a, b);
    SameReach(p.graph, b, a);
    forall g ensures GuardedBy(Normal(p), g, a, b) <==> GuardedBy(p, g, a, b) {
      SameBarrier(p, g);
      if g in p.graph {
        SameReach(p.graph, g, a);
        SameReach(p.graph, g, b);
      }
    }
  }

  lemma SameWriters(p: Proposal, reg: Registry, a: Name, b: Name)
    requires Fits(p.graph) && a in p.graph && b in p.graph
    ensures WritersFit(Normal(p), reg, a, b) <==> WritersFit(p, reg, a, b)
  {
    hide NormalGraph, Anc, Fits;
    SameReach(p.graph, a, b);
    SameReach(p.graph, b, a);
    forall r ensures Related(Normal(p), reg, r, a, b) <==> Related(p, reg, r, a, b) {
      SameTools(p, reg, r);
      if r in p.graph {
        SameReach(p.graph, a, r);
        SameReach(p.graph, b, r);
      }
    }
    forall g ensures Separated(Normal(p), reg, g, a, b) <==> Separated(p, reg, g, a, b) {
      SameBarrier(p, g);
      if g in p.graph {
        SameReach(p.graph, a, g);
        SameReach(p.graph, b, g);
        forall r | Related(p, reg, r, a, b) ensures Anc(Normal(p).graph, g, r) <==> Anc(p.graph, g, r) {
          SameReach(p.graph, g, r);
        }
      }
    }
  }

  lemma SameUnscoped(p: Proposal)
    requires Fits(p.graph) && MembersSubmitted(p)
    ensures (forall id :: id in Normal(p).graph ==> Unscoped(Normal(p), id))
      <==> (forall id :: id in p.graph ==> Unscoped(p, id))
  {
    var q := Normal(p);
    forall id | id in p.graph ensures Unscoped(q, id) <==> Unscoped(p, id) { SameTools(p, map[], id); }
    forall id | id in q.graph && id !in p.graph ensures Unscoped(q, id) { var o := RouterFrom(p.graph, id); }
    if forall id :: id in q.graph ==> Unscoped(q, id) {
      forall id | id in p.graph ensures Unscoped(p, id) {
        SameTools(p, map[], id);
        assert Unscoped(q, id);
      }
    }
  }

  /** R7 at the edges that moved: a router has no scope, and neither has the planner behind it. */
  lemma SameConfirmed(p: Proposal, reg: Registry)
    requires Fits(p.graph) && forall id :: id in p.graph ==> Unscoped(p, id)
    ensures AllConfirmed(Normal(p), reg) <==> AllConfirmed(p, reg)
  {
    var q := Normal(p);
    forall c, v | c in q.graph && v in q.graph[c].parents && v in q.graph && AllConfirmed(p, reg)
      ensures EdgeConfirmed(q, reg, v, c) {
      SameTools(p, reg, v);
      if c !in p.graph {
        var o := RouterFrom(p.graph, c);
      } else if Needs(p.graph, p.graph[c]) {
        RouterIs(p.graph, c);
      } else {
        SameTools(p, reg, c);
        assert EdgeConfirmed(p, reg, v, c);
      }
    }
    forall c, v | c in p.graph && v in p.graph[c].parents && v in p.graph && AllConfirmed(q, reg)
      ensures EdgeConfirmed(p, reg, v, c) {
      assert Unscoped(p, c);
      if !Needs(p.graph, p.graph[c]) {
        SameTools(p, reg, v);
        SameTools(p, reg, c);
        assert EdgeConfirmed(q, reg, v, c);
      }
    }
  }

  lemma SameReads(p: Proposal, reg: Registry)
    requires Fits(p.graph)
    ensures NoReadsAfterPivot(Normal(p), reg) <==> NoReadsAfterPivot(p, reg)
  {
    hide NormalGraph, Anc, Fits;
    var q := Normal(p);
    NormalKnown(p.graph);
    forall v, d ensures ReadsOnly(q, reg, v, d) && Anc(q.graph, v, d) <==>
      ReadsOnly(p, reg, v, d) && Anc(p.graph, v, d) {
      SameTools(p, reg, v);
      SameTools(p, reg, d);
      if HasTool(p, reg, v) && HasTool(p, reg, d) { SameReach(p.graph, v, d); }
    }
    forall v, d | ReadsOnly(p, reg, v, d)
      ensures (exists x :: Anc(q.graph, d, x)) <==> (exists x :: Anc(p.graph, d, x)) {
      SameDependants(p, d);
    }
    if NoReadsAfterPivot(p, reg) {
      forall v, d, x | ReadsOnly(q, reg, v, d) && Anc(q.graph, v, d) ensures !Anc(q.graph, d, x) {
        assert forall y :: !Anc(p.graph, d, y);
      }
    }
    if NoReadsAfterPivot(q, reg) {
      forall v, d, x | ReadsOnly(p, reg, v, d) && Anc(p.graph, v, d) ensures !Anc(p.graph, d, x) {
        assert ReadsOnly(q, reg, v, d) && Anc(q.graph, v, d);
        assert forall y :: !Anc(q.graph, d, y);
      }
    }
  }

  lemma SameDependants(p: Proposal, d: Name)
    requires Fits(p.graph) && d in p.graph
    ensures (exists x :: Anc(Normal(p).graph, d, x)) <==> (exists x :: Anc(p.graph, d, x))
  {
    var g := p.graph;
    NormalKnown(g);
    assert Normal(p).graph == NormalGraph(g);
    if x :| Anc(NormalGraph(g), d, x) {
      AncIsKnown(NormalGraph(g), d, x);
      if x in g {
        SameReach(g, d, x);
      } else {
        var o := RouterFrom(g, x);
        AboveRouter(g, d, o);
      }
    }
    if x :| Anc(g, d, x) {
      AncIsKnown(g, d, x);
      SameReach(g, d, x);
      assert Anc(Normal(p).graph, d, x);
    }
  }

  /** R14 always holds of what normalisation produces. */
  lemma NormalIsRouted(p: Proposal)
    requires Fits(p.graph)
    ensures AllRouted(Normal(p))
  {
    var q := Normal(p);
    forall c, v | c in q.graph && v in q.graph[c].parents && v in q.graph ensures RouterBetween(q, v, c) {
      if c !in p.graph {
        var o := RouterFrom(p.graph, c);
      } else if Needs(p.graph, p.graph[c]) {
        RouterIs(p.graph, c);
      } else {
        SameTools(p, map[], v);
      }
    }
  }

  /**
   Normalisation preserves the verdict: the normalised proposal satisfies every rule exactly when
   the submitted one satisfies every rule but R14 and, where a router now stands, its scopes are
   placed well among those the run already holds.
   */
  lemma NormalizationKeepsVerdict(p: Proposal, reg: Registry, existing: seq<Snapshot>)
    requires Fits(p.graph) && MembersSubmitted(p)
    ensures OtherRules(Normal(p), reg, existing) && AllRouted(Normal(p)) <==>
      OtherRules(p, reg, existing) && (Routers(p.graph) != {} ==> forall i :: 0 <= i < |p.scopes| ==>
        Placed(p, reg, existing, p.scopes[i].id))
    ensures existing == [] ==> (OtherRules(Normal(p), reg, []) && AllRouted(Normal(p)) <==> OtherRules(p, reg, []))
  {
    var q := Normal(p);
    NormalIsRouted(p);
    SameUnscoped(p);
    if forall id :: id in p.graph ==> Unscoped(p, id) { SameConfirmed(p, reg); }
    SameReads(p, reg);
    SamePlaced(p, reg, existing);
    SameEffects(p, reg);
    SamePairs(p, reg);
    forall i | 0 <= i < |p.scopes| ensures ScopeFits(q, reg, p.scopes[i].id) <==> ScopeFits(p, reg, p.scopes[i].id) {
      SameScopeFits(p, reg, p.scopes[i].id);
    }
    hide Normal, ScopeFits, AllPlaced, AllGuarded, AllConfirmed, Unscoped, NoReadsAfterPivot, AllSeparated,
      EffectScoped, AllRouted, Routers, Fits, Placed;
    assert q.scopes == p.scopes;
  }

  /** Normalisation makes no proposal well formed and spoils none. */
  lemma SameWellFormed(p: Proposal, reg: Registry)
    requires Fits(p.graph)
    ensures WellFormed(Normal(p), reg) <==> WellFormed(p, reg)
  {
    var q := Normal(p);
    SameAcyclic(p.graph);
    NormalKnown(p.graph);
    hide Acyclic, Known, NormalGraph;
    forall id | id in p.graph ensures id in q.graph && q.graph[id] == p.graph[id].(parents := q.graph[id].parents) {
      SameTools(p, reg, id);
    }
    forall id | id in q.graph && id !in p.graph ensures q.graph[id].tool.None? { var o := RouterFrom(p.graph, id); }
  }

  lemma SameEffects(p: Proposal, reg: Registry)
    requires Fits(p.graph)
    ensures (forall id :: id in Normal(p).graph ==> EffectScoped(Normal(p), reg, id))
      <==> (forall id :: id in p.graph ==> EffectScoped(p, reg, id))
    ensures Normal(p).scopes == p.scopes
  {
    var q := Normal(p);
    forall id ensures EffectScoped(q, reg, id) <==> EffectScoped(p, reg, id) { SameTools(p, reg, id); }
    forall id | id in p.graph ensures id in q.graph { SameTools(p, reg, id); }
  }

  lemma SamePairs(p: Proposal, reg: Registry)
    requires Fits(p.graph)
    ensures AllGuarded(Normal(p), reg) <==> AllGuarded(p, reg)
    ensures AllSeparated(Normal(p), reg) <==> AllSeparated(p, reg)
  {
    hide NormalGraph, Guarded, WritersFit, Fits;
    var q := Normal(p);
    forall a, b ensures Collide(q, reg, a, b) <==> Collide(p, reg, a, b) {
      SameTools(p, reg, a);
      SameTools(p, reg, b);
    }
    forall a ensures IsPivot(q, reg, a) <==> IsPivot(p, reg, a) { SameTools(p, reg, a); }
    forall a, b | a in p.graph && b in p.graph ensures Guarded(q, a, b) <==> Guarded(p, a, b) { SameGuarded(p, a, b); }
    forall a, b | a in p.graph && b in p.graph ensures WritersFit(q, reg, a, b) <==> WritersFit(p, reg, a, b) {
      SameWriters(p, reg, a, b);
    }
  }

  lemma SamePlaced(p: Proposal, reg: Registry, existing: seq<Snapshot>)
    requires Fits(p.graph)
    ensures AllPlaced(Normal(p), reg, existing) <==>
      AllPlaced(p, reg, existing) && (Routers(p.graph) != {} ==> forall i :: 0 <= i < |p.scopes| ==>
        Placed(p, reg, existing, p.scopes[i].id))
    ensures existing == [] ==> AllPlaced(p, reg, []) && forall i :: 0 <= i < |p.scopes| ==>
      Placed(p, reg, [], p.scopes[i].id)
  {
    SameRouters(p);
    forall s ensures Placed(Normal(p), reg, existing, s) <==> Placed(p, reg, existing, s) { SamePivots(p, reg, s); }
    if existing == [] {
      forall s ensures Placed(p, reg, [], s) { NothingHeld(p, reg, s); }
    }
    SameScopes(p);
    hide Normal, Placed, HasRouter, Routers, Fits;
  }

  lemma SameScopes(p: Proposal)
    ensures Normal(p).scopes == p.scopes
  {
  }

  lemma NothingHeld(p: Proposal, reg: Registry, s: Name)
    ensures Placed(p, reg, [], s)
  {
  }

  lemma SameRouters(p: Proposal)
    requires Fits(p.graph)
    ensures HasRouter(Normal(p)) <==> HasRouter(p) || Routers(p.graph) != {}
  {
    var q := Normal(p);
    if HasRouter(p) {
      var id :| id in p.graph && p.graph[id].kind == RouterKind;
      SameTools(p, map[], id);
    }
    if r :| r in Routers(p.graph) {
      var id :| id in p.graph && Needs(p.graph, p.graph[id]) && RouterOf(id) == r;
      RouterIs(p.graph, id);
    }
    if HasRouter(q) {
      var id :| id in q.graph && q.graph[id].kind == RouterKind;
      SameTools(p, map[], id);
      if id !in p.graph {
        var o := RouterFrom(p.graph, id);
        assert id in Routers(p.graph);
      }
    }
  }

  /* ---------------------------------------------------------------- the pass itself */

  function Expand(g: Graph, w: Entry): (r: Workflow) {
    if Needs(g, w.vertex) then [Entry(RouterOf(w.id), RouterFor(w.vertex)), Entry(w.id, Behind(w.id, w.vertex))]
      else [w]
  }

  function ExpandAll(g: Graph, ws: Workflow): (r: Workflow) {
    if ws == [] then [] else ExpandAll(g, ws[..|ws| - 1]) + Expand(g, ws[|ws| - 1])
  }

  function Interposed(g: Graph, ws: Workflow): (ids: seq<Name>) {
    if ws == [] then []
    else Interposed(g, ws[..|ws| - 1]) + if Needs(g, ws[|ws| - 1].vertex) then [RouterOf(ws[|ws| - 1].id)] else []
  }

  datatype Outcome = UnknownParent | RouterExists | Normalized(workflow: Workflow, interposed: seq<Name>)

  predicate ParentsKnown(g: Graph, ws: Workflow) {
    forall i, p :: 0 <= i < |ws| && p in ws[i].vertex.parents ==> p in g
  }

  predicate RoutersFree(g: Graph, ws: Workflow) {
    forall i :: 0 <= i < |ws| && Needs(g, ws[i].vertex) ==> RouterOf(ws[i].id) !in g
  }

  /** The pass over a submission: refuse an unknown parent, then refuse a taken router name, else rewrite. */
  method NormalizeWorkflow(ws: Workflow) returns (r: Outcome)
    ensures r == UnknownParent <==> !ParentsKnown(ById(ws), ws)
    ensures r == RouterExists <==> ParentsKnown(ById(ws), ws) && !RoutersFree(ById(ws), ws)
    ensures r.Normalized? ==> r.workflow == ExpandAll(ById(ws), ws) && r.interposed == Interposed(ById(ws), ws)
  {
    hide Needs, ById;
    var byId := ById(ws);
    for i := 0 to |ws|
      invariant ParentsKnown(byId, ws[..i])
    {
      var parents := ws[i].vertex.parents;
      for k := 0 to |parents|
        invariant forall p :: p in parents[..k] ==> p in byId
      {
        if parents[k] !in byId { return UnknownParent; }
      }
      assert parents[..|parents|] == parents;
    }
    assert ws[..|ws|] == ws;
    var vertices: Workflow, interposed: seq<Name> := [], [];
    for i := 0 to |ws|
      invariant RoutersFree(byId, ws[..i])
      invariant vertices == ExpandAll(byId, ws[..i])
      invariant interposed == Interposed(byId, ws[..i])
    {
      var w := ws[i];
      assert ws[..i + 1][..i] == ws[..i];
      if !Needs(byId, w.vertex) {
        vertices := vertices + [w];
      } else {
        var routerId := RouterOf(w.id);
        if routerId in byId { return RouterExists; }
        vertices := vertices + [Entry(routerId, RouterFor(w.vertex)), Entry(w.id, Behind(w.id, w.vertex))];
        interposed := interposed + [routerId];
      }
    }
    return Normalized(vertices, interposed);
  }

  /** Everything in the output came from one submitted vertex: itself, rewritten or not, or its router. */
  lemma {:induction false} ExpandedFrom(g: Graph, ws: Workflow, k: nat) returns (i: nat)
    requires k < |ExpandAll(g, ws)|
    ensures i < |ws| && ExpandAll(g, ws)[k] in Expand(g, ws[i])
  {
    var n := |ws| - 1;
    if k < |ExpandAll(g, ws[..n])| { i := ExpandedFrom(g, ws[..n], k); } else { i := n; }
  }

  lemma {:induction false} ExpandedHas(g: Graph, ws: Workflow, i: nat)
    requires i < |ws|
    ensures forall w :: w in Expand(g, ws[i]) ==> w in ExpandAll(g, ws)
  {
    var n := |ws| - 1;
    if i < n { ExpandedHas(g, ws[..n], i); }
  }

  lemma {:induction false} ExpandedDistinct(g: Graph, ws: Workflow)
    requires Distinct(ws) && RoutersFree(g, ws) && forall i :: 0 <= i < |ws| ==> ws[i].id in g
    ensures Distinct(ExpandAll(g, ws))
  {
    if ws != [] {
      var n := |ws| - 1;
      var before := ExpandAll(g, ws[..n]);
      var now := Expand(g, ws[n]);
      ExpandedDistinct(g, ws[..n]);
      assert ExpandAll(g, ws) == before + now;
      forall j, k | 0 <= j < |before| && 0 <= k < |now| ensures before[j].id != now[k].id {
        ExpandedApart(g, ws, j, k);
      }
      assert Distinct(now) by { OwnerInverts(ws[n].id); }
    }
  }

  lemma {:induction false} ExpandedApart(g: Graph, ws: Workflow, j: nat, k: nat)
    requires ws != [] && Distinct(ws) && RoutersFree(g, ws) && forall i :: 0 <= i < |ws| ==> ws[i].id in g
    requires j < |ExpandAll(g, ws[..|ws| - 1])| && k < |Expand(g, ws[|ws| - 1])|
    ensures ExpandAll(g, ws[..|ws| - 1])[j].id != Expand(g, ws[|ws| - 1])[k].id
  {
    var i := ExpandedFrom(g, ws[..|ws| - 1], j);
    OwnerInverts(ws[i].id);
    OwnerInverts(ws[|ws| - 1].id);
  }

  lemma SubmittedIs(ws: Workflow, id: Name) returns (i: nat)
    requires Distinct(ws) && id in ById(ws)
    ensures i < |ws| && ws[i].id == id && ws[i].vertex == ById(ws)[id]
  {
    ByIdKeys(ws);
    i :| 0 <= i < |ws| && ws[i].id == id;
    ByIdAt(ws, i);
  }

  lemma {:induction false} PassFits(ws: Workflow)
    requires Distinct(ws) && ParentsKnown(ById(ws), ws) && RoutersFree(ById(ws), ws)
    ensures Fits(ById(ws)) && Distinct(ExpandAll(ById(ws), ws))
  {
    var g := ById(ws);
    forall i | 0 <= i < |ws| ensures ws[i].id in g { ByIdAt(ws, i); }
    ExpandedDistinct(g, ws);
    forall id, p | id in g && p in g[id].parents ensures p in g { var i := SubmittedIs(ws, id); }
    forall id | id in g && Needs(g, g[id]) ensures RouterOf(id) !in g { var i := SubmittedIs(ws, id); }
    assert Routers(g) !! g.Keys;
  }

  lemma {:induction false} PassWithin(ws: Workflow, id: Name)
    requires Distinct(ws) && Fits(ById(ws)) && Distinct(ExpandAll(ById(ws), ws)) && id in ById(ExpandAll(ById(ws), ws))
    ensures id in NormalGraph(ById(ws)) && ById(ExpandAll(ById(ws), ws))[id] == NormalGraph(ById(ws))[id]
  {
    var g := ById(ws);
    var out := ExpandAll(g, ws);
    var k := SubmittedIs(out, id);
    var i := ExpandedFrom(g, ws, k);
    ByIdAt(ws, i);
    hide ById, ExpandAll, Distinct;
    ExpandFits(g, ws[i], out[k]);
  }

  lemma ExpandFits(g: Graph, w: Entry, x: Entry)
    requires Fits(g) && w.id in g && g[w.id] == w.vertex && x in Expand(g, w)
    ensures x.id in NormalGraph(g) && NormalGraph(g)[x.id] == x.vertex
  {
    if Needs(g, w.vertex) { RouterIs(g, w.id); }
  }

  lemma {:induction false} PassCovers(ws: Workflow, id: Name)
    requires Distinct(ws) && Fits(ById(ws)) && Distinct(ExpandAll(ById(ws), ws)) && id in NormalGraph(ById(ws))
    ensures id in ById(ExpandAll(ById(ws), ws))
  {
    var g := ById(ws);
    var out := ExpandAll(g, ws);
    var o := id;
    if id !in g { o := RouterFrom(g, id); }
    var i := SubmittedIs(ws, o);
    ExpandedHas(g, ws, i);
    var w := Entry(id, NormalGraph(g)[id]);
    if Needs(g, g[o]) { RouterIs(g, o); }
    assert w in Expand(g, ws[i]);
    var k :| 0 <= k < |out| && out[k] == w;
    ByIdAt(out, k);
  }

  /** What the pass builds is the normal graph of what was submitted. */
  lemma {:induction false} PassIsNormalGraph(ws: Workflow)
    requires Distinct(ws) && ParentsKnown(ById(ws), ws) && RoutersFree(ById(ws), ws)
    ensures Fits(ById(ws)) && Distinct(ExpandAll(ById(ws), ws))
      && ById(ExpandAll(ById(ws), ws)) == NormalGraph(ById(ws))
  {
    PassFits(ws);
    hide Fits, Distinct, ExpandAll, ById, NormalGraph;
    var g := ById(ws);
    var out := ExpandAll(g, ws);
    forall id | id in ById(out) ensures id in NormalGraph(g) && ById(out)[id] == NormalGraph(g)[id] {
      PassWithin(ws, id);
    }
    forall id | id in NormalGraph(g) ensures id in ById(out) { PassCovers(ws, id); }
  }

  /** A second pass finds nothing to do. */
  lemma {:induction false} PassIsIdempotent(ws: Workflow)
    requires Distinct(ws) && ParentsKnown(ById(ws), ws) && RoutersFree(ById(ws), ws)
    ensures var out := ExpandAll(ById(ws), ws); ExpandAll(ById(out), out) == out && Interposed(ById(out), out) == []
  {
    var g := ById(ws);
    var out := ExpandAll(g, ws);
    PassIsNormalGraph(ws);
    var h := NormalGraph(g);
    forall k | 0 <= k < |out| ensures !Needs(h, out[k].vertex) {
      ByIdAt(out, k);
      var id := out[k].id;
      if id in g {
        if Needs(g, g[id]) { RouterIs(g, id); }
      } else {
        var o := RouterFrom(g, id);
      }
    }
    NothingToDo(h, out);
  }

  ghost predicate NoneNeeds(g: Graph, ws: Workflow) { forall k :: 0 <= k < |ws| ==> !Needs(g, ws[k].vertex) }

  lemma NoneNeedsBefore(g: Graph, ws: Workflow)
    requires ws != [] && NoneNeeds(g, ws)
    ensures NoneNeeds(g, ws[..|ws| - 1]) && Expand(g, ws[|ws| - 1]) == [ws[|ws| - 1]] && !Needs(g, ws[|ws| - 1].vertex)
  {
    hide Needs;
    var before := ws[..|ws| - 1];
    forall k | 0 <= k < |before| ensures !Needs(g, before[k].vertex) { assert before[k] == ws[k]; }
  }

  lemma {:induction false} NothingToDo(g: Graph, ws: Workflow)
    requires NoneNeeds(g, ws)
    ensures ExpandAll(g, ws) == ws && Interposed(g, ws) == []
  {
    hide Needs, NoneNeeds, Expand;
    if ws != [] {
      var n := |ws| - 1;
      NoneNeedsBefore(g, ws);
      NothingToDo(g, ws[..n]);
      assert ExpandAll(g, ws) == ws[..n] + [ws[n]];
      assert Interposed(g, ws) == Interposed(g, ws[..n]) + [];
    }
  }

  /**
   The whole claim, on a submission the pass accepts and a run with no scopes yet: reachability
   among submitted vertices and acyclicity are unchanged, and the output satisfies all the rules
   exactly when the submission satisfies all but R14.
   */
  lemma {:induction false} NormalizationPreservesMeaning(ws: Workflow, scopes: seq<ScopeDecl>, reg: Registry)
    requires Distinct(ws) && ParentsKnown(ById(ws), ws) && RoutersFree(ById(ws), ws)
    requires MembersSubmitted(Proposal(ById(ws), scopes))
    ensures var g := ById(ws); var h := ById(ExpandAll(g, ws));
      && (forall a, b :: a in g && b in g ==> (Anc(h, a, b) <==> Anc(g, a, b)))
      && (Acyclic(h) <==> Acyclic(g)) && Known(h)
      && (WellFormed(Proposal(h, scopes), reg) <==> WellFormed(Proposal(g, scopes), reg))
      && (OtherRules(Proposal(h, scopes), reg, []) && AllRouted(Proposal(h, scopes))
        <==> OtherRules(Proposal(g, scopes), reg, []))
  {
    PassIsNormalGraph(ws);
    var g := ById(ws);
    hide NormalGraph, OtherRules, AllRouted, Fits, Anc, ExpandAll, ById, WellFormed;
    SameWellFormed(Proposal(g, scopes), reg);
    forall a, b | a in g && b in g ensures Anc(NormalGraph(g), a, b) <==> Anc(g, a, b) { SameReach(g, a, b); }
    SameAcyclic(g);
    NormalKnown(g);
    NormalizationKeepsVerdict(Proposal(g, scopes), reg, []);
  }
}
