/**
 Compilation of an admitted workflow into the `vertex/created` events that persist it: a
 topological order by depth-first placement, then one draft per vertex under fresh ids.
 */
module Compile {
  import opened EventLog
  import opened Proposals
  import opened Normalize
  import opened RunProtocol
  import CheckRules
  import FiniteSets
  import CausalGraph

  /* ---------------------------------------------------------------- topological order */

  /** No repeats, and every parent placed before its child. */
  ghost predicate Placed(g: Graph, order: seq<Name>) {
    && (forall i, j :: 0 <= i < j < |order| ==> order[i] != order[j])
    && (forall i :: 0 <= i < |order| ==> order[i] in g && forall p :: p in g[order[i]].parents ==> p in order[..i])
  }

  method Visit(g: Graph, id: Name, visiting: set<Name>, order: seq<Name>) returns (cyclic: bool, out: seq<Name>)
    requires Known(g) && id in g && visiting <= g.Keys && Placed(g, order)
      && (forall x :: x in visiting ==> x !in order && Anc(g, id, x))
    ensures cyclic ==> !Acyclic(g)
    ensures !cyclic ==> Placed(g, out) && order <= out && id in out && forall x :: x in visiting ==> x !in out
    decreases |g.Keys - visiting|
  {
    hide Anc, Acyclic;
    out := order;
    if id in order { return false, out; }
    if id in visiting {
      CheckRules.CycleAt(g, id);
      return true, out;
    }
    var next := visiting + {id};
    assert g.Keys - next < g.Keys - visiting;
    FiniteSets.SmallerSet(g.Keys - next, g.Keys - visiting);
    var parents := g[id].parents;
    for i := 0 to |parents|
      invariant Placed(g, out) && order <= out && (forall x :: x in next ==> x !in out)
      invariant forall k :: 0 <= k < i ==> parents[k] in out
    {
      assert parents[i] in parents;
      CheckRules.ReachesUp(g, parents[i], id, next);
      ghost var before := out;
      cyclic, out := Visit(g, parents[i], next, out);
      if cyclic { return; }
      assert forall x :: x in before ==> x in out;
    }
    PlaceLast(g, out, id);
    out := out + [id];
    cyclic := false;
  }

  lemma PlaceLast(g: Graph, order: seq<Name>, id: Name)
    requires Placed(g, order) && id in g && id !in order && forall p :: p in g[id].parents ==> p in order
    ensures Placed(g, order + [id])
  {
    var out := order + [id];
    forall i | 0 <= i < |out| ensures forall p :: p in g[out[i]].parents ==> p in out[..i] {
      if i < |order| { assert out[..i] == order[..i]; } else { assert out[..i] == order; }
    }
  }

  /** A placed order admits no cycle: going up always goes to an earlier position. */
  lemma {:induction false} PlacedGoesUp(g: Graph, order: seq<Name>, a: Name, j: nat, n: nat)
    requires Placed(g, order) && j < |order| && n >= 1 && Up(g, a, order[j], n)
    ensures exists i :: 0 <= i < j && order[i] == a
    decreases n
  {
    var p :| p in g[order[j]].parents && Up(g, a, p, n - 1);
    var k := ParentEarlier(g, order, j, p);
    hide Placed;
    if n > 1 {
      PlacedGoesUp(g, order, a, k, n - 1);
    }
  }

  lemma ParentEarlier(g: Graph, order: seq<Name>, j: nat, p: Name) returns (k: nat)
    requires Placed(g, order) && j < |order| && order[j] in g && p in g[order[j]].parents
    ensures k < j && order[k] == p
  {
    k :| 0 <= k < j && order[..j][k] == p;
  }

  /** It fails exactly on a cycle; otherwise it lists every vertex once, parents first. */
  method TopologicalOrder(g: Graph, ids: seq<Name>) returns (cyclic: bool, order: seq<Name>)
    requires Known(g) && forall x :: x in ids <==> x in g
    ensures cyclic <==> !Acyclic(g)
    ensures !cyclic ==> Placed(g, order) && forall x :: x in order <==> x in g
  {
    order := [];
    for i := 0 to |ids|
      invariant Placed(g, order) && forall k :: 0 <= k < i ==> ids[k] in order
    {
      assert ids[i] in ids;
      ghost var before := order;
      cyclic, order := Visit(g, ids[i], {}, order);
      if cyclic { return; }
      assert forall x :: x in before ==> x in order;
    }
    cyclic := false;
    forall x ensures !Anc(g, x, x) {
      if Anc(g, x, x) {
        AncIsKnown(g, x, x);
        var n: nat :| n >= 1 && Up(g, x, x, n);
        var j :| 0 <= j < |order| && order[j] == x;
        PlacedGoesUp(g, order, x, j, n);
      }
    }
  }

  /* ---------------------------------------------------------------- drafts */

  /** The last position of a name in a list; its length when absent. A name given twice keeps the id given last. */
  function Index(names: seq<Name>, name: Name): (i: nat)
    ensures i <= |names| && (i < |names| ==> names[i] == name) && (i < |names| <==> name in names)
    ensures forall k :: i < k < |names| ==> names[k] != name
  {
    if names == [] then 0
    else
      var n := |names| - 1;
      if names[n] == name then n
      else
        assert names == names[..n] + [names[n]];
        var i := Index(names[..n], name);
        if i == n then |names| else i
  }

  /** Fresh ids are handed out first to the vertices in submission order, then to the scopes. */
  datatype Ids = Ids(vertices: seq<Name>, scopes: seq<Name>, issued: seq<Id>)

  ghost predicate IdsOk(ids: Ids) {
    && |ids.issued| == |ids.vertices| + |ids.scopes|
    && (forall i, j :: 0 <= i < j < |ids.issued| ==> ids.issued[i] != ids.issued[j])
  }

  function VertexId(ids: Ids, name: Name): (r: Id)
    requires |ids.issued| == |ids.vertices| + |ids.scopes| && name in ids.vertices
  {
    ids.issued[Index(ids.vertices, name)]
  }

  function ScopeId(ids: Ids, name: Name): (r: Id)
    requires |ids.issued| == |ids.vertices| + |ids.scopes| && name in ids.scopes
  {
    ids.issued[|ids.vertices| + Index(ids.scopes, name)]
  }

  function RoleOf(k: Kind): (r: Role) {
    match k
    case PlannerKind => Planner
    case ToolKind => Role.Tool
    case RouterKind => Router
    case BarrierKind => Barrier
  }

  function ParentIds(ids: Ids, parents: seq<Name>): (r: seq<Id>)
    requires |ids.issued| == |ids.vertices| + |ids.scopes| && forall p :: p in parents ==> p in ids.vertices
    ensures |r| == |parents| && forall i :: 0 <= i < |r| ==> r[i] == VertexId(ids, parents[i])
  {
    if parents == [] then []
    else
      assert forall p :: p in parents[..|parents| - 1] ==> p in parents;
      assert parents[|parents| - 1] in parents;
      ParentIds(ids, parents[..|parents| - 1]) + [VertexId(ids, parents[|parents| - 1])]
  }

  /** One vertex's event: a root takes the attach point, anything else its own parents. */
  function Draft(g: Graph, ids: Ids, attachTo: seq<Id>, name: Name): (b: Body)
    requires |ids.issued| == |ids.vertices| + |ids.scopes| && name in g && name in ids.vertices
    requires (forall p :: p in g[name].parents ==> p in ids.vertices)
      && (g[name].scope.Some? ==> g[name].scope.value in ids.scopes)
  {
    var v := g[name];
    Created(VertexId(ids, name), if v.parents == [] then attachTo else ParentIds(ids, v.parents),
            if v.scope.Some? then Some(ScopeId(ids, v.scope.value)) else None, RoleOf(v.kind))
  }

  ghost predicate Ready(g: Graph, ids: Ids) {
    IdsOk(ids) && Known(g) && forall x :: x in ids.vertices <==> x in g
  }

  ghost predicate ScopesDeclared(g: Graph, ids: Ids) {
    forall x :: x in g && g[x].scope.Some? ==> g[x].scope.value in ids.scopes
  }

  datatype Compiled = Cyclic | Undeclared(vertex: Name) | Drafts(order: seq<Name>, drafts: seq<Body>)

  lemma SameLength(ids: Ids)
    requires IdsOk(ids)
    ensures |ids.issued| == |ids.vertices| + |ids.scopes|
  {
  }

  method CompileVertexDrafts(g: Graph, ids: Ids, attachTo: seq<Id>) returns (r: Compiled)
    requires Ready(g, ids)
    ensures r.Cyclic? <==> !Acyclic(g)
    ensures r.Undeclared? <==> Acyclic(g) && !ScopesDeclared(g, ids)
    ensures r.Drafts? ==> IsCopy(g, ids, attachTo, r.order, r.drafts)
  {
    hide Draft, Placed, Acyclic, IdsOk;
    assert |ids.issued| == |ids.vertices| + |ids.scopes| by { SameLength(ids); }
    var cyclic, order := TopologicalOrder(g, ids.vertices);
    if cyclic { return Cyclic; }
    var drafts: seq<Body> := [];
    for k := 0 to |order|
      invariant |drafts| == k && forall i :: 0 <= i < k ==>
        order[i] in g && (g[order[i]].scope.Some? ==> g[order[i]].scope.value in ids.scopes)
      invariant forall i :: 0 <= i < k ==> drafts[i] == Draft(g, ids, attachTo, order[i])
    {
      assert order[k] in order;
      var v := g[order[k]];
      if v.scope.Some? && v.scope.value !in ids.scopes { return Undeclared(order[k]); }
      drafts := drafts + [Draft(g, ids, attachTo, order[k])];
    }
    forall x | x in g && g[x].scope.Some? ensures g[x].scope.value in ids.scopes {
      assert x in order;
      var i :| 0 <= i < |order| && order[i] == x;
    }
    return Drafts(order, drafts);
  }

  /* ---------------------------------------------------------------- an isomorphic copy */

  lemma IdsAreInjective(ids: Ids, a: Name, b: Name)
    requires IdsOk(ids)
    ensures a in ids.vertices && b in ids.vertices && VertexId(ids, a) == VertexId(ids, b) ==> a == b
    ensures a in ids.scopes && b in ids.scopes && ScopeId(ids, a) == ScopeId(ids, b) ==> a == b
    ensures a in ids.vertices && b in ids.scopes ==> VertexId(ids, a) != ScopeId(ids, b)
  {
  }

  ghost predicate IsCopy(g: Graph, ids: Ids, attachTo: seq<Id>, order: seq<Name>, drafts: seq<Body>) {
    && Ready(g, ids) && ScopesDeclared(g, ids) && Placed(g, order) && (forall x :: x in order <==> x in g)
    && |drafts| == |order| && forall k :: 0 <= k < |order| ==>
      order[k] in g && drafts[k] == Draft(g, ids, attachTo, order[k])
  }

  /** A batch under ids the run has not used is one the freeze may append. */
  lemma DraftsAreFreshWork(g: Graph, ids: Ids, attachTo: seq<Id>, order: seq<Name>, drafts: seq<Body>, log: Log)
    requires IsCopy(g, ids, attachTo, order, drafts)
    requires forall i :: 0 <= i < |ids.issued| ==> !IsCreated(log, ids.issued[i])
    ensures FreshWork(log, drafts)
  {
    forall i, j | 0 <= i < j < |drafts| ensures drafts[i].vertex != drafts[j].vertex {
      IdsAreInjective(ids, order[i], order[j]);
    }
  }

  /** The log has a vertex in the role its kind asks for, and in no other. */
  ghost predicate RoleKept(log: Log, v: Id, k: Kind) {
    && (HasRole(log, v, Planner) <==> k == PlannerKind)
    && (HasRole(log, v, Role.Tool) <==> k == ToolKind)
    && (HasRole(log, v, Router) <==> k == RouterKind)
    && (HasRole(log, v, Barrier) <==> k == BarrierKind)
    && (IsPlanner(log, v) <==> k == PlannerKind)
  }

  /** The scope the log gives a vertex. */
  function LoggedScope(log: Log, v: Id): (s: Option<Id>) {
    if CreatedOf(log, v).Some? then CreatedOf(log, v).value.scope else None
  }

  /**
   In the log the batch is a copy of the submission: its causal edges are the submitted edges and no
   others, its roots hang from exactly the attach point, roles are kept, and two vertices share a
   scope exactly when they were submitted in one.
   */
  lemma CopyIsIsomorphic(g: Graph, ids: Ids, attachTo: seq<Id>, order: seq<Name>, drafts: seq<Body>, log: Log,
      next: Log, proposedSeq: nat)
    requires IsCopy(g, ids, attachTo, order, drafts)
    requires forall i :: 0 <= i < |ids.issued| ==> !IsCreated(log, ids.issued[i])
    requires Appended(log, next, [Frozen(proposedSeq)] + drafts)
    ensures forall a, b :: a in g && b in g && g[b].parents != [] ==>
      (CausalGraph.Edge(next, VertexId(ids, a), VertexId(ids, b)) <==> a in g[b].parents)
    ensures forall b, x :: b in g && g[b].parents != [] && CausalGraph.Edge(next, x, VertexId(ids, b)) ==> exists a ::
      a in g && x == VertexId(ids, a)
    ensures forall b, x :: b in g && g[b].parents == [] ==>
      (CausalGraph.Edge(next, x, VertexId(ids, b)) <==> x in attachTo)
    ensures forall b :: b in g ==> RoleKept(next, VertexId(ids, b), g[b].kind)
    ensures forall a, b :: a in g && b in g ==>
      (LoggedScope(next, VertexId(ids, a)) == LoggedScope(next, VertexId(ids, b)) <==> g[a].scope == g[b].scope)
  {
    SameLength(ids);
    hide Draft, CausalGraph.Edge, Placed, Appended, IsCreated, CreatedOf, VertexId, IdsOk, RoleKept;
    forall b | b in g ensures CreatedOf(next, VertexId(ids, b)) == Some(Draft(g, ids, attachTo, b))
      && Draft(g, ids, attachTo, b).Created?
      && RoleKept(next, VertexId(ids, b), g[b].kind)
    {
      CopiedAs(g, ids, attachTo, order, drafts, log, next, proposedSeq, b);
    }
    forall b, x | b in g ensures CausalGraph.Edge(next, x, VertexId(ids, b))
      <==> x in Draft(g, ids, attachTo, b).parents {
      CopiedEdge(g, ids, attachTo, order, drafts, log, next, proposedSeq, b, x);
    }
    forall a, b | a in g && b in g && g[b].parents != []
      ensures VertexId(ids, a) in Draft(g, ids, attachTo, b).parents <==> a in g[b].parents {
      DraftParents(g, ids, attachTo, a, b);
    }
    forall b, x | b in g && g[b].parents != [] && x in Draft(g, ids, attachTo, b).parents
      ensures exists a :: a in g && x == VertexId(ids, a) {
      DraftParent(g, ids, attachTo, b, x);
    }
    forall b, x | b in g && g[b].parents == [] ensures x in Draft(g, ids, attachTo, b).parents <==> x in attachTo {
      DraftRoot(g, ids, attachTo, b);
    }
    forall a, b | a in g && b in g
      ensures Draft(g, ids, attachTo, a).scope == Draft(g, ids, attachTo, b).scope <==> g[a].scope == g[b].scope {
      DraftScopes(g, ids, attachTo, a, b);
    }
  }

  lemma {:induction false} CopiedAs(g: Graph, ids: Ids, attachTo: seq<Id>, order: seq<Name>, drafts: seq<Body>,
      log: Log, next: Log, proposedSeq: nat, b: Name)
    requires IsCopy(g, ids, attachTo, order, drafts) && b in g
    requires forall i :: 0 <= i < |ids.issued| ==> !IsCreated(log, ids.issued[i])
    requires Appended(log, next, [Frozen(proposedSeq)] + drafts)
    ensures CreatedOf(next, VertexId(ids, b)) == Some(Draft(g, ids, attachTo, b))
    ensures Draft(g, ids, attachTo, b).Created? && RoleKept(next, VertexId(ids, b), g[b].kind)
  {
    DraftedOnce(g, ids, attachTo, order, drafts, log, next, proposedSeq, b);
    DraftIs(g, ids, attachTo, b);
    hide Appended, IsCreated, Placed, OnlyCreatedAs, HasRole, Draft, VertexId, RoleKept, CreatedOf, RoleOf;
    var d := Draft(g, ids, attachTo, b);
    CreatedAsIs(next, d);
    RoleRead(next, d, g[b].kind);
  }

  /** A vertex created once, in the role of its kind, has that role alone. */
  lemma {:induction false} RoleRead(log: Log, b: Body, k: Kind)
    requires b.Created? && b.role == RoleOf(k) && CreatedOf(log, b.vertex) == Some(b)
    requires forall role :: HasRole(log, b.vertex, role) <==> b.role == role
    ensures RoleKept(log, b.vertex, k)
  {
    hide HasRole, CreatedOf;
  }

  lemma CopiedEdge(g: Graph, ids: Ids, attachTo: seq<Id>, order: seq<Name>, drafts: seq<Body>, log: Log, next: Log,
      proposedSeq: nat, b: Name, x: Id)
    requires IsCopy(g, ids, attachTo, order, drafts) && b in g
    requires forall i :: 0 <= i < |ids.issued| ==> !IsCreated(log, ids.issued[i])
    requires Appended(log, next, [Frozen(proposedSeq)] + drafts)
    ensures Draft(g, ids, attachTo, b).Created?
    ensures CausalGraph.Edge(next, x, VertexId(ids, b)) <==> x in Draft(g, ids, attachTo, b).parents
  {
    DraftedOnce(g, ids, attachTo, order, drafts, log, next, proposedSeq, b);
    hide Appended, IsCreated, Placed, OnlyCreatedAs;
    EdgeIs(next, Draft(g, ids, attachTo, b), x);
  }

  lemma DraftParents(g: Graph, ids: Ids, attachTo: seq<Id>, a: Name, b: Name)
    requires Ready(g, ids) && ScopesDeclared(g, ids) && a in g && b in g && g[b].parents != []
    ensures Draft(g, ids, attachTo, b).Created?
    ensures VertexId(ids, a) in Draft(g, ids, attachTo, b).parents <==> a in g[b].parents
  {
    ParentIdsIff(ids, g[b].parents, a);
    hide ParentIds;
  }

  lemma DraftParent(g: Graph, ids: Ids, attachTo: seq<Id>, b: Name, x: Id)
    requires Ready(g, ids) && ScopesDeclared(g, ids) && b in g && g[b].parents != []
    requires Draft(g, ids, attachTo, b).Created? && x in Draft(g, ids, attachTo, b).parents
    ensures exists a :: a in g && x == VertexId(ids, a)
  {
    hide ParentIds, VertexId;
    var ps := ParentIds(ids, g[b].parents);
    var i :| 0 <= i < |ps| && ps[i] == x;
    assert g[b].parents[i] in g && x == VertexId(ids, g[b].parents[i]);
  }

  lemma DraftRoot(g: Graph, ids: Ids, attachTo: seq<Id>, b: Name)
    requires Ready(g, ids) && ScopesDeclared(g, ids) && b in g && g[b].parents == []
    ensures Draft(g, ids, attachTo, b).Created? && Draft(g, ids, attachTo, b).parents == attachTo
  {
  }

  lemma DraftScopes(g: Graph, ids: Ids, attachTo: seq<Id>, a: Name, b: Name)
    requires Ready(g, ids) && ScopesDeclared(g, ids) && a in g && b in g
    ensures Draft(g, ids, attachTo, a).Created? && Draft(g, ids, attachTo, b).Created?
    ensures Draft(g, ids, attachTo, a).scope == Draft(g, ids, attachTo, b).scope <==> g[a].scope == g[b].scope
  {
    if g[a].scope.Some? && g[b].scope.Some? { IdsAreInjective(ids, g[a].scope.value, g[b].scope.value); }
  }

  lemma {:induction false} CreatedAsIs(log: Log, b: Body)
    requires OnlyCreatedAs(log, b)
    ensures CreatedOf(log, b.vertex) == Some(b)
    ensures forall role :: HasRole(log, b.vertex, role) <==> b.role == role
  {
    CreatedOfSome(log, b.vertex);
    var i :| 0 <= i < |log| && log[i].body == b;
    assert IsCreated(log, b.vertex);
    var j :| 0 <= j < |log| && log[j].body == CreatedOf(log, b.vertex).value;
  }

  lemma {:induction false} ParentIdsIff(ids: Ids, parents: seq<Name>, a: Name)
    requires IdsOk(ids) && a in ids.vertices && forall p :: p in parents ==> p in ids.vertices
    ensures VertexId(ids, a) in ParentIds(ids, parents) <==> a in parents
  {
    var ps := ParentIds(ids, parents);
    hide ParentIds;
    if VertexId(ids, a) in ps {
      var i :| 0 <= i < |ps| && ps[i] == VertexId(ids, a);
      assert parents[i] in parents;
      IdsAreInjective(ids, a, parents[i]);
    }
    if a in parents {
      var i :| 0 <= i < |parents| && parents[i] == a;
      assert ps[i] == VertexId(ids, a);
    }
  }

  lemma DraftedOnce(g: Graph, ids: Ids, attachTo: seq<Id>, order: seq<Name>, drafts: seq<Body>, log: Log, next: Log,
      proposedSeq: nat, b: Name)
    requires IsCopy(g, ids, attachTo, order, drafts) && b in g
    requires forall i :: 0 <= i < |ids.issued| ==> !IsCreated(log, ids.issued[i])
    requires Appended(log, next, [Frozen(proposedSeq)] + drafts)
    ensures OnlyCreatedAs(next, Draft(g, ids, attachTo, b)) && IsCreated(next, VertexId(ids, b))
  {
    hide Placed, Draft, Numbered, IsCreated;
    assert b in order;
    var k :| 0 <= k < |order| && order[k] == b;
    var bodies := [Frozen(proposedSeq)] + drafts;
    assert next[|log| + 1 + k].body == bodies[1 + k];
    assert next[|log| + 1 + k].body == drafts[k];
    forall i | 0 <= i < |next| && next[i].body.Created? && next[i].body.vertex == VertexId(ids, b)
      ensures next[i].body == drafts[k] {
      OnlyThis(g, ids, attachTo, order, drafts, log, next, proposedSeq, k, i);
    }
    DraftIs(g, ids, attachTo, b);
    CreatedHere(next, |log| + 1 + k, VertexId(ids, b));
  }

  lemma CreatedHere(log: Log, i: nat, v: Id)
    requires i < |log| && log[i].body.Created? && log[i].body.vertex == v
    ensures IsCreated(log, v)
  {
  }

  lemma DraftIs(g: Graph, ids: Ids, attachTo: seq<Id>, name: Name)
    requires Ready(g, ids) && name in g && (g[name].scope.Some? ==> g[name].scope.value in ids.scopes)
    ensures Draft(g, ids, attachTo, name).Created? && Draft(g, ids, attachTo, name).vertex == VertexId(ids, name)
    ensures Draft(g, ids, attachTo, name).role == RoleOf(g[name].kind)
  {
  }

  /** The log creates this vertex, and only so. */
  ghost predicate OnlyCreatedAs(log: Log, b: Body) {
    && b.Created? && (exists i :: 0 <= i < |log| && log[i].body == b)
    && forall i :: 0 <= i < |log| && log[i].body.Created? && log[i].body.vertex == b.vertex ==> log[i].body == b
  }

  lemma EdgeIs(log: Log, b: Body, a: Id)
    requires OnlyCreatedAs(log, b)
    ensures CausalGraph.Edge(log, a, b.vertex) <==> a in b.parents
  {
  }

  lemma OnlyThis(g: Graph, ids: Ids, attachTo: seq<Id>, order: seq<Name>, drafts: seq<Body>, log: Log, next: Log,
      proposedSeq: nat, k: nat, i: nat)
    requires IsCopy(g, ids, attachTo, order, drafts) && k < |order|
    requires forall j :: 0 <= j < |ids.issued| ==> !IsCreated(log, ids.issued[j])
    requires Appended(log, next, [Frozen(proposedSeq)] + drafts)
    requires i < |next| && next[i].body.Created? && next[i].body.vertex == VertexId(ids, order[k])
    ensures next[i].body == drafts[k]
  {
    hide Draft, Placed, Numbered, IsCreated, Index;
    var v := VertexId(ids, order[k]);
    assert order[k] in order;
    NotYetThere(log, next, [Frozen(proposedSeq)] + drafts, v, i);
    var j := i - |log| - 1;
    assert next[i].body == drafts[j];
    assert order[j] in order;
    DraftIs(g, ids, attachTo, order[j]);
    IdsAreInjective(ids, order[j], order[k]);
    assert j == k by { PlacedOnce(g, order, j, k); }
  }

  /** A vertex the log had not created is created by what was appended. */
  lemma NotYetThere(log: Log, next: Log, bodies: seq<Body>, v: Id, i: nat)
    requires Appended(log, next, bodies) && !IsCreated(log, v) && bodies != [] && !bodies[0].Created?
    requires i < |next| && next[i].body.Created? && next[i].body.vertex == v
    ensures |log| < i && next[i].body == bodies[i - |log|]
  {
    hide Numbered;
    assert forall j :: 0 <= j < |log| ==> log[j] == next[j];
  }

  lemma PlacedOnce(g: Graph, order: seq<Name>, j: nat, k: nat)
    requires Placed(g, order) && j < |order| && k < |order| && order[j] == order[k]
    ensures j == k
  {
  }
}
