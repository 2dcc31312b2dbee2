/**
 The admission checker: a memoised walk that computes every vertex's ancestors, and one pass
 per rule over what it found. Its verdict is the conjunction of the rules in `Proposals`.
 */
module CheckRules {
  import opened EventLog
  import opened Proposals
  import FiniteSets

  /* ---------------------------------------------------------------- ancestors */

  type Memo = map<Name, set<Name>>

  datatype Trouble = CycleFound | ParentUnknown

  /** Finished entries are exact, lie on no cycle, and have their parents finished too. */
  ghost predicate MemoOk(g: Graph, memo: Memo) {
    forall x :: x in memo ==> x in g && memo[x] == Ancestors(g, x) && x !in memo[x] && forall p :: p in g[x].parents ==>
      p in memo
  }

  lemma {:induction false} MemoClosed(g: Graph, memo: Memo, a: Name, x: Name, n: nat)
    requires MemoOk(g, memo) && x in memo && Up(g, a, x, n)
    ensures a in memo
    decreases n
  {
    if n > 0 {
      var p :| p in g[x].parents && Up(g, a, p, n - 1);
      MemoClosed(g, memo, a, p, n - 1);
    }
  }

  method VisitAncestors(g: Graph, id: Name, visiting: set<Name>, memo: Memo)
      returns (trouble: Option<Trouble>, out: Memo)
    requires id in g && visiting <= g.Keys && MemoOk(g, memo) && visiting !! memo.Keys
    requires forall x :: x in visiting ==> Anc(g, id, x)
    ensures trouble.None? ==> MemoOk(g, out) && id in out && memo.Keys <= out.Keys && visiting !! out.Keys
    ensures trouble == Some(CycleFound) ==> !Acyclic(g)
    ensures trouble == Some(ParentUnknown) ==> !Known(g)
    decreases |g.Keys - visiting|
  {
    hide Anc, Ancestors, Known, Acyclic, MemoOk, Reached;
    if id in memo { return None, memo; }
    if id in visiting {
      CycleAt(g, id);
      return Some(CycleFound), memo;
    }
    var next := visiting + {id};
    assert g.Keys - next < g.Keys - visiting;
    FiniteSets.SmallerSet(g.Keys - next, g.Keys - visiting);
    var parents := g[id].parents;
    var result: set<Name> := {};
    out := memo;
    NothingReached(g);
    for i := 0 to |parents|
      invariant MemoOk(g, out) && memo.Keys <= out.Keys && next !! out.Keys
      invariant forall k :: 0 <= k < i ==> parents[k] in out
      invariant result == Reached(g, parents[..i])
    {
      var parent := parents[i];
      if parent !in g {
        UnknownAt(g, id, parent);
        return Some(ParentUnknown), out;
      }
      ReachesUp(g, parent, id, next);
      trouble, out := VisitAncestors(g, parent, next, out);
      if trouble.Some? { return; }
      MemoEntry(g, out, parent);
      ReachedNext(g, parents, i);
      result := result + {parent} + out[parent];
    }
    assert parents[..|parents|] == parents;
    assert forall p :: p in parents ==> p in out;
    Finished(g, id, out, result);
    MemoAdd(g, out, id, result);
    out := out[id := result];
    trouble := None;
  }

  /** Some vertices and everything above them. */
  ghost function Reached(g: Graph, ids: seq<Name>): (r: set<Name>) {
    if ids == [] then {} else Reached(g, ids[..|ids| - 1]) + {ids[|ids| - 1]} + Ancestors(g, ids[|ids| - 1])
  }

  lemma {:induction false} NothingReached(g: Graph)
    ensures Reached(g, []) == {}
  {
  }

  lemma {:induction false} ReachedNext(g: Graph, ids: seq<Name>, i: nat)
    requires i < |ids|
    ensures Reached(g, ids[..i + 1]) == Reached(g, ids[..i]) + {ids[i]} + Ancestors(g, ids[i])
  {
    hide Ancestors;
    assert ids[..i + 1][..i] == ids[..i];
  }

  lemma MemoEntry(g: Graph, memo: Memo, x: Name)
    requires MemoOk(g, memo) && x in memo
    ensures x in g && memo[x] == Ancestors(g, x)
  {
    hide Ancestors;
  }

  lemma MemoAdd(g: Graph, memo: Memo, id: Name, result: set<Name>)
    requires MemoOk(g, memo) && id in g && result == Ancestors(g, id) && id !in result
      && forall p :: p in g[id].parents ==> p in memo
    ensures MemoOk(g, memo[id := result])
  {
    hide Ancestors;
  }

  lemma {:induction false} ReachedHas(g: Graph, ids: seq<Name>)
    ensures forall a :: a in Reached(g, ids) <==> exists p :: p in ids && (a == p || a in Ancestors(g, p))
  {
    hide Ancestors;
    if ids != [] {
      var last, before := ids[|ids| - 1], ids[..|ids| - 1];
      ReachedHas(g, before);
      assert ids == before + [last];
      forall a ensures a in Reached(g, ids) <==> exists p :: p in ids && (a == p || a in Ancestors(g, p)) {
        if a in Reached(g, before) {
          var p :| p in before && (a == p || a in Ancestors(g, p));
          assert p in ids;
        }
        assert last in ids;
        if p :| p in ids && (a == p || a in Ancestors(g, p)) { assert p in before || p == last; }
      }
    }
  }

  lemma CycleAt(g: Graph, id: Name)
    requires Anc(g, id, id)
    ensures !Acyclic(g)
  {
  }

  lemma UnknownAt(g: Graph, id: Name, p: Name)
    requires id in g && p in g[id].parents && p !in g
    ensures !Known(g)
  {
  }

  lemma ReachesUp(g: Graph, parent: Name, id: Name, next: set<Name>)
    requires id in g && parent in g[id].parents && id in next
    requires forall x :: x in next ==> x == id || Anc(g, id, x)
    ensures forall x :: x in next ==> Anc(g, parent, x)
  {
    AncStep(g, parent, id);
    forall x | x in next ensures Anc(g, parent, x) {
      if x != id { AncTrans(g, parent, id, x); }
    }
  }

  /**
   A vertex whose parents are all finished has exactly their ancestors and themselves above it, and is on no cycle.
   */
  lemma {:induction false} Finished(g: Graph, id: Name, memo: Memo, result: set<Name>)
    requires MemoOk(g, memo) && id in g && id !in memo && (forall p :: p in g[id].parents ==> p in memo)
      && result == Reached(g, g[id].parents)
    ensures result == Ancestors(g, id) && id !in result
  {
    hide Anc, Reached;
    ReachedHas(g, g[id].parents);
    forall a ensures a in result <==> a in g && Anc(g, a, id) { AncStep(g, a, id); }
    if id in result {
      var p :| p in g[id].parents && (id == p || id in Ancestors(g, p));
      if id != p { AboveIsFinished(g, memo, id, p); }
    }
  }

  lemma AboveIsFinished(g: Graph, memo: Memo, a: Name, x: Name)
    requires MemoOk(g, memo) && x in memo && Anc(g, a, x)
    ensures a in memo
  {
    var n: nat :| n >= 1 && Up(g, a, x, n);
    MemoClosed(g, memo, a, x, n);
  }

  /** What the checker looks up: both closures, over every vertex. */
  ghost predicate ContextOk(g: Graph, above: Memo, below: Memo) {
    && above.Keys == g.Keys && below.Keys == g.Keys
    && (forall x :: x in g ==> above[x] == Ancestors(g, x))
    && (forall x :: x in g ==> below[x] == Descendants(g, x))
  }

  /** Both closures, or the first trouble: it succeeds exactly on proposals with known parents and no cycle. */
  method BuildContext(g: Graph, ids: seq<Name>) returns (trouble: Option<Trouble>, above: Memo, below: Memo)
    requires forall x :: x in ids <==> x in g
    ensures trouble.None? <==> Known(g) && Acyclic(g)
    ensures trouble.None? ==> ContextOk(g, above, below)
  {
    above := map[];
    below := map[];
    for i := 0 to |ids|
      invariant MemoOk(g, above) && forall k :: 0 <= k < i ==> ids[k] in above
    {
      assert ids[i] in ids;
      trouble, above := VisitAncestors(g, ids[i], {}, above);
      if trouble.Some? {
        assert trouble.value.CycleFound? || trouble.value.ParentUnknown?;
        return;
      }
    }
    AllFinished(g, above);
    below := Invert(g, ids, above);
    trouble := None;
  }

  predicate Over(above: Memo, a: Name, b: Name) { b in above && a in above[b] }

  /** The converse closure, entry by entry. */
  method Invert(g: Graph, ids: seq<Name>, above: Memo) returns (below: Memo)
    requires (forall x :: x in ids <==> x in g) && above.Keys == g.Keys && forall x :: x in g ==>
      above[x] == Ancestors(g, x)
    ensures below.Keys == g.Keys && forall x :: x in g ==> below[x] == Descendants(g, x)
  {
    hide Ancestors, Descendants, Below;
    AllWithin(g, above);
    below := map x | x in g :: {};
    forall x ensures Below(above, ids[..0], x) == {} { BelowNone(above, x); }
    for i := 0 to |ids|
      invariant below.Keys == g.Keys && forall x :: x in g ==> below[x] == Below(above, ids[..i], x)
    {
      assert ids[i] in ids;
      forall x ensures Below(above, ids[..i + 1], x) == Below(above, ids[..i], x) + if Over(above, x, ids[i])
        then {ids[i]} else {} {
        BelowStep(above, ids, i, x);
      }
      below := AddBelow(below, ids[i], above[ids[i]]);
    }
    assert ids[..|ids|] == ids;
    forall x | x in g ensures below[x] == Descendants(g, x) { BelowIs(g, ids, above, x); }
  }

  /** Those of these vertices that have `x` above them. */
  function Below(above: Memo, ids: seq<Name>, x: Name): (r: set<Name>) {
    if ids == [] then {}
    else
      var last := ids[|ids| - 1];
      Below(above, ids[..|ids| - 1], x) + if Over(above, x, last) then {last} else {}
  }

  lemma {:induction false} BelowNone(above: Memo, x: Name)
    ensures Below(above, [], x) == {}
  {
  }

  lemma {:induction false} BelowStep(above: Memo, ids: seq<Name>, i: nat, x: Name)
    requires i < |ids|
    ensures Below(above, ids[..i + 1], x) == Below(above, ids[..i], x) + if Over(above, x, ids[i]) then {ids[i]} else {}
  {
    assert ids[..i + 1][..i] == ids[..i];
  }

  method AddBelow(before: Memo, id: Name, over: set<Name>) returns (below: Memo)
    requires over <= before.Keys
    ensures below.Keys == before.Keys && forall x :: x in before ==> below[x] == before[x] + if x in over then {id}
      else {}
  {
    below := before;
    var left := over;
    while left != {}
      invariant left <= over && below.Keys == before.Keys
      invariant forall x :: x in before ==> below[x] == before[x] + if x in over && x !in left then {id} else {}
      decreases left
    {
      var a :| a in left;
      below := below[a := below[a] + {id}];
      left := left - {a};
    }
  }

  lemma AllWithin(g: Graph, above: Memo)
    requires above.Keys == g.Keys && forall x :: x in g ==> above[x] == Ancestors(g, x)
    ensures forall x :: x in above ==> above[x] <= g.Keys
  {
    hide Anc;
  }

  lemma {:induction false} BelowHas(above: Memo, ids: seq<Name>, x: Name)
    ensures forall y :: y in Below(above, ids, x) <==> y in ids && Over(above, x, y)
  {
    if ids != [] {
      BelowHas(above, ids[..|ids| - 1], x);
      assert forall y :: y in ids <==> y in ids[..|ids| - 1] || y == ids[|ids| - 1];
    }
  }

  lemma {:induction false} BelowIs(g: Graph, ids: seq<Name>, above: Memo, x: Name)
    requires x in g && (forall y :: y in ids <==> y in g) && above.Keys == g.Keys && forall y :: y in g ==>
      above[y] == Ancestors(g, y)
    ensures Below(above, ids, x) == Descendants(g, x)
  {
    hide Anc, Below;
    BelowHas(above, ids, x);
  }

  lemma AllFinished(g: Graph, memo: Memo)
    requires MemoOk(g, memo) && forall x :: x in g ==> x in memo
    ensures Known(g) && Acyclic(g) && memo.Keys == g.Keys
  {
    assert Known(g);
    forall x ensures !Anc(g, x, x) {
      if Anc(g, x, x) { AncIsKnown(g, x, x); }
    }
  }

  /* ---------------------------------------------------------------- violations */

  datatype Rule = R1 | R2 | R3 | R4 | R5 | R6 | R7 | R8 | R9 | R10 | R11 | R12 | R13 | R14

  datatype Violation = Violation(rule: Rule, vertices: seq<Name>)

  function Joined(vertices: seq<Name>): (r: string) {
    if vertices == [] then [] else if |vertices| == 1 then vertices[0]
      else vertices[0] + [0 as char] + Joined(vertices[1..])
  }

  /** Reported once for each rule and vertex list, compared as joined text; what is reported never disappears. */
  function Add(vs: seq<Violation>, v: Violation): (r: seq<Violation>)
    ensures r != [] && vs <= r
  {
    if exists i :: 0 <= i < |vs| && vs[i].rule == v.rule && Joined(vs[i].vertices) == Joined(v.vertices) then vs
      else vs + [v]
  }

  /** Those of these vertices, in the proposal's order. */
  function Among(ids: seq<Name>, some: set<Name>): (r: seq<Name>) {
    if ids == [] then [] else (if ids[0] in some then [ids[0]] else []) + Among(ids[1..], some)
  }

  lemma OverIs(g: Graph, above: Memo, below: Memo, a: Name, b: Name)
    requires ContextOk(g, above, below) && Known(g)
    ensures Over(above, a, b) <==> Anc(g, a, b)
    ensures a in below && b in below[a] <==> Anc(g, a, b)
  {
    if Anc(g, a, b) { AncIsKnown(g, a, b); }
  }

  ghost predicate Ready(p: Proposal, ids: seq<Name>, above: Memo, below: Memo) {
    ContextOk(p.graph, above, below) && Known(p.graph) && forall x :: x in ids <==> x in p.graph
  }

  lemma OverAll(p: Proposal, ids: seq<Name>, above: Memo, below: Memo)
    requires Ready(p, ids, above, below)
    ensures forall a, b :: Over(above, a, b) <==> Anc(p.graph, a, b)
    ensures forall a, b :: (a in below && b in below[a]) <==> Anc(p.graph, a, b)
  {
    forall a, b ensures (Over(above, a, b) <==> Anc(p.graph, a, b)) && ((a in below && b in below[a])
      <==> Anc(p.graph, a, b)) {
      OverIs(p.graph, above, below, a, b);
    }
  }

  /* ---------------------------------------------------------------- one pass per rule */

  method CheckEffects(p: Proposal, ids: seq<Name>, reg: Registry, before: seq<Violation>) returns (vs: seq<Violation>)
    requires forall x :: x in ids <==> x in p.graph
    ensures vs == [] <==> before == [] && forall id :: id in p.graph ==> EffectScoped(p, reg, id)
  {
    vs := before;
    for i := 0 to |ids|
      invariant vs == [] <==> before == [] && forall k :: 0 <= k < i ==> EffectScoped(p, reg, ids[k])
    {
      var id := ids[i];
      if HasTool(p, reg, id) && ToolOf(p, reg, id).effect != NoEffect && p.graph[id].scope.None? {
        vs := Add(vs, Violation(R10, [id]));
      }
    }
  }

  method CheckMembers(p: Proposal, ids: seq<Name>, reg: Registry, above: Memo, below: Memo, s: Name, v: Name,
      before: seq<Violation>) returns (vs: seq<Violation>)
    requires Ready(p, ids, above, below)
    ensures vs == [] <==> before == [] && forall m :: m in Members(p.scopes, s) ==> AroundPivot(p, reg, v, m)
  {
    OverAll(p, ids, above, below);
    hide Anc, Members, Ready, ContextOk;
    vs := before;
    var left := Members(p.scopes, s);
    while left != {}
      invariant left <= Members(p.scopes, s)
      invariant vs == [] <==> before == [] && forall m :: m in Members(p.scopes, s) && m !in left ==>
        AroundPivot(p, reg, v, m)
      decreases left
    {
      var m :| m in left;
      left := left - {m};
      if HasTool(p, reg, m) {
        var tool := ToolOf(p, reg, m);
        if Over(above, m, v) && tool.effect != NoEffect && !Undoable(tool) { vs := Add(vs, Violation(R2, [m, v])); }
        if v in below && m in below[v] && !tool.retryable { vs := Add(vs, Violation(R1, [v, m])); }
      }
    }
  }

  method CheckPredecessors(p: Proposal, ids: seq<Name>, reg: Registry, above: Memo, below: Memo, s: Name, v: Name,
      before: seq<Violation>)
    returns (vs: seq<Violation>)
    requires Ready(p, ids, above, below) && v in p.graph
    ensures vs == [] <==> before == [] && forall a :: Anc(p.graph, a, v) && MustBeInside(p, reg, v, a) ==>
      a in Members(p.scopes, s)
  {
    OverAll(p, ids, above, below);
    hide Anc, Members, MustBeInside;
    vs := before;
    assert forall a :: a in above[v] <==> Over(above, a, v);
    var left := above[v];
    while left != {}
      invariant left <= above[v]
      invariant vs == [] <==> before == [] && forall a :: a in above[v] && a !in left && MustBeInside(p, reg, v, a) ==>
        a in Members(p.scopes, s)
      decreases left
    {
      var a :| a in left;
      left := left - {a};
      if MustBeInside(p, reg, v, a) && a !in Members(p.scopes, s) { vs := Add(vs, Violation(R11, [a, v])); }
    }
  }

  method CheckScopes(p: Proposal, ids: seq<Name>, reg: Registry, above: Memo, below: Memo, before: seq<Violation>)
      returns (vs: seq<Violation>)
    requires Ready(p, ids, above, below)
    ensures vs == [] <==> before == [] && forall i :: 0 <= i < |p.scopes| ==> ScopeFits(p, reg, p.scopes[i].id)
  {
    vs := before;
    for i := 0 to |p.scopes|
      invariant vs == [] <==> before == [] && forall k :: 0 <= k < i ==> ScopeFits(p, reg, p.scopes[k].id)
    {
      vs := CheckScope(p, ids, reg, above, below, p.scopes[i].id, vs);
    }
  }

  method CheckScope(p: Proposal, ids: seq<Name>, reg: Registry, above: Memo, below: Memo, s: Name,
      before: seq<Violation>) returns (vs: seq<Violation>)
    requires Ready(p, ids, above, below)
    ensures vs == [] <==> before == [] && ScopeFits(p, reg, s)
  {
    hide Members, Anc, ContextOk, MustBeInside, AroundPivot;
    vs := before;
    var pivots := PivotsIn(p, reg, s);
    if |pivots| > 1 { vs := Add(vs, Violation(R3, Among(ids, pivots))); }
    var left := pivots;
    while left != {}
      invariant left <= pivots
      invariant vs == [] <==>
        && before == [] && |pivots| <= 1
        && (forall v, m :: v in pivots && v !in left && m in Members(p.scopes, s) ==> AroundPivot(p, reg, v, m))
        && (forall v, a :: v in pivots && v !in left && Anc(p.graph, a, v) && MustBeInside(p, reg, v, a) ==>
          a in Members(p.scopes, s))
      decreases left
    {
      var v :| v in left;
      left := left - {v};
      assert IsPivot(p, reg, v);
      vs := CheckMembers(p, ids, reg, above, below, s, v, vs);
      vs := CheckPredecessors(p, ids, reg, above, below, s, v, vs);
    }
  }

  method CheckPlacement(p: Proposal, ids: seq<Name>, reg: Registry, existing: seq<Snapshot>, before: seq<Violation>)
      returns (vs: seq<Violation>)
    ensures vs == [] <==> before == [] && AllPlaced(p, reg, existing)
  {
    vs := before;
    if !HasRouter(p) { return; }
    for i := 0 to |p.scopes|
      invariant vs == [] <==> before == [] && forall k :: 0 <= k < i ==> Placed(p, reg, existing, p.scopes[k].id)
    {
      var s := p.scopes[i].id;
      var known := Existing(existing, s);
      if SomeHalfOpen(existing) && known.None? { vs := Add(vs, Violation(R12, p.scopes[i].members)); }
      if known.Some? && known.value.pivotCount + |PivotsIn(p, reg, s)| > 1 {
        vs := Add(vs, Violation(R3, Among(ids, PivotsIn(p, reg, s))));
      }
    }
  }

  method FindGuard(p: Proposal, ids: seq<Name>, above: Memo, below: Memo, a: Name, b: Name) returns (found: bool)
    requires Ready(p, ids, above, below)
    ensures found <==> exists g :: GuardedBy(p, g, a, b)
  {
    OverAll(p, ids, above, below);
    for i := 0 to |ids|
      invariant forall k :: 0 <= k < i ==> !GuardedBy(p, ids[k], a, b)
    {
      var g := ids[i];
      assert g in ids;
      if p.graph[g].kind == BarrierKind && |p.graph[g].parents| >= 2 && Over(above, g, a) && Over(above, g, b) {
        assert GuardedBy(p, g, a, b);
        return true;
      }
    }
    return false;
  }

  method CheckParallelPivots(p: Proposal, ids: seq<Name>, reg: Registry, above: Memo, below: Memo,
      before: seq<Violation>) returns (vs: seq<Violation>)
    requires Ready(p, ids, above, below)
    ensures vs == [] <==> before == [] && AllGuarded(p, reg)
  {
    hide Ready, PairGuarded, AllGuarded;
    ReadyIds(p, ids, above, below);
    vs := before;
    for i := 0 to |ids|
      invariant vs == [] <==> before == [] && forall k :: 0 <= k < i ==> GuardedFrom(p, reg, ids[..k], ids[k])
    {
      vs := CheckPivotsAgainst(p, ids, reg, above, below, ids[..i], ids[i], vs);
    }
    PairsGuarded(p, ids, reg);
  }

  method CheckPivotsAgainst(p: Proposal, ids: seq<Name>, reg: Registry, above: Memo, below: Memo, others: seq<Name>,
      b: Name, before: seq<Violation>)
    returns (vs: seq<Violation>)
    requires Ready(p, ids, above, below)
    ensures vs == [] <==> before == [] && GuardedFrom(p, reg, others, b)
  {
    hide Ready, PairGuarded;
    vs := before;
    for j := 0 to |others|
      invariant vs == [] <==> before == [] && forall l :: 0 <= l < j ==> PairGuarded(p, reg, others[l], b)
    {
      var guarded := PivotsCheck(p, ids, reg, above, below, others[j], b);
      if !guarded { vs := Add(vs, Violation(R5, [others[j], b])); }
    }
  }

  method PivotsCheck(p: Proposal, ids: seq<Name>, reg: Registry, above: Memo, below: Memo, a: Name, b: Name)
      returns (guarded: bool)
    requires Ready(p, ids, above, below)
    ensures guarded <==> PairGuarded(p, reg, a, b)
  {
    OverIs(p.graph, above, below, a, b);
    OverIs(p.graph, above, below, b, a);
    hide Anc, ContextOk;
    if a == b || !IsPivot(p, reg, a) || !IsPivot(p, reg, b) || Over(above, a, b) || Over(above, b, a) { return true; }
    guarded := FindGuard(p, ids, above, below, a, b);
  }

  ghost predicate GuardedFrom(p: Proposal, reg: Registry, others: seq<Name>, b: Name) {
    forall l :: 0 <= l < |others| ==> PairGuarded(p, reg, others[l], b)
  }

  ghost predicate PairGuarded(p: Proposal, reg: Registry, a: Name, b: Name) {
    a != b && IsPivot(p, reg, a) && IsPivot(p, reg, b) ==> Guarded(p, a, b)
  }

  lemma PairsGuarded(p: Proposal, ids: seq<Name>, reg: Registry)
    requires forall x :: x in ids <==> x in p.graph
    ensures AllGuarded(p, reg) <==> forall k :: 0 <= k < |ids| ==> GuardedFrom(p, reg, ids[..k], ids[k])
  {
    hide Guarded;
    if forall k :: 0 <= k < |ids| ==> GuardedFrom(p, reg, ids[..k], ids[k]) {
      forall a, b | IsPivot(p, reg, a) && IsPivot(p, reg, b) && a != b ensures Guarded(p, a, b) {
        var k :| 0 <= k < |ids| && ids[k] == a;
        var l :| 0 <= l < |ids| && ids[l] == b;
        GuardIsMutual(p, a, b);
        if l < k {
          assert GuardedFrom(p, reg, ids[..k], ids[k]) && ids[..k][l] == b;
        } else {
          assert GuardedFrom(p, reg, ids[..l], ids[l]) && ids[..l][k] == a;
        }
      }
    }
  }

  lemma GuardIsMutual(p: Proposal, a: Name, b: Name)
    ensures Guarded(p, a, b) <==> Guarded(p, b, a)
  {
    hide Anc;
    assert forall g :: GuardedBy(p, g, a, b) <==> GuardedBy(p, g, b, a);
  }

  /** R7 and R14 both walk the edges: each child, then each of its parents. */
  method CheckEdges(p: Proposal, ids: seq<Name>, reg: Registry, before: seq<Violation>) returns (vs: seq<Violation>)
    requires (forall x :: x in ids <==> x in p.graph) && Known(p.graph)
    ensures vs == [] <==> before == [] && AllConfirmed(p, reg) && AllRouted(p)
  {
    vs := before;
    for i := 0 to |ids|
      invariant vs == [] <==> before == [] && forall k :: 0 <= k < i ==>
        EdgesInto(p, reg, ids[k], |p.graph[ids[k]].parents|)
    {
      assert ids[i] in ids;
      var c := ids[i];
      var parents := p.graph[c].parents;
      for j := 0 to |parents|
        invariant vs == [] <==>
          && before == [] && (forall k :: 0 <= k < i ==> EdgesInto(p, reg, ids[k], |p.graph[ids[k]].parents|))
            && EdgesInto(p, reg, c, j)
      {
        assert parents[j] in parents;
        var v := parents[j];
        if !EdgeConfirmed(p, reg, v, c) { vs := Add(vs, Violation(R7, [v, c])); }
        if !RouterBetween(p, v, c) { vs := Add(vs, Violation(R14, [v, c])); }
      }
    }
    EdgesAll(p, ids, reg);
  }

  ghost predicate EdgesInto(p: Proposal, reg: Registry, c: Name, n: int) {
    c in p.graph && forall j :: 0 <= j < n && j < |p.graph[c].parents| && p.graph[c].parents[j] in p.graph ==>
      EdgeConfirmed(p, reg, p.graph[c].parents[j], c) && RouterBetween(p, p.graph[c].parents[j], c)
  }

  lemma EdgesAll(p: Proposal, ids: seq<Name>, reg: Registry)
    requires forall x :: x in ids <==> x in p.graph
    ensures AllConfirmed(p, reg) && AllRouted(p) <==> forall k :: 0 <= k < |ids| ==>
      EdgesInto(p, reg, ids[k], |p.graph[ids[k]].parents|)
  {
    if forall k :: 0 <= k < |ids| ==> EdgesInto(p, reg, ids[k], |p.graph[ids[k]].parents|) {
      forall c, v | c in p.graph && v in p.graph[c].parents && v in p.graph
        ensures EdgeConfirmed(p, reg, v, c) && RouterBetween(p, v, c) {
        var k :| 0 <= k < |ids| && ids[k] == c;
        assert EdgesInto(p, reg, ids[k], |p.graph[ids[k]].parents|);
        var j :| 0 <= j < |p.graph[c].parents| && p.graph[c].parents[j] == v;
      }
    }
    if AllConfirmed(p, reg) && AllRouted(p) {
      forall k | 0 <= k < |ids| ensures EdgesInto(p, reg, ids[k], |p.graph[ids[k]].parents|) { assert ids[k] in ids; }
    }
  }

  method CheckDeciders(p: Proposal, ids: seq<Name>, before: seq<Violation>) returns (vs: seq<Violation>)
    requires forall x :: x in ids <==> x in p.graph
    ensures vs == [] <==> before == [] && forall id :: id in p.graph ==> Unscoped(p, id)
  {
    vs := before;
    for i := 0 to |ids|
      invariant vs == [] <==> before == [] && forall k :: 0 <= k < i ==> ids[k] in p.graph && Unscoped(p, ids[k])
    {
      assert ids[i] in ids;
      var id := ids[i];
      if Decides(p.graph[id].kind) {
        if p.graph[id].scope.Some? { vs := Add(vs, Violation(R12, [id])); }
        for j := 0 to |p.scopes|
          invariant vs == [] <==>
            && before == [] && (forall k :: 0 <= k < i ==> ids[k] in p.graph && Unscoped(p, ids[k]))
            && p.graph[id].scope.None? && (forall l :: 0 <= l < j ==> id !in p.scopes[l].members)
        {
          if id in p.scopes[j].members { vs := Add(vs, Violation(R12, [id])); }
        }
      }
    }
  }

  method CheckReads(p: Proposal, ids: seq<Name>, reg: Registry, above: Memo, below: Memo, before: seq<Violation>)
      returns (vs: seq<Violation>)
    requires Ready(p, ids, above, below)
    ensures vs == [] <==> before == [] && NoReadsAfterPivot(p, reg)
  {
    hide Ready, QuietAfter, NoReadsAfterPivot;
    ReadyIds(p, ids, above, below);
    vs := before;
    for i := 0 to |ids|
      invariant vs == [] <==> before == [] && forall k :: 0 <= k < i ==> QuietAfterAll(p, reg, ids[k], ids)
    {
      vs := CheckReadsAfter(p, ids, reg, above, below, ids[i], vs);
    }
    ReadsAll(p, ids, reg);
  }

  method CheckReadsAfter(p: Proposal, ids: seq<Name>, reg: Registry, above: Memo, below: Memo, v: Name,
      before: seq<Violation>) returns (vs: seq<Violation>)
    requires Ready(p, ids, above, below)
    ensures vs == [] <==> before == [] && QuietAfterAll(p, reg, v, ids)
  {
    vs := before;
    for j := 0 to |ids|
      invariant vs == [] <==> before == [] && forall l :: 0 <= l < j ==> QuietAfter(p, reg, v, ids[l])
    {
      var d := ids[j];
      QuietIff(p, ids, above, below, reg, v, d);
      hide QuietAfter, Ready;
      if ReadsOnly(p, reg, v, d) && Over(above, v, d) && d in below && below[d] != {} {
        vs := Add(vs, Violation(R8, [v, d]));
      }
    }
  }

  lemma QuietIff(p: Proposal, ids: seq<Name>, above: Memo, below: Memo, reg: Registry, v: Name, d: Name)
    requires Ready(p, ids, above, below)
    ensures QuietAfter(p, reg, v, d) <==>
      !(ReadsOnly(p, reg, v, d) && Over(above, v, d) && d in below && below[d] != {})
  {
    OverAll(p, ids, above, below);
    hide Anc, ContextOk;
    if d in below && below[d] != {} {
      var x :| x in below[d];
      assert Anc(p.graph, d, x);
    }
  }

  lemma ReadyIds(p: Proposal, ids: seq<Name>, above: Memo, below: Memo)
    requires Ready(p, ids, above, below)
    ensures forall x :: x in ids <==> x in p.graph
  {
  }

  ghost predicate QuietAfterAll(p: Proposal, reg: Registry, v: Name, ids: seq<Name>) {
    forall l :: 0 <= l < |ids| ==> QuietAfter(p, reg, v, ids[l])
  }

  ghost predicate QuietAfter(p: Proposal, reg: Registry, v: Name, d: Name) {
    ReadsOnly(p, reg, v, d) && Anc(p.graph, v, d) ==> forall x :: !Anc(p.graph, d, x)
  }

  lemma ReadsAll(p: Proposal, ids: seq<Name>, reg: Registry)
    requires forall x :: x in ids <==> x in p.graph
    ensures NoReadsAfterPivot(p, reg) <==> forall k :: 0 <= k < |ids| ==> QuietAfterAll(p, reg, ids[k], ids)
  {
    hide Anc;
    if forall k :: 0 <= k < |ids| ==> QuietAfterAll(p, reg, ids[k], ids) {
      forall v, d, x | ReadsOnly(p, reg, v, d) && Anc(p.graph, v, d) ensures !Anc(p.graph, d, x) {
        var k :| 0 <= k < |ids| && ids[k] == v;
        var l :| 0 <= l < |ids| && ids[l] == d;
        assert QuietAfterAll(p, reg, ids[k], ids);
        assert QuietAfter(p, reg, v, ids[l]);
      }
    }
  }

  method RelatedPivots(p: Proposal, ids: seq<Name>, reg: Registry, above: Memo, below: Memo, a: Name, b: Name)
      returns (related: seq<Name>)
    requires Ready(p, ids, above, below)
    ensures forall r :: r in related <==> Related(p, reg, r, a, b)
  {
    OverAll(p, ids, above, below);
    hide Anc, ContextOk;
    related := [];
    for i := 0 to |ids|
      invariant forall r :: r in related <==> r in ids[..i] && Related(p, reg, r, a, b)
    {
      var r := ids[i];
      assert ids[..i + 1] == ids[..i] + [r];
      if IsPivot(p, reg, r) && (r == a || r == b || (a in below && r in below[a]) || (b in below && r in below[b])) {
        related := related + [r];
      }
    }
    assert ids[..|ids|] == ids;
  }

  method FindSeparator(p: Proposal, ids: seq<Name>, reg: Registry, above: Memo, below: Memo, a: Name, b: Name,
      related: seq<Name>) returns (found: bool)
    requires Ready(p, ids, above, below) && forall r :: r in related <==> Related(p, reg, r, a, b)
    ensures found <==> exists g :: Separated(p, reg, g, a, b)
  {
    OverAll(p, ids, above, below);
    hide Anc, ContextOk, Related;
    for i := 0 to |ids|
      invariant forall k :: 0 <= k < i ==> !Separated(p, reg, ids[k], a, b)
    {
      var g := ids[i];
      assert g in ids;
      if p.graph[g].kind == BarrierKind && Over(above, a, g) && Over(above, b, g) && forall r :: r in related ==>
        Over(above, g, r) {
        assert Separated(p, reg, g, a, b);
        return true;
      }
    }
    return false;
  }

  method CheckWriters(p: Proposal, ids: seq<Name>, reg: Registry, above: Memo, below: Memo, before: seq<Violation>)
      returns (vs: seq<Violation>)
    requires Ready(p, ids, above, below)
    ensures vs == [] <==> before == [] && AllSeparated(p, reg)
  {
    hide Ready, PairSeparated, AllSeparated;
    ReadyIds(p, ids, above, below);
    vs := before;
    for i := 0 to |ids|
      invariant vs == [] <==> before == [] && forall k :: 0 <= k < i ==> SeparatedFrom(p, reg, ids[..k], ids[k])
    {
      vs := CheckWritersAgainst(p, ids, reg, above, below, ids[..i], ids[i], vs);
    }
    PairsSeparated(p, ids, reg);
  }

  method CheckWritersAgainst(p: Proposal, ids: seq<Name>, reg: Registry, above: Memo, below: Memo, others: seq<Name>,
      b: Name, before: seq<Violation>)
    returns (vs: seq<Violation>)
    requires Ready(p, ids, above, below)
    ensures vs == [] <==> before == [] && SeparatedFrom(p, reg, others, b)
  {
    hide Ready, PairSeparated;
    vs := before;
    for j := 0 to |others|
      invariant vs == [] <==> before == [] && forall l :: 0 <= l < j ==> PairSeparated(p, reg, others[l], b)
    {
      var fits := WritersCheck(p, ids, reg, above, below, others[j], b);
      if !fits { vs := Add(vs, Violation(R9, [others[j], b])); }
    }
  }

  method WritersCheck(p: Proposal, ids: seq<Name>, reg: Registry, above: Memo, below: Memo, a: Name, b: Name)
      returns (fits: bool)
    requires Ready(p, ids, above, below)
    ensures fits <==> PairSeparated(p, reg, a, b)
  {
    OverIs(p.graph, above, below, a, b);
    OverIs(p.graph, above, below, b, a);
    hide Anc, ContextOk, Related, Separated;
    if a == b || !Collide(p, reg, a, b) || Over(above, a, b) || Over(above, b, a) { return true; }
    var related := RelatedPivots(p, ids, reg, above, below, a, b);
    if related == [] { return true; }
    assert related[0] in related;
    fits := FindSeparator(p, ids, reg, above, below, a, b, related);
  }

  ghost predicate SeparatedFrom(p: Proposal, reg: Registry, others: seq<Name>, b: Name) {
    forall l :: 0 <= l < |others| ==> PairSeparated(p, reg, others[l], b)
  }

  ghost predicate PairSeparated(p: Proposal, reg: Registry, a: Name, b: Name) {
    a != b && Collide(p, reg, a, b) ==> WritersFit(p, reg, a, b)
  }

  lemma PairsSeparated(p: Proposal, ids: seq<Name>, reg: Registry)
    requires forall x :: x in ids <==> x in p.graph
    ensures AllSeparated(p, reg) <==> forall k :: 0 <= k < |ids| ==> SeparatedFrom(p, reg, ids[..k], ids[k])
  {
    hide WritersFit;
    if forall k :: 0 <= k < |ids| ==> SeparatedFrom(p, reg, ids[..k], ids[k]) {
      forall a, b | Collide(p, reg, a, b) && a != b ensures WritersFit(p, reg, a, b) {
        var k :| 0 <= k < |ids| && ids[k] == a;
        var l :| 0 <= l < |ids| && ids[l] == b;
        WritersAreMutual(p, reg, a, b);
        if l < k {
          assert SeparatedFrom(p, reg, ids[..k], ids[k]) && ids[..k][l] == b;
        } else {
          assert SeparatedFrom(p, reg, ids[..l], ids[l]) && ids[..l][k] == a;
        }
      }
    }
  }

  lemma WritersAreMutual(p: Proposal, reg: Registry, a: Name, b: Name)
    ensures Collide(p, reg, a, b) <==> Collide(p, reg, b, a)
    ensures WritersFit(p, reg, a, b) <==> WritersFit(p, reg, b, a)
  {
    hide Anc;
    if HasTool(p, reg, a) && HasTool(p, reg, b) {
      assert ToolOf(p, reg, a).writes * ToolOf(p, reg, b).writes == ToolOf(p, reg, b).writes * ToolOf(p, reg, a).writes;
    }
    assert forall r :: Related(p, reg, r, a, b) <==> Related(p, reg, r, b, a);
    assert forall g :: Separated(p, reg, g, a, b) <==> Separated(p, reg, g, b, a);
  }

  /* ---------------------------------------------------------------- the checker */

  datatype Verdict = Malformed | Judged(accepted: bool, violations: seq<Violation>)

  predicate ToolsNamed(p: Proposal, reg: Registry) {
    forall id :: id in p.graph && p.graph[id].tool.Some? ==>
      p.graph[id].kind == ToolKind && p.graph[id].tool.value in reg
  }

  /**
   The verdict is the rules: a proposal is judged exactly when it is well formed, and accepted
   exactly when the registry reported nothing and every rule holds. Collapsing repeated reports
   hides no rejection.
   */
  method CheckSubDag(p: Proposal, ids: seq<Name>, reg: Registry, existing: seq<Snapshot>,
      registryDefects: seq<Violation>) returns (r: Verdict)
    requires forall x :: x in ids <==> x in p.graph
    ensures r.Judged? <==> WellFormed(p, reg)
    ensures r.Judged? ==> (r.accepted <==> registryDefects == [] && OtherRules(p, reg, existing) && AllRouted(p))
    ensures r.Judged? ==> (r.accepted <==> r.violations == [])
  {
    if !ToolsNamed(p, reg) { return Malformed; }
    var trouble, above, below := BuildContext(p.graph, ids);
    if trouble.Some? { return Malformed; }
    hide ContextOk, AllPlaced, AllGuarded, AllConfirmed, AllRouted, NoReadsAfterPivot, AllSeparated, EffectScoped,
      ScopeFits, Unscoped, Acyclic, Known;
    assert Ready(p, ids, above, below);
    hide Ready;
    var vs := CheckEffects(p, ids, reg, registryDefects);
    vs := CheckScopes(p, ids, reg, above, below, vs);
    vs := CheckPlacement(p, ids, reg, existing, vs);
    vs := CheckParallelPivots(p, ids, reg, above, below, vs);
    vs := CheckEdges(p, ids, reg, vs);
    vs := CheckDeciders(p, ids, vs);
    vs := CheckReads(p, ids, reg, above, below, vs);
    vs := CheckWriters(p, ids, reg, above, below, vs);
    return Judged(vs == [], vs);
  }
}
