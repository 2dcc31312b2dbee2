/**
 The admission rules in plain terms: of vertices, the tools they call, the declared scopes and what
 comes before what. The checker's verdict is exactly that all of them hold.
 */
module RuleMeaning {
  import opened EventLog
  import opened Proposals

  /* ---------------------------------------------------------------- reading a proposal */

  /** The vertex is a tool vertex whose tool the registry has as `t`. */
  ghost predicate Calls(p: Proposal, reg: Registry, id: Name, t: Tool) {
    && id in p.graph && p.graph[id].kind == ToolKind
    && exists name :: p.graph[id].tool == Some(name) && name in reg && reg[name] == t
  }

  lemma CallsIs(p: Proposal, reg: Registry, id: Name, t: Tool)
    ensures Calls(p, reg, id, t) <==> HasTool(p, reg, id) && ToolOf(p, reg, id) == t
  {
  }

  /** The vertex calls a tool whose effect nothing undoes. */
  ghost predicate CallsIrreversible(p: Proposal, reg: Registry, id: Name) {
    exists t :: Calls(p, reg, id, t) && t.effect == Irreversible
  }

  lemma PivotIs(p: Proposal, reg: Registry, id: Name)
    ensures IsPivot(p, reg, id) <==> CallsIrreversible(p, reg, id)
  {
    hide Calls;
    forall t ensures Calls(p, reg, id, t) <==> HasTool(p, reg, id) && ToolOf(p, reg, id) == t {
      CallsIs(p, reg, id, t);
    }
    if IsPivot(p, reg, id) { assert Calls(p, reg, id, ToolOf(p, reg, id)); }
  }

  /** The last declaration of scope `s` lists `v`. */
  ghost predicate ListedIn(p: Proposal, s: Name, v: Name) {
    exists i ::
      && 0 <= i < |p.scopes| && p.scopes[i].id == s && v in p.scopes[i].members
      && forall j :: i < j < |p.scopes| ==> p.scopes[j].id != s
  }

  lemma {:induction false} MembersAre(scopes: seq<ScopeDecl>, s: Name, v: Name)
    ensures v in Members(scopes, s) <==>
      exists i ::
        && 0 <= i < |scopes| && scopes[i].id == s && v in scopes[i].members
        && forall j :: i < j < |scopes| ==> scopes[j].id != s
  {
    if scopes != [] {
      var n := |scopes| - 1;
      assert forall i :: 0 <= i < n ==> scopes[..n][i] == scopes[i];
      MembersAre(scopes[..n], s, v);
      if scopes[n].id == s && v in scopes[n].members { assert scopes[n].id == s; }
    }
  }

  lemma {:induction false} ListedIs(p: Proposal, s: Name, v: Name)
    ensures v in Members(p.scopes, s) <==> ListedIn(p, s, v)
  {
    MembersAre(p.scopes, s, v);
  }

  ghost predicate Declared(p: Proposal, s: Name) { exists i :: 0 <= i < |p.scopes| && p.scopes[i].id == s }

  /** `v` is a pivot of scope `s`. */
  ghost predicate PivotOf(p: Proposal, reg: Registry, s: Name, v: Name) {
    ListedIn(p, s, v) && CallsIrreversible(p, reg, v)
  }

  lemma PivotsAre(p: Proposal, reg: Registry, s: Name, v: Name)
    ensures v in PivotsIn(p, reg, s) <==> PivotOf(p, reg, s, v)
  {
    hide Members, CallsIrreversible, IsPivot;
    ListedIs(p, s, v);
    PivotIs(p, reg, v);
  }

  /* ---------------------------------------------------------------- the rules */

  /** R10: whoever has an effect is in a scope. */
  ghost predicate R10(p: Proposal, reg: Registry) {
    forall id, t :: Calls(p, reg, id, t) && t.effect != NoEffect ==> p.graph[id].scope.Some?
  }

  /** R3: no declared scope has two pivots. */
  ghost predicate R3(p: Proposal, reg: Registry) {
    forall s, v, w :: Declared(p, s) && PivotOf(p, reg, s, v) && PivotOf(p, reg, s, w) ==> v == w
  }

  /** R2: what a pivot's scope does before the pivot is buffered, tried and confirmed, or compensated. */
  ghost predicate R2(p: Proposal, reg: Registry) {
    forall s, v, m, t ::
      Declared(p, s) && PivotOf(p, reg, s, v) && ListedIn(p, s, m) && Calls(p, reg, m, t) && Anc(p.graph, m, v)
          && t.effect != NoEffect ==>
        t.effect == Bufferable || t.mode == Tcc || t.compensated
  }

  /** R1: what a pivot's scope does after the pivot can be retried. */
  ghost predicate R1(p: Proposal, reg: Registry) {
    forall s, v, m, t ::
      Declared(p, s) && PivotOf(p, reg, s, v) && ListedIn(p, s, m) && Calls(p, reg, m, t) && Anc(p.graph, v, m) ==>
        t.retryable
  }

  /** A pivot and a vertex with a reversible effect touch one thing. */
  ghost predicate Touch(p: Proposal, reg: Registry, v: Name, a: Name) {
    exists t, u ::
      && Calls(p, reg, v, t) && t.effect == Irreversible && Calls(p, reg, a, u) && u.effect == Reversible
      && exists x :: x in t.footprint && x in u.footprint
  }

  /** R11: what a pivot depends on and touches one thing with, and could still be undone, is in the pivot's scope. */
  ghost predicate R11(p: Proposal, reg: Registry) {
    forall s, v, a :: Declared(p, s) && ListedIn(p, s, v) && Anc(p.graph, a, v) && Touch(p, reg, v, a) ==>
      ListedIn(p, s, a)
  }

  /** A barrier of two parents or more that both wait for. */
  ghost predicate Gate(p: Proposal, g: Name, a: Name, b: Name) {
    && g in p.graph && p.graph[g].kind == BarrierKind && |p.graph[g].parents| >= 2
    && Anc(p.graph, g, a) && Anc(p.graph, g, b)
  }

  /** R5: of two pivots one comes before the other, or both wait for one barrier of two parents or more. */
  ghost predicate R5(p: Proposal, reg: Registry) {
    forall a, b :: CallsIrreversible(p, reg, a) && CallsIrreversible(p, reg, b) && a != b ==>
      Anc(p.graph, a, b) || Anc(p.graph, b, a) || exists g :: Gate(p, g, a, b)
  }

  /** R7: an edge from a tool in one scope into another carries a confirmed output, unless the tool has no effect. */
  ghost predicate R7(p: Proposal, reg: Registry) {
    forall c, v ::
      c in p.graph && v in p.graph[c].parents && v in p.graph && p.graph[v].kind == ToolKind
          && p.graph[v].scope.Some? && p.graph[c].scope.Some? && p.graph[v].scope != p.graph[c].scope
          && !p.graph[v].confirmedOutput ==>
        exists t :: Calls(p, reg, v, t) && t.effect == NoEffect
  }

  /** R14: no tool is the parent of a planner. */
  ghost predicate R14(p: Proposal) {
    forall c, v ::
      c in p.graph && v in p.graph[c].parents && v in p.graph && p.graph[c].kind == PlannerKind ==>
        p.graph[v].kind != ToolKind
  }

  /** R12: no planner and no router is in a scope, by its own word or by a declaration. */
  ghost predicate R12(p: Proposal) {
    forall id :: id in p.graph && (p.graph[id].kind == PlannerKind || p.graph[id].kind == RouterKind) ==>
      p.graph[id].scope.None? && forall i :: 0 <= i < |p.scopes| ==> id !in p.scopes[i].members
  }

  /** R8: nothing depends on a read of a pivot's scope that follows the pivot. */
  ghost predicate R8(p: Proposal, reg: Registry) {
    forall v, d, x, t ::
      CallsIrreversible(p, reg, v) && Calls(p, reg, d, t) && t.effect == NoEffect && Anc(p.graph, v, d)
          && p.graph[d].scope == p.graph[v].scope ==>
        !Anc(p.graph, d, x)
  }

  /** A pivot that is one of these two, or follows one of them. */
  ghost predicate PivotNear(p: Proposal, reg: Registry, r: Name, a: Name, b: Name) {
    CallsIrreversible(p, reg, r) && (r == a || r == b || Anc(p.graph, a, r) || Anc(p.graph, b, r))
  }

  /** A barrier after both of these two and before every pivot near them. */
  ghost predicate Wall(p: Proposal, reg: Registry, g: Name, a: Name, b: Name) {
    && g in p.graph && p.graph[g].kind == BarrierKind && Anc(p.graph, a, g) && Anc(p.graph, b, g)
    && forall r :: PivotNear(p, reg, r, a, b) ==> Anc(p.graph, g, r)
  }

  /** The two are in order, or no pivot is near them, or a wall stands between. */
  ghost predicate Apart(p: Proposal, reg: Registry, a: Name, b: Name) {
    || Anc(p.graph, a, b) || Anc(p.graph, b, a)
    || (forall r :: !PivotNear(p, reg, r, a, b)) || exists g :: Wall(p, reg, g, a, b)
  }

  /** R9: two writers of one thing are apart. */
  ghost predicate R9(p: Proposal, reg: Registry) {
    forall a, b, t, u ::
      Calls(p, reg, a, t) && Calls(p, reg, b, u) && a != b && (exists x :: x in t.writes && x in u.writes) ==>
        Apart(p, reg, a, b)
  }

  /** The first snapshot of this scope is at `k`. */
  ghost predicate HeldAt(existing: seq<Snapshot>, s: Name, k: int) {
    0 <= k < |existing| && existing[k].id == s && forall j :: 0 <= j < k ==> existing[j].id != s
  }

  /**
   R12 and R3 across freezes: with a router about, a scope is declared anew only while none held is half open, and a
   held one gets no second pivot.
   */
  ghost predicate AcrossFreezes(p: Proposal, reg: Registry, existing: seq<Snapshot>) {
    (exists id :: id in p.graph && p.graph[id].kind == RouterKind) ==>
      forall s :: Declared(p, s) ==>
        && ((exists j :: 0 <= j < |existing| && existing[j].halfOpen) ==> exists k :: HeldAt(existing, s, k))
        && forall k :: HeldAt(existing, s, k) ==>
          existing[k].pivotCount <= 1 && (existing[k].pivotCount == 1 ==> forall v :: !PivotOf(p, reg, s, v))
  }

  ghost predicate PlainRules(p: Proposal, reg: Registry, existing: seq<Snapshot>) {
    && R1(p, reg) && R2(p, reg) && R3(p, reg) && R5(p, reg) && R7(p, reg) && R8(p, reg) && R9(p, reg) && R10(p, reg)
    && R11(p, reg) && R12(p) && R14(p) && AcrossFreezes(p, reg, existing)
  }

  /* ---------------------------------------------------------------- each rule is what the checker asks */

  lemma TellCalls(p: Proposal, reg: Registry)
    ensures forall id, t :: Calls(p, reg, id, t) <==> HasTool(p, reg, id) && ToolOf(p, reg, id) == t
  {
    forall id, t ensures Calls(p, reg, id, t) <==> HasTool(p, reg, id) && ToolOf(p, reg, id) == t {
      CallsIs(p, reg, id, t);
    }
  }

  lemma TellPivots(p: Proposal, reg: Registry)
    ensures forall id :: IsPivot(p, reg, id) <==> CallsIrreversible(p, reg, id)
  {
    forall id ensures IsPivot(p, reg, id) <==> CallsIrreversible(p, reg, id) { PivotIs(p, reg, id); }
  }

  lemma TellMembers(p: Proposal, reg: Registry)
    ensures forall s, v :: v in Members(p.scopes, s) <==> ListedIn(p, s, v)
    ensures forall s, v :: v in PivotsIn(p, reg, s) <==> PivotOf(p, reg, s, v)
  {
    forall s, v ensures v in Members(p.scopes, s) <==> ListedIn(p, s, v) { ListedIs(p, s, v); }
    forall s, v ensures v in PivotsIn(p, reg, s) <==> PivotOf(p, reg, s, v) { PivotsAre(p, reg, s, v); }
  }

  lemma R10Is(p: Proposal, reg: Registry)
    ensures (forall id :: id in p.graph ==> EffectScoped(p, reg, id)) <==> R10(p, reg)
  {
    hide Calls;
    TellCalls(p, reg);
    if R10(p, reg) {
      forall id | id in p.graph ensures EffectScoped(p, reg, id) {
        if HasTool(p, reg, id) { assert Calls(p, reg, id, ToolOf(p, reg, id)); }
      }
    }
    if forall id :: id in p.graph ==> EffectScoped(p, reg, id) {
      forall id, t | Calls(p, reg, id, t) && t.effect != NoEffect ensures p.graph[id].scope.Some? {
        assert EffectScoped(p, reg, id);
      }
    }
  }

  lemma AtMostOne(s: set<Name>)
    ensures |s| <= 1 <==> forall v, w :: v in s && w in s ==> v == w
  {
    if v, w :| v in s && w in s && v != w {
      assert |s - {v} - {w}| == |s| - 2;
    } else if s != {} {
      var v :| v in s;
      assert s == {v};
    }
  }

  lemma R3Is(p: Proposal, reg: Registry)
    ensures (forall i :: 0 <= i < |p.scopes| ==> OnePivot(p, reg, p.scopes[i].id)) <==> R3(p, reg)
  {
    hide PivotsIn, PivotOf;
    TellMembers(p, reg);
    forall s ensures OnePivot(p, reg, s) <==> forall v, w :: PivotOf(p, reg, s, v) && PivotOf(p, reg, s, w) ==> v == w {
      AtMostOne(PivotsIn(p, reg, s));
    }
    if R3(p, reg) {
      forall i | 0 <= i < |p.scopes| ensures OnePivot(p, reg, p.scopes[i].id) { assert Declared(p, p.scopes[i].id); }
    }
  }

  /** What the rules ask around the pivots of one scope. */
  ghost predicate Around(p: Proposal, reg: Registry, s: Name) {
    forall v, m :: v in PivotsIn(p, reg, s) && m in Members(p.scopes, s) ==> AroundPivot(p, reg, v, m)
  }

  ghost predicate Inside(p: Proposal, reg: Registry, s: Name) {
    forall v, a :: v in PivotsIn(p, reg, s) && Anc(p.graph, a, v) && MustBeInside(p, reg, v, a) ==>
      a in Members(p.scopes, s)
  }

  lemma AroundIs(p: Proposal, reg: Registry, s: Name)
    ensures Around(p, reg, s) <==>
      forall v, m, t :: PivotOf(p, reg, s, v) && ListedIn(p, s, m) && Calls(p, reg, m, t) ==>
        && (Anc(p.graph, m, v) && t.effect != NoEffect ==> t.effect == Bufferable || t.mode == Tcc || t.compensated)
        && (Anc(p.graph, v, m) ==> t.retryable)
  {
    hide Calls, PivotOf, ListedIn, PivotsIn, Members, Anc, HasTool;
    TellCalls(p, reg);
    TellMembers(p, reg);
    if forall v, m, t :: PivotOf(p, reg, s, v) && ListedIn(p, s, m) && Calls(p, reg, m, t) ==>
        && (Anc(p.graph, m, v) && t.effect != NoEffect ==> t.effect == Bufferable || t.mode == Tcc || t.compensated)
        && (Anc(p.graph, v, m) ==> t.retryable) {
      forall v, m | v in PivotsIn(p, reg, s) && m in Members(p.scopes, s) ensures AroundPivot(p, reg, v, m) {
        if HasTool(p, reg, m) { assert Calls(p, reg, m, ToolOf(p, reg, m)); }
      }
    }
  }

  lemma R1R2Are(p: Proposal, reg: Registry)
    ensures (forall i :: 0 <= i < |p.scopes| ==> Around(p, reg, p.scopes[i].id)) <==> R1(p, reg) && R2(p, reg)
  {
    hide Calls, PivotOf, ListedIn, Anc, Around;
    forall s
      ensures Around(p, reg, s) <==>
        forall v, m, t :: PivotOf(p, reg, s, v) && ListedIn(p, s, m) && Calls(p, reg, m, t) ==>
          && (Anc(p.graph, m, v) && t.effect != NoEffect ==> t.effect == Bufferable || t.mode == Tcc || t.compensated)
          && (Anc(p.graph, v, m) ==> t.retryable)
    {
      AroundIs(p, reg, s);
    }
    if R1(p, reg) && R2(p, reg) {
      forall i | 0 <= i < |p.scopes| ensures Around(p, reg, p.scopes[i].id) { assert Declared(p, p.scopes[i].id); }
    }
  }

  lemma TouchIs(p: Proposal, reg: Registry, v: Name, a: Name)
    ensures MustBeInside(p, reg, v, a) <==> Touch(p, reg, v, a)
  {
    hide Calls;
    TellCalls(p, reg);
    if HasTool(p, reg, v) && HasTool(p, reg, a) {
      Meet(ToolOf(p, reg, v).footprint, ToolOf(p, reg, a).footprint);
      assert Calls(p, reg, v, ToolOf(p, reg, v)) && Calls(p, reg, a, ToolOf(p, reg, a));
    }
  }

  lemma InsideIs(p: Proposal, reg: Registry, s: Name)
    ensures Inside(p, reg, s) <==>
      forall v, a :: ListedIn(p, s, v) && Anc(p.graph, a, v) && Touch(p, reg, v, a) ==> ListedIn(p, s, a)
  {
    hide ListedIn, Members, Anc, Touch;
    TellMembers(p, reg);
    forall v, a ensures MustBeInside(p, reg, v, a) <==> Touch(p, reg, v, a) { TouchIs(p, reg, v, a); }
  }

  lemma Meet(a: set<Name>, b: set<Name>)
    ensures a * b != {} <==> exists x :: x in a && x in b
  {
    if x :| x in a && x in b { assert x in a * b; }
  }

  lemma R11Is(p: Proposal, reg: Registry)
    ensures (forall i :: 0 <= i < |p.scopes| ==> Inside(p, reg, p.scopes[i].id)) <==> R11(p, reg)
  {
    hide ListedIn, Anc, Inside, Touch;
    forall s
      ensures Inside(p, reg, s) <==>
        forall v, a :: ListedIn(p, s, v) && Anc(p.graph, a, v) && Touch(p, reg, v, a) ==> ListedIn(p, s, a)
    {
      InsideIs(p, reg, s);
    }
    if R11(p, reg) {
      forall i | 0 <= i < |p.scopes| ensures Inside(p, reg, p.scopes[i].id) { assert Declared(p, p.scopes[i].id); }
    }
  }

  lemma R5Is(p: Proposal, reg: Registry)
    ensures AllGuarded(p, reg) <==> R5(p, reg)
  {
    hide CallsIrreversible, IsPivot, Anc;
    TellPivots(p, reg);
    assert forall g, a, b :: GuardedBy(p, g, a, b) <==> Gate(p, g, a, b);
    hide GuardedBy, Gate;
  }

  lemma R7Is(p: Proposal, reg: Registry)
    ensures AllConfirmed(p, reg) <==> R7(p, reg)
  {
    hide Calls;
    TellCalls(p, reg);
    forall v
      ensures (exists t :: Calls(p, reg, v, t) && t.effect == NoEffect) <==>
        HasTool(p, reg, v) && ToolOf(p, reg, v).effect == NoEffect
    {
      if HasTool(p, reg, v) && ToolOf(p, reg, v).effect == NoEffect { assert Calls(p, reg, v, ToolOf(p, reg, v)); }
    }
    if R7(p, reg) {
      forall c, v | c in p.graph && v in p.graph[c].parents && v in p.graph ensures EdgeConfirmed(p, reg, v, c) { }
    }
    if AllConfirmed(p, reg) {
      forall c, v | c in p.graph && v in p.graph[c].parents && v in p.graph && p.graph[v].kind == ToolKind
          && p.graph[v].scope.Some? && p.graph[c].scope.Some? && p.graph[v].scope != p.graph[c].scope
          && !p.graph[v].confirmedOutput
        ensures exists t :: Calls(p, reg, v, t) && t.effect == NoEffect
      {
        assert EdgeConfirmed(p, reg, v, c);
      }
    }
  }

  lemma R8Is(p: Proposal, reg: Registry)
    ensures NoReadsAfterPivot(p, reg) <==> R8(p, reg)
  {
    hide Calls, CallsIrreversible, Anc;
    TellCalls(p, reg);
    TellPivots(p, reg);
    if R8(p, reg) {
      forall v, d, x | ReadsOnly(p, reg, v, d) && Anc(p.graph, v, d) ensures !Anc(p.graph, d, x) {
        assert Calls(p, reg, d, ToolOf(p, reg, d));
      }
    }
    if NoReadsAfterPivot(p, reg) {
      forall v, d, x, t | CallsIrreversible(p, reg, v) && Calls(p, reg, d, t) && t.effect == NoEffect
          && Anc(p.graph, v, d) && p.graph[d].scope == p.graph[v].scope
        ensures !Anc(p.graph, d, x)
      {
        assert ReadsOnly(p, reg, v, d);
      }
    }
  }

  lemma ApartIs(p: Proposal, reg: Registry, a: Name, b: Name)
    ensures WritersFit(p, reg, a, b) <==> Apart(p, reg, a, b)
  {
    hide CallsIrreversible, IsPivot, Anc;
    TellPivots(p, reg);
    assert forall r :: Related(p, reg, r, a, b) <==> PivotNear(p, reg, r, a, b);
    hide Related, PivotNear;
    assert forall g :: Separated(p, reg, g, a, b) <==> Wall(p, reg, g, a, b);
    hide Separated, Wall;
  }

  lemma CollideIs(p: Proposal, reg: Registry, a: Name, b: Name)
    ensures Collide(p, reg, a, b) <==>
      exists t, u :: Calls(p, reg, a, t) && Calls(p, reg, b, u) && exists x :: x in t.writes && x in u.writes
  {
    hide Calls;
    TellCalls(p, reg);
    if HasTool(p, reg, a) && HasTool(p, reg, b) {
      Meet(ToolOf(p, reg, a).writes, ToolOf(p, reg, b).writes);
      assert Calls(p, reg, a, ToolOf(p, reg, a)) && Calls(p, reg, b, ToolOf(p, reg, b));
    }
  }

  lemma R9Is(p: Proposal, reg: Registry)
    ensures AllSeparated(p, reg) <==> R9(p, reg)
  {
    hide Collide, WritersFit, Calls, Apart;
    forall a, b ensures WritersFit(p, reg, a, b) <==> Apart(p, reg, a, b) { ApartIs(p, reg, a, b); }
    forall a, b
      ensures Collide(p, reg, a, b) <==>
        exists t, u :: Calls(p, reg, a, t) && Calls(p, reg, b, u) && exists x :: x in t.writes && x in u.writes
    {
      CollideIs(p, reg, a, b);
    }
    if AllSeparated(p, reg) {
      forall a, b, t, u | Calls(p, reg, a, t) && Calls(p, reg, b, u) && a != b
          && (exists x :: x in t.writes && x in u.writes)
        ensures Apart(p, reg, a, b)
      {
        assert Collide(p, reg, a, b);
      }
    }
    if R9(p, reg) {
      forall a, b | Collide(p, reg, a, b) && a != b ensures WritersFit(p, reg, a, b) {
        assert Apart(p, reg, a, b);
      }
    }
  }

  lemma {:induction false} ExistingIs(existing: seq<Snapshot>, s: Name, k: int)
    ensures HeldAt(existing, s, k) ==> Existing(existing, s) == Some(existing[k])
  {
    if existing != [] && existing[0].id != s && HeldAt(existing, s, k) {
      assert forall j :: 0 <= j < |existing| - 1 ==> existing[1..][j] == existing[j + 1];
      assert HeldAt(existing[1..], s, k - 1);
      ExistingIs(existing[1..], s, k - 1);
    }
  }

  lemma {:induction false} ExistingAt(existing: seq<Snapshot>, s: Name)
    requires Existing(existing, s).Some?
    ensures exists k :: HeldAt(existing, s, k)
  {
    if existing[0].id == s {
      assert HeldAt(existing, s, 0);
    } else {
      ExistingAt(existing[1..], s);
      var k :| HeldAt(existing[1..], s, k);
      assert forall j :: 0 < j < |existing| ==> existing[j] == existing[1..][j - 1];
      assert HeldAt(existing, s, k + 1);
    }
  }

  /** What the rules across freezes ask of one scope. */
  ghost predicate Fresh(p: Proposal, reg: Registry, existing: seq<Snapshot>, s: Name) {
    && ((exists j :: 0 <= j < |existing| && existing[j].halfOpen) ==> exists k :: HeldAt(existing, s, k))
    && forall k :: HeldAt(existing, s, k) ==>
      existing[k].pivotCount <= 1 && (existing[k].pivotCount == 1 ==> forall v :: !PivotOf(p, reg, s, v))
  }

  lemma PlacedIs(p: Proposal, reg: Registry, existing: seq<Snapshot>, s: Name)
    requires OnePivot(p, reg, s)
    ensures Placed(p, reg, existing, s) <==> Fresh(p, reg, existing, s)
  {
    hide PivotsIn, PivotOf, Existing;
    TellMembers(p, reg);
    var pivots := PivotsIn(p, reg, s);
    assert |pivots| == 0 <==> forall v :: !PivotOf(p, reg, s, v);
    forall k ensures HeldAt(existing, s, k) ==> Existing(existing, s) == Some(existing[k]) {
      ExistingIs(existing, s, k);
    }
    if Existing(existing, s).Some? {
      ExistingAt(existing, s);
      var k :| HeldAt(existing, s, k);
    }
  }

  lemma AcrossIs(p: Proposal, reg: Registry, existing: seq<Snapshot>)
    requires R3(p, reg)
    ensures AllPlaced(p, reg, existing) <==> AcrossFreezes(p, reg, existing)
  {
    hide OnePivot, Placed, Fresh, PivotOf, HeldAt;
    R3Is(p, reg);
    forall s | Declared(p, s) ensures Placed(p, reg, existing, s) <==> Fresh(p, reg, existing, s) {
      PlacedIs(p, reg, existing, s);
    }
    AcrossFresh(p, reg, existing);
    if HasRouter(p) {
      if AllPlaced(p, reg, existing) {
        forall s | Declared(p, s) ensures Fresh(p, reg, existing, s) { }
      }
      if forall s :: Declared(p, s) ==> Fresh(p, reg, existing, s) {
        forall i | 0 <= i < |p.scopes| ensures Placed(p, reg, existing, p.scopes[i].id) {
          assert Declared(p, p.scopes[i].id);
        }
      }
    }
  }

  lemma AcrossFresh(p: Proposal, reg: Registry, existing: seq<Snapshot>)
    ensures AcrossFreezes(p, reg, existing) <==>
      (HasRouter(p) ==> forall s :: Declared(p, s) ==> Fresh(p, reg, existing, s))
  {
  }

  lemma ScopesFit(p: Proposal, reg: Registry)
    ensures (forall i :: 0 <= i < |p.scopes| ==> ScopeFits(p, reg, p.scopes[i].id)) <==>
      R1(p, reg) && R2(p, reg) && R3(p, reg) && R11(p, reg)
  {
    hide OnePivot, Around, Inside, R1, R2, R3, R11;
    R1R2Are(p, reg);
    R3Is(p, reg);
    R11Is(p, reg);
    forall s ensures ScopeFits(p, reg, s) <==> OnePivot(p, reg, s) && Around(p, reg, s) && Inside(p, reg, s) {
      ScopeFitsIs(p, reg, s);
    }
    hide ScopeFits;
  }

  lemma ScopeFitsIs(p: Proposal, reg: Registry, s: Name)
    ensures ScopeFits(p, reg, s) <==> OnePivot(p, reg, s) && Around(p, reg, s) && Inside(p, reg, s)
  {
    hide OnePivot, PivotsIn, Members, AroundPivot, MustBeInside, Anc;
  }

  /** The rules the checker computes are the rules in plain terms, for every proposal, registry and held scope. */
  lemma RulesExactly(p: Proposal, reg: Registry, existing: seq<Snapshot>)
    ensures OtherRules(p, reg, existing) && AllRouted(p) <==> PlainRules(p, reg, existing)
  {
    hide EffectScoped, ScopeFits, AllPlaced, AllGuarded, AllConfirmed, NoReadsAfterPivot, AllSeparated;
    hide R1, R2, R3, R5, R7, R8, R9, R10, R11, AcrossFreezes;
    R10Is(p, reg);
    ScopesFit(p, reg);
    if R3(p, reg) { AcrossIs(p, reg, existing); }
    R5Is(p, reg);
    R7Is(p, reg);
    R8Is(p, reg);
    R9Is(p, reg);
    assert (forall id :: id in p.graph ==> Unscoped(p, id)) <==> R12(p);
    assert AllRouted(p) <==> R14(p);
  }
}
