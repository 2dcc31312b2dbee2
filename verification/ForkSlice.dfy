/**
 A lazy causal fork: which events of a run a counterfactual inherits, and what a planner sees
 of them. With a substitution, everything caused by the divergence vertex is left behind.
 */
module ForkSlice {
  import opened EventLog
  import opened CausalGraph

  /* ---------------------------------------------------------------- which events */

  function VertexOf(b: Body): (v: Option<Id>) {
    match b
    case Created(v, _, _, _) => Some(v)
    case Started(v, _, _) => Some(v)
    case Succeeded(v, _, _) => Some(v)
    case Failed(v, _, _) => Some(v)
    case Retried(v) => Some(v)
    case Try(v, _, _) => Some(v)
    case Confirm(v, _, _) => Some(v)
    case PivotPassed(v, _) => Some(v)
    case _ => None
  }

  predicate IsExecution(b: Body) { b.Started? || b.Succeeded? || b.Failed? || b.Retried? }

  function ParentRefs(b: Body): (ps: seq<Id>) { if b.Created? then b.parents else [] }

  /** Its cause changed: it belongs below the divergence vertex, or is that vertex's own execution. */
  predicate Caused(e: Event, at: Id, below: set<Id>) {
    || (VertexOf(e.body).Some? && VertexOf(e.body).value in below)
    || (VertexOf(e.body) == Some(at) && IsExecution(e.body))
    || exists p :: p in ParentRefs(e.body) && (p == at || p in below)
  }

  function Window(source: Log, upTo: nat): (w: Log) {
    if source == [] then []
    else
      var last := source[|source| - 1];
      Window(source[..|source| - 1], upTo) + if last.runSeq <= upTo then [last] else []
  }

  /** The events of a log that satisfy a test, in order. */
  function Kept(log: Log, keep: Event -> bool): (r: Log) {
    if log == [] then [] else Kept(log[..|log| - 1], keep) + if keep(log[|log| - 1]) then [log[|log| - 1]] else []
  }

  function FirstCreated(log: Log, v: Id, n: nat): (r: Option<nat>)
    requires n <= |log|
    decreases |log| - n
  {
    if n == |log| then None else if log[n].body.Created? && log[n].body.vertex == v then Some(log[n].runSeq)
      else FirstCreated(log, v, n + 1)
  }

  datatype Slice = Slice(seed: Log, independent: Log, invalidated: Log, divergence: nat)

  datatype Problem = NotCreated | Repeated | NotPinnedHere | NamesInvalidated

  datatype Result = Refused(problem: Problem) | Sliced(slice: Slice)

  /** A pinned event of the divergence vertex. */
  predicate Substitutable(window: Log, pinned: set<nat>, at: Id, q: nat) {
    q in pinned && exists i :: 0 <= i < |window| && window[i].runSeq == q && VertexOf(window[i].body) == Some(at)
  }

  ghost function Lost(window: Log, at: Id, substitutions: seq<nat>): (r: Event -> bool) {
    var below := Descendants(window, at);
    e => substitutions != [] && Caused(e, at, below)
  }

  ghost predicate IsSlice(window: Log, at: Id, substitutions: seq<nat>, s: Slice) {
    var lost := Lost(window, at, substitutions);
    && FirstCreated(window, at, 0) == Some(s.divergence)
    && s.invalidated == Kept(window, lost)
    && s.seed == Kept(window, e => !lost(e) && e.runSeq <= s.divergence)
    && s.independent == Kept(window, e => !lost(e) && e.runSeq > s.divergence)
  }

  predicate NoRepeat(q: seq<nat>) { forall i, j :: 0 <= i < j < |q| ==> q[i] != q[j] }

  method FindCreated(window: Log, at: Id) returns (r: Option<nat>)
    ensures r == FirstCreated(window, at, 0)
  {
    for i := 0 to |window|
      invariant FirstCreated(window, at, 0) == FirstCreated(window, at, i)
    {
      if window[i].body.Created? && window[i].body.vertex == at { return Some(window[i].runSeq); }
    }
    return None;
  }

  method Partition(window: Log, at: Id, substitutions: seq<nat>, divergence: nat) returns (s: Slice)
    requires FirstCreated(window, at, 0) == Some(divergence)
    ensures IsSlice(window, at, substitutions, s)
  {
    var below: set<Id> := {};
    if substitutions != [] { below := CausalDescendants(window, at); }
    var seed, independent, invalidated: Log := [], [], [];
    ghost var lost := Lost(window, at, substitutions);
    for n := 0 to |window|
      invariant invalidated == Kept(window[..n], lost)
      invariant seed == Kept(window[..n], e => !lost(e) && e.runSeq <= divergence)
      invariant independent == Kept(window[..n], e => !lost(e) && e.runSeq > divergence)
    {
      var e := window[n];
      assert window[..n + 1][..n] == window[..n];
      if substitutions != [] && Caused(e, at, below) {
        invalidated := invalidated + [e];
      } else if e.runSeq <= divergence {
        seed := seed + [e];
      } else {
        independent := independent + [e];
      }
    }
    assert window[..|window|] == window;
    s := Slice(seed, independent, invalidated, divergence);
  }

  /** No substituted event is among those whose cause changed. */
  ghost predicate Survive(window: Log, at: Id, substitutions: seq<nat>) {
    forall i :: 0 <= i < |window| && window[i].runSeq in substitutions ==> !Lost(window, at, substitutions)(window[i])
  }

  ghost predicate AllSubstitutable(window: Log, pinned: set<nat>, at: Id, substitutions: seq<nat>) {
    forall q :: q in substitutions ==> Substitutable(window, pinned, at, q)
  }

  /** The first objection to a fork, in the order they are raised; none exactly when it may be cut. */
  ghost function Objection(window: Log, pinned: set<nat>, at: Id, substitutions: seq<nat>): (p: Option<Problem>) {
    if FirstCreated(window, at, 0).None? then Some(NotCreated)
    else if !NoRepeat(substitutions) then Some(Repeated)
    else if !AllSubstitutable(window, pinned, at, substitutions) then Some(NotPinnedHere)
    else if !Survive(window, at, substitutions) then Some(NamesInvalidated)
    else None
  }

  /** The slice, or the first objection to it. */
  method ComputeForkSlice(source: Log, pinned: set<nat>, at: Id, substitutions: seq<nat>, upTo: nat) returns (r: Result)
    ensures var objection := Objection(Window(source, upTo), pinned, at, substitutions);
      if objection.Some? then r == Refused(objection.value)
      else r.Sliced? && IsSlice(Window(source, upTo), at, substitutions, r.slice)
  {
    var window := Window(source, upTo);
    var divergence := FindCreated(window, at);
    if divergence.None? { return Refused(NotCreated); }
    if !NoRepeat(substitutions) { return Refused(Repeated); }
    for i := 0 to |substitutions|
      invariant forall k :: 0 <= k < i ==> Substitutable(window, pinned, at, substitutions[k])
    {
      if !Substitutable(window, pinned, at, substitutions[i]) {
        assert substitutions[i] in substitutions;
        return Refused(NotPinnedHere);
      }
    }
    assert AllSubstitutable(window, pinned, at, substitutions);
    var s := Partition(window, at, substitutions, divergence.value);
    KeptIs(window, Lost(window, at, substitutions));
    for i := 0 to |substitutions|
      invariant forall k, j :: 0 <= k < i && 0 <= j < |s.invalidated| ==> s.invalidated[j].runSeq != substitutions[k]
    {
      if exists j :: 0 <= j < |s.invalidated| && s.invalidated[j].runSeq == substitutions[i] {
        ghost var j :| 0 <= j < |s.invalidated| && s.invalidated[j].runSeq == substitutions[i];
        assert s.invalidated[j] in s.invalidated && substitutions[i] in substitutions;
        return Refused(NamesInvalidated);
      }
    }
    forall i | 0 <= i < |window| && window[i].runSeq in substitutions
      ensures !Lost(window, at, substitutions)(window[i]) {
      var k :| 0 <= k < |substitutions| && substitutions[k] == window[i].runSeq;
      assert forall j :: 0 <= j < |s.invalidated| ==> s.invalidated[j].runSeq != substitutions[k];
      assert window[i] in window && window[i] !in s.invalidated;
    }
    return Sliced(s);
  }

  /* ---------------------------------------------------------------- a partition */

  lemma {:induction false} KeptIs(log: Log, keep: Event -> bool)
    ensures forall e :: e in Kept(log, keep) <==> e in log && keep(e)
  {
    if log != [] {
      KeptIs(log[..|log| - 1], keep);
      assert log == log[..|log| - 1] + [log[|log| - 1]];
    }
  }

  lemma {:induction false} KeptLast(log: Log, keep: Event -> bool)
    requires log != []
    ensures Kept(log, keep) == if keep(log[|log| - 1]) then Kept(log[..|log| - 1], keep) + [log[|log| - 1]]
      else Kept(log[..|log| - 1], keep)
  {
    assert Kept(log[..|log| - 1], keep) + [] == Kept(log[..|log| - 1], keep);
  }

  lemma {:induction false} KeptSplits(log: Log, a: Event -> bool, b: Event -> bool, c: Event -> bool)
    requires forall e :: (a(e) || b(e) || c(e)) && !(a(e) && b(e)) && !(a(e) && c(e)) && !(b(e) && c(e))
    ensures |Kept(log, a)| + |Kept(log, b)| + |Kept(log, c)| == |log|
  {
    if log != [] {
      KeptSplits(log[..|log| - 1], a, b, c);
      KeptLast(log, a);
      KeptLast(log, b);
      KeptLast(log, c);
      hide Kept;
    }
  }

  lemma {:induction false} KeptAscends(log: Log, keep: Event -> bool)
    requires Numbered(log)
    ensures Numbered(Kept(log, keep))
  {
    if log != [] {
      var n := |log| - 1;
      NumberedPrefix(log, n);
      KeptAscends(log[..n], keep);
      KeptLast(log, keep);
      KeptIs(log[..n], keep);
      hide Kept;
      var r := Kept(log[..n], keep);
      forall i | 0 <= i < |r| ensures r[i].runSeq < log[n].runSeq {
        assert r[i] in log[..n];
        var j :| 0 <= j < n && log[..n][j] == r[i];
        assert log[j] == r[i];
      }
    }
  }

  /** Seed, independent and invalidated hold every event of the window once, each in the window's order. */
  lemma SliceIsPartition(window: Log, at: Id, substitutions: seq<nat>, s: Slice)
    requires Numbered(window) && IsSlice(window, at, substitutions, s)
    ensures |s.seed| + |s.independent| + |s.invalidated| == |window|
    ensures forall e :: e in window <==> e in s.seed || e in s.independent || e in s.invalidated
    ensures forall e ::
      !(e in s.seed && e in s.independent) && !(e in s.seed && e in s.invalidated)
        && !(e in s.independent && e in s.invalidated)
    ensures Numbered(s.seed) && Numbered(s.independent) && Numbered(s.invalidated)
    ensures forall i, j :: 0 <= i < |s.seed| && 0 <= j < |s.independent| ==> s.seed[i].runSeq < s.independent[j].runSeq
  {
    var lost := Lost(window, at, substitutions);
    var a, b := (e: Event) => !lost(e) && e.runSeq <= s.divergence, (e: Event) => !lost(e) && e.runSeq > s.divergence;
    KeptSame(window, e => !lost(e) && e.runSeq <= s.divergence, a);
    KeptSame(window, e => !lost(e) && e.runSeq > s.divergence, b);
    hide Kept, Lost;
    KeptSplits(window, a, b, lost);
    KeptAscends(window, a);
    KeptAscends(window, b);
    KeptAscends(window, lost);
    KeptIs(window, a);
    KeptIs(window, b);
    KeptIs(window, lost);
    forall i, j | 0 <= i < |s.seed| && 0 <= j < |s.independent| ensures s.seed[i].runSeq < s.independent[j].runSeq {
      assert s.seed[i] in s.seed && s.independent[j] in s.independent;
    }
  }

  lemma {:induction false} KeptSame(log: Log, a: Event -> bool, b: Event -> bool)
    requires forall e :: a(e) == b(e)
    ensures Kept(log, a) == Kept(log, b)
  {
    if log != [] { KeptSame(log[..|log| - 1], a, b); }
  }

  /** What the fork inherits, seed first, is the window without what was invalidated. */
  lemma {:induction false} InheritedIs(window: Log, at: Id, substitutions: seq<nat>, s: Slice)
    requires Numbered(window) && IsSlice(window, at, substitutions, s)
    ensures s.seed + s.independent == Kept(window, e => !Lost(window, at, substitutions)(e))
  {
    var lost := Lost(window, at, substitutions);
    KeptConcat(window, e => !lost(e), s.divergence);
    KeptSame(window, e => !lost(e) && e.runSeq <= s.divergence, e => (e => !lost(e))(e) && e.runSeq <= s.divergence);
    KeptSame(window, e => !lost(e) && e.runSeq > s.divergence, e => (e => !lost(e))(e) && e.runSeq > s.divergence);
    KeptSame(window, e => !lost(e), e => !Lost(window, at, substitutions)(e));
  }

  lemma {:induction false} KeptConcat(log: Log, keep: Event -> bool, d: nat)
    requires Numbered(log)
    ensures Kept(log, e => keep(e) && e.runSeq <= d) + Kept(log, e => keep(e) && e.runSeq > d) == Kept(log, keep)
  {
    if log != [] {
      var n := |log| - 1;
      KeptConcat(log[..n], keep, d);
      if log[n].runSeq <= d { KeptNone(log[..n], keep, d); }
    }
  }

  lemma {:induction false} KeptNone(log: Log, keep: Event -> bool, d: nat)
    requires forall i :: 0 <= i < |log| ==> log[i].runSeq <= d
    ensures Kept(log, e => keep(e) && e.runSeq > d) == []
  {
    if log != [] { KeptNone(log[..|log| - 1], keep, d); }
  }

  /* ---------------------------------------------------------------- closed under ancestors */

  /** A creation is left behind exactly when its vertex is below the divergence vertex. */
  lemma CreatedLostIff(window: Log, at: Id, i: nat)
    requires i < |window| && window[i].body.Created?
    ensures Caused(window[i], at, Descendants(window, at)) <==> window[i].body.vertex in Descendants(window, at)
  {
    var v := window[i].body.vertex;
    var below := Descendants(window, at);
    if p :| p in window[i].body.parents && (p == at || p in below) {
      assert Edge(window, p, v);
      assert v in CreatedIds(window);
      assert Path(window, v, v, 0);
      assert Path(window, p, v, 1);
      if p == at {
        assert Below(window, at, v);
      } else {
        var n: nat :| n >= 1 && Path(window, at, p, n);
        PathSnoc(window, at, p, v, n);
        assert Below(window, at, v);
      }
    }
  }

  /** If a fork inherits a vertex, it inherits every ancestor of it that the window created. */
  lemma {:induction false} InheritedIsClosed(window: Log, at: Id, substitutions: seq<nat>, s: Slice, i: nat, j: nat,
      n: nat)
    requires Numbered(window) && IsSlice(window, at, substitutions, s)
    requires i < |window| && j < |window| && window[i].body.Created? && window[j].body.Created?
    requires Path(window, window[j].body.vertex, window[i].body.vertex, n) && window[i] in s.seed + s.independent
    ensures window[j] in s.seed + s.independent
  {
    InheritedIs(window, at, substitutions, s);
    KeptIs(window, e => !Lost(window, at, substitutions)(e));
    if substitutions != [] {
      CreatedLostIff(window, at, i);
      CreatedLostIff(window, at, j);
      var a, b := window[j].body.vertex, window[i].body.vertex;
      assert b in CreatedIds(window);
      if a in Descendants(window, at) {
        var m: nat :| m >= 1 && Path(window, at, a, m);
        PathJoin(window, at, a, b, m, n);
        assert Below(window, at, b);
      }
    }
  }

  lemma {:induction false} PathJoin(log: Log, a: Id, b: Id, c: Id, n: nat, m: nat)
    requires Path(log, a, b, n) && Path(log, b, c, m)
    ensures Path(log, a, c, n + m)
    decreases n
  {
    if n > 0 {
      var x :| Edge(log, a, x) && Path(log, x, b, n - 1);
      PathJoin(log, x, b, c, n - 1, m);
    }
  }

  /* ---------------------------------------------------------------- the planner's surface */

  datatype Status = NotRun | Started | Succeeded | Failed | Retried

  datatype View = View(parents: seq<Id>, role: Role, createdSeq: nat, status: Status, matched: Option<nat>)

  function StatusOf(b: Body): (s: Status) {
    if b.Started? then Status.Started else if b.Succeeded? then Status.Succeeded else if b.Failed? then Status.Failed
    else if b.Retried? then Status.Retried else NotRun
  }

  /** The condition a vertex is known by after one more event: only a success that speaks of it changes it. */
  function MatchAfter(before: Option<nat>, b: Body): (m: Option<nat>) {
    if !b.Succeeded? || b.told.Unsaid? then before else if b.told.Matched? then Some(b.told.condition) else None
  }

  /** What one more event changes about a vertex. */
  function See(before: Option<View>, e: Event, v: Id): (r: Option<View>) {
    if VertexOf(e.body) != Some(v) then before
    else if e.body.Created? then Some(View(e.body.parents, e.body.role, e.runSeq, NotRun, None))
    else if IsExecution(e.body) && before.Some?
      then Some(before.value.(status := StatusOf(e.body), matched := MatchAfter(before.value.matched, e.body)))
    else before
  }

  /** What the log says of one vertex, whether or not it was discarded later. */
  function ViewOf(log: Log, v: Id): (r: Option<View>) {
    if log == [] then None else See(ViewOf(log[..|log| - 1], v), log[|log| - 1], v)
  }

  lemma {:induction false} ViewAppend(log: Log, e: Event, v: Id)
    ensures ViewOf(log + [e], v) == See(ViewOf(log, v), e, v)
  {
    assert (log + [e])[..|log|] == log;
  }

  ghost predicate IsSurface(log: Log, vertices: map<Id, View>) {
    forall v :: (v in vertices <==> ViewOf(log, v).Some? && v !in Hidden(log))
      && (v in vertices ==> ViewOf(log, v) == Some(vertices[v]))
  }

  /** The fold: a map of vertices edited in place, and the discarded ones removed at the end. */
  method Surface(log: Log) returns (vertices: map<Id, View>)
    ensures IsSurface(log, vertices)
  {
    vertices := map[];
    var shadowed: set<Id> := {};
    for n := 0 to |log|
      invariant forall v :: (v in vertices <==> ViewOf(log[..n], v).Some?) && (v in vertices ==>
        ViewOf(log[..n], v) == Some(vertices[v]))
      invariant shadowed == Hidden(log[..n])
    {
      var e := log[n];
      assert log[..n + 1][..n] == log[..n];
      if e.body.Created? {
        vertices := vertices[e.body.vertex := View(e.body.parents, e.body.role, e.runSeq, NotRun, None)];
      }
      if e.body.Shadowed? {
        shadowed := shadowed + e.body.hidden;
      }
      if IsExecution(e.body) && e.body.vertex in vertices {
        var v := e.body.vertex;
        vertices := vertices[v := vertices[v].(status := StatusOf(e.body),
          matched := MatchAfter(vertices[v].matched, e.body))];
      }
    }
    assert log[..|log|] == log;
    vertices := map v | v in vertices && v !in shadowed :: vertices[v];
  }

  lemma SeeOther(before: Option<View>, e: Event, v: Id)
    ensures VertexOf(e.body) != Some(v) ==> See(before, e, v) == before
  {
  }

  lemma SeeUnrun(a: Option<View>, b: Option<View>, e: Event, v: Id)
    requires (a.Some? <==> b.Some?) && (a.Some? ==> b == Some(a.value.(status := NotRun, matched := None)))
    ensures var x := See(a, e, v); var y := if VertexOf(e.body) == Some(v) && IsExecution(e.body) then b
      else See(b, e, v);
      && (x.Some? <==> y.Some?) && (x.Some? ==> y == Some(x.value.(status := NotRun, matched := None)))
    ensures VertexOf(e.body) != Some(v) ==> See(b, e, v) == b
  {
  }

  lemma {:induction false} KeptView(log: Log, keep: Event -> bool, v: Id)
    requires forall i :: 0 <= i < |log| && VertexOf(log[i].body) == Some(v) ==> keep(log[i])
    ensures ViewOf(Kept(log, keep), v) == ViewOf(log, v)
  {
    if log != [] {
      var n := |log| - 1;
      assert forall i :: 0 <= i < n ==> log[..n][i] == log[i];
      KeptView(log[..n], keep, v);
      KeptLast(log, keep);
      hide See, ViewOf, Kept;
      ViewAppend(Kept(log[..n], keep), log[n], v);
      ViewAppend(log[..n], log[n], v);
      assert log == log[..n] + [log[n]];
      SeeOther(ViewOf(log[..n], v), log[n], v);
      SeeOther(None, log[n], v);
    }
  }

  lemma {:induction false} KeptNoView(log: Log, keep: Event -> bool, v: Id)
    requires forall i :: 0 <= i < |log| && VertexOf(log[i].body) == Some(v) ==> !keep(log[i])
    ensures ViewOf(Kept(log, keep), v) == None
  {
    if log != [] {
      var n := |log| - 1;
      assert forall i :: 0 <= i < n ==> log[..n][i] == log[i];
      KeptNoView(log[..n], keep, v);
      KeptLast(log, keep);
      hide See, ViewOf, Kept;
      ViewAppend(Kept(log[..n], keep), log[n], v);
      ViewAppend(log[..n], log[n], v);
      assert log == log[..n] + [log[n]];
      SeeOther(ViewOf(log[..n], v), log[n], v);
      SeeOther(None, log[n], v);
    }
  }

  /** The divergence vertex as it stood when created: nothing of its execution is kept. */
  lemma {:induction false} KeptUnrun(log: Log, keep: Event -> bool, v: Id)
    requires forall i :: 0 <= i < |log| && VertexOf(log[i].body) == Some(v) ==>
      (keep(log[i]) <==> !IsExecution(log[i].body))
    ensures ViewOf(log, v).Some? <==> ViewOf(Kept(log, keep), v).Some?
    ensures ViewOf(log, v).Some?
      ==> ViewOf(Kept(log, keep), v) == Some(ViewOf(log, v).value.(status := NotRun, matched := None))
  {
    if log != [] {
      var n := |log| - 1;
      assert forall i :: 0 <= i < n ==> log[..n][i] == log[i];
      KeptUnrun(log[..n], keep, v);
      KeptLast(log, keep);
      hide See, ViewOf, Kept;
      ViewAppend(Kept(log[..n], keep), log[n], v);
      ViewAppend(log[..n], log[n], v);
      assert log == log[..n] + [log[n]];
      SeeUnrun(ViewOf(log[..n], v), ViewOf(Kept(log[..n], keep), v), log[n], v);
    }
  }

  lemma {:induction false} KeptHidden(log: Log, keep: Event -> bool)
    requires forall i :: 0 <= i < |log| && log[i].body.Shadowed? ==> keep(log[i])
    ensures Hidden(Kept(log, keep)) == Hidden(log)
  {
    if log != [] {
      var n := |log| - 1;
      assert forall i :: 0 <= i < n ==> log[..n][i] == log[i];
      KeptHidden(log[..n], keep);
      KeptLast(log, keep);
      hide Hidden, Kept;
      AppendOne(Kept(log[..n], keep), log[n]);
      AppendOne(log[..n], log[n]);
      assert log == log[..n] + [log[n]];
    }
  }

  /**
   What a planner sees of the inherited events: with no substitution, what it saw of the
   source; with one, the same without the vertices below the divergence vertex, which itself
   is back to not having run.
   */
  lemma ForkSurface(window: Log, at: Id, substitutions: seq<nat>, s: Slice, before: map<Id, View>, after: map<Id, View>)
    requires Numbered(window) && IsSlice(window, at, substitutions, s) && at !in Descendants(window, at)
    requires IsSurface(window, before) && IsSurface(s.seed + s.independent, after)
    ensures substitutions == [] ==> after == before
    ensures substitutions != [] ==> after.Keys == before.Keys - Descendants(window, at)
    ensures substitutions != [] ==> forall v :: v in after && v != at ==> after[v] == before[v]
    ensures substitutions != [] && at in after ==> after[at] == before[at].(status := NotRun, matched := None)
  {
    hide ViewOf, Hidden, Kept, Descendants, Numbered, IsSlice;
    var lost := Lost(window, at, substitutions);
    var keep := (e: Event) => !lost(e);
    var below := Descendants(window, at);
    InheritedIs(window, at, substitutions, s);
    KeptSame(window, keep, e => !Lost(window, at, substitutions)(e));
    KeptHidden(window, keep);
    forall v ensures ViewOf(Kept(window, keep), v) ==
        if substitutions == [] then ViewOf(window, v) else if v in below then None
        else if v == at && ViewOf(window, v).Some?
          then Some(ViewOf(window, v).value.(status := NotRun, matched := None)) else ViewOf(window, v)
    {
      ForkView(window, at, substitutions, v);
    }
    assert forall v :: v in before <==> ViewOf(window, v).Some? && v !in Hidden(window);
    assert forall v :: v in after <==> ViewOf(Kept(window, keep), v).Some? && v !in Hidden(window);
  }

  lemma ForkView(window: Log, at: Id, substitutions: seq<nat>, v: Id)
    requires at !in Descendants(window, at)
    ensures var lost := Lost(window, at, substitutions); var keep := (e: Event) => !lost(e);
      ViewOf(Kept(window, keep), v) ==
        if substitutions == [] then ViewOf(window, v) else if v in Descendants(window, at) then None
        else if v == at && ViewOf(window, v).Some?
          then Some(ViewOf(window, v).value.(status := NotRun, matched := None)) else ViewOf(window, v)
  {
    var lost := Lost(window, at, substitutions);
    var keep := (e: Event) => !lost(e);
    var below := Descendants(window, at);
    forall i | 0 <= i < |window| && substitutions != [] && VertexOf(window[i].body) == Some(v)
      ensures lost(window[i]) <==> v in below || (v == at && IsExecution(window[i].body))
    {
      if window[i].body.Created? { CreatedLostIff(window, at, i); }
    }
    if substitutions == [] || (v !in below && v != at) {
      KeptView(window, keep, v);
    } else if v in below {
      KeptNoView(window, keep, v);
    } else {
      KeptUnrun(window, keep, v);
    }
  }
}
