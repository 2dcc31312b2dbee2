/**
 The causal graph of a run, walked in both directions.

 `causalDescendants` walks down from a boundary with a worklist; `ancestorPlanners`
 walks up from a failure breadth first. The two are separately written, and recovery
 is only right because they see the same graph: a planner found above a failure is
 one whose discard set contains that failure.
 */
module CausalGraph {
  import opened EventLog
  import Sorting

  /** `b` was created with `a` among its parents. */
  ghost predicate Edge(log: Log, a: Id, b: Id) {
    exists i :: 0 <= i < |log| && log[i].body.Created? && log[i].body.vertex == b && a in log[i].body.parents
  }

  /** There is a causal path of exactly `n` edges from `a` down to `b`. */
  ghost predicate Path(log: Log, a: Id, b: Id, n: nat)
    decreases n
  {
    if n == 0 then a == b else exists c :: Edge(log, a, c) && Path(log, c, b, n - 1)
  }

  ghost predicate Below(log: Log, a: Id, b: Id) {
    exists n: nat :: n >= 1 && Path(log, a, b, n)
  }

  function CreatedIds(log: Log): (ids: set<Id>) {
    set i | 0 <= i < |log| && log[i].body.Created? :: log[i].body.vertex
  }

  /** Every vertex strictly below `v`. */
  ghost function Descendants(log: Log, v: Id): (d: set<Id>) {
    set b | b in CreatedIds(log) && Below(log, v, b)
  }

  lemma EdgeCreates(log: Log, a: Id, b: Id)
    requires Edge(log, a, b)
    ensures b in CreatedIds(log)
  {
  }

  /** A path may also be split at its lower end. */
  lemma PathSnoc(log: Log, a: Id, c: Id, b: Id, n: nat)
    requires Path(log, a, c, n) && Edge(log, c, b)
    ensures Path(log, a, b, n + 1)
    decreases n
  {
    if n == 0 {
      assert Path(log, b, b, 0);
    } else {
      var m :| Edge(log, a, m) && Path(log, m, c, n - 1);
      PathSnoc(log, m, c, b, n - 1);
      assert Path(log, m, b, n);
    }
  }

  lemma PathUnsnoc(log: Log, a: Id, b: Id, n: nat) returns (c: Id)
    requires n >= 1 && Path(log, a, b, n)
    ensures Path(log, a, c, n - 1) && Edge(log, c, b)
    decreases n
  {
    var m :| Edge(log, a, m) && Path(log, m, b, n - 1);
    if n == 1 {
      c := a;
    } else {
      c := PathUnsnoc(log, m, b, n - 1);
    }
  }

  lemma BelowIsCreated(log: Log, a: Id, b: Id)
    requires Below(log, a, b)
    ensures b in CreatedIds(log)
  {
    var n: nat :| n >= 1 && Path(log, a, b, n);
    var c := PathUnsnoc(log, a, b, n);
    EdgeCreates(log, c, b);
  }

  /** With unique creation the edge into `b` is read off its own creation event. */
  lemma EdgeParents(log: Log, a: Id, b: Id)
    requires CreatedOnce(log)
    ensures Edge(log, a, b) <==> a in ParentsOf(log, b)
  {
    CreatedOfSome(log, b);
    if Edge(log, a, b) {
      var i :| 0 <= i < |log| && log[i].body.Created? && log[i].body.vertex == b && a in log[i].body.parents;
      CreatedOfAt(log, i);
    }
    if a in ParentsOf(log, b) {
      var i :| 0 <= i < |log| && log[i].body == CreatedOf(log, b).value;
      assert log[i].body.Created? && log[i].body.vertex == b;
    }
  }

  /* ---------------------------------------------------------------- the downward worklist */

  predicate Lists(children: map<Id, seq<Id>>, a: Id, b: Id) {
    a in children && b in children[a]
  }

  lemma EdgeStep(log: Log, n: nat, a: Id, b: Id)
    requires n < |log|
    ensures Edge(log[..n + 1], a, b) <==>
      Edge(log[..n], a, b) || (log[n].body.Created? && log[n].body.vertex == b && a in log[n].body.parents)
  {
    if Edge(log[..n], a, b) {
      var i :| 0 <= i < n && log[..n][i].body.Created? && log[..n][i].body.vertex == b && a in log[..n][i].body.parents;
      assert log[..n + 1][i].body == log[..n][i].body;
    }
    if Edge(log[..n + 1], a, b) {
      var i :| 0 <= i < n + 1 && log[..n + 1][i].body.Created? && log[..n + 1][i].body.vertex == b
        && a in log[..n + 1][i].body.parents;
      if i < n { assert log[..n][i].body == log[..n + 1][i].body; }
    }
    if log[n].body.Created? { assert log[..n + 1][n] == log[n]; }
  }

  method AddChild(children: map<Id, seq<Id>>, parents: seq<Id>, child: Id) returns (r: map<Id, seq<Id>>)
    ensures forall a, b :: Lists(r, a, b) <==> Lists(children, a, b) || (b == child && a in parents)
  {
    r := children;
    for k := 0 to |parents|
      invariant forall a, b :: Lists(r, a, b) <==> Lists(children, a, b) || (b == child && a in parents[..k])
    {
      var p := parents[k];
      ghost var before := r;
      r := r[p := (if p in r then r[p] else []) + [child]];
      assert parents[..k + 1] == parents[..k] + [p];
      assert forall a, b :: Lists(r, a, b) <==> Lists(before, a, b) || (b == child && a == p);
    }
    assert parents[..|parents|] == parents;
  }

  method ChildMap(log: Log) returns (children: map<Id, seq<Id>>)
    ensures forall a, b :: Lists(children, a, b) <==> Edge(log, a, b)
  {
    children := map[];
    for n := 0 to |log|
      invariant forall a, b :: Lists(children, a, b) <==> Edge(log[..n], a, b)
    {
      if log[n].body.Created? {
        children := AddChild(children, log[n].body.parents, log[n].body.vertex);
      }
      forall a, b ensures Lists(children, a, b) <==> Edge(log[..n + 1], a, b) {
        EdgeStep(log, n, a, b);
      }
    }
    assert log[..|log|] == log;
  }

  /** The worklist is right once everything it still has to expand is on it. */
  ghost predicate Expanded(log: Log, found: set<Id>, frontier: seq<Id>, root: Id) {
    && (forall b :: Edge(log, root, b) && root !in frontier ==> b in found)
    && (forall a, b :: a in found && a !in frontier && Edge(log, a, b) ==> b in found)
  }

  lemma {:induction false} ExpandedIsClosed(log: Log, found: set<Id>, root: Id, b: Id, n: nat)
    requires Expanded(log, found, [], root)
    requires n >= 1 && Path(log, root, b, n)
    ensures b in found
    decreases n
  {
    var c := PathUnsnoc(log, root, b, n);
    if n > 1 {
      ExpandedIsClosed(log, found, root, c, n - 1);
    }
  }

  /** One vertex of the search: the children not found yet join both the found set and the worklist. */
  method Visit(kids: seq<Id>, found: set<Id>, rest: seq<Id>) returns (more: set<Id>, stack: seq<Id>)
    ensures more == found + (set b | b in kids)
    ensures forall a :: a in stack <==> a in rest || (a in more && a !in found)
    ensures more == found ==> stack == rest
  {
    more, stack := found, rest;
    for k := 0 to |kids|
      invariant more == found + (set b | b in kids[..k])
      invariant forall a :: a in stack <==> a in rest || (a in more && a !in found)
      invariant more == found ==> stack == rest
    {
      var b := kids[k];
      assert kids[..k + 1] == kids[..k] + [b];
      if b !in more {
        more, stack := more + {b}, stack + [b];
      }
    }
    assert kids[..|kids|] == kids;
  }

  lemma VisitKeeps(log: Log, v: Id, found: set<Id>, frontier: seq<Id>, more: set<Id>, stack: seq<Id>)
    requires found <= Descendants(log, v) && Expanded(log, found, frontier, v)
    requires frontier != [] && (frontier[|frontier| - 1] == v || frontier[|frontier| - 1] in found)
    requires found <= more && forall b :: b in more - found ==> Edge(log, frontier[|frontier| - 1], b)
    requires forall b :: Edge(log, frontier[|frontier| - 1], b) ==> b in more
    requires forall a :: a in stack <==> a in frontier[..|frontier| - 1] || (a in more && a !in found)
    ensures more <= Descendants(log, v) && Expanded(log, more, stack, v)
    ensures more != found ==> CreatedIds(log) - more < CreatedIds(log) - found
  {
    hide Descendants, Edge, CreatedIds;
    var at, rest := frontier[|frontier| - 1], frontier[..|frontier| - 1];
    assert frontier == rest + [at];
    forall b | b in more - found ensures b in Descendants(log, v) && b in CreatedIds(log) {
      EdgeCreates(log, at, b);
      ChildIsBelow(log, v, at, b);
    }
    if more != found {
      var x :| x in more && x !in found;
      assert x in (CreatedIds(log) - found) - (CreatedIds(log) - more);
    }
  }

  method CausalDescendants(log: Log, v: Id) returns (found: set<Id>)
    ensures found == Descendants(log, v)
  {
    hide Descendants, Edge, CreatedIds;
    var children := ChildMap(log);
    found := {};
    var frontier := [v];
    while frontier != []
      invariant found <= Descendants(log, v)
      invariant forall a :: a in frontier ==> a == v || a in found
      invariant Expanded(log, found, frontier, v)
      decreases CreatedIds(log) - found, |frontier|
    {
      var at := frontier[|frontier| - 1];
      var kids := if at in children then children[at] else [];
      assert forall b :: b in kids <==> Lists(children, at, b);
      var more, stack := Visit(kids, found, frontier[..|frontier| - 1]);
      VisitKeeps(log, v, found, frontier, more, stack);
      found, frontier := more, stack;
    }
    Exhausted(log, v, found);
  }

  lemma Exhausted(log: Log, v: Id, found: set<Id>)
    requires Expanded(log, found, [], v)
    ensures Descendants(log, v) <= found
  {
    forall b | b in Descendants(log, v) ensures b in found {
      var n: nat :| n >= 1 && Path(log, v, b, n);
      ExpandedIsClosed(log, found, v, b, n);
    }
  }

  lemma ChildIsBelow(log: Log, v: Id, at: Id, b: Id)
    requires at == v || at in Descendants(log, v)
    requires Edge(log, at, b)
    ensures b in Descendants(log, v)
  {
    EdgeCreates(log, at, b);
    if at == v {
      assert Path(log, v, v, 0);
      PathSnoc(log, v, v, b, 0);
    } else {
      var n: nat :| n >= 1 && Path(log, v, at, n);
      PathSnoc(log, v, at, b, n);
    }
  }

  /* ---------------------------------------------------------------- the upward search */

  /** One succeeded planner above a vertex: when it last succeeded, and how far above it is. */
  datatype Above = Above(planner: Id, succeededAt: nat, depth: nat)

  /** Every vertex the graph mentions, created or only named as a parent. */
  function Mentioned(log: Log): (ids: set<Id>) {
    if log == [] then {}
    else
      var last := log[|log| - 1].body;
      Mentioned(log[..|log| - 1]) + (if last.Created? then {last.vertex} + (set p | p in last.parents) else {})
  }

  lemma {:induction false} ParentsMentioned(log: Log, v: Id)
    ensures forall p :: p in ParentsOf(log, v) ==> p in Mentioned(log)
  {
    if log != [] {
      var last := log[|log| - 1].body;
      if !(last.Created? && last.vertex == v) {
        ParentsMentioned(log[..|log| - 1], v);
      }
    }
  }

  /** `e` records a planner that has succeeded, with the `run_seq` of its last success. */
  predicate Resumable(log: Log, e: Above) {
    IsPlanner(log, e.planner) && SuccessSeq(log, e.planner) == Some(e.succeededAt)
  }

  function Entry(log: Log, v: Id, depth: nat): (r: seq<Above>) {
    if IsPlanner(log, v) && SuccessSeq(log, v).Some? then [Above(v, SuccessSeq(log, v).value, depth)] else []
  }

  lemma EntryIs(log: Log, v: Id, depth: nat, e: Above)
    ensures e in Entry(log, v, depth) <==> e.planner == v && e.depth == depth && Resumable(log, e)
  {
  }

  /** What one pass over the frontier yields: the planners on it, the vertices seen, the next frontier. */
  datatype Sweep = Sweep(found: seq<Above>, seen: set<Id>, next: seq<Id>)

  function SweepFrontier(log: Log, frontier: seq<Id>, seen: set<Id>, depth: nat): (r: Sweep) {
    if frontier == [] then Sweep([], seen, [])
    else
      var id := frontier[0];
      if id in seen then SweepFrontier(log, frontier[1..], seen, depth)
      else
        var rest := SweepFrontier(log, frontier[1..], seen + {id}, depth);
        Sweep(Entry(log, id, depth) + rest.found, rest.seen, ParentsOf(log, id) + rest.next)
  }

  lemma {:induction false} SweepFacts(log: Log, frontier: seq<Id>, seen: set<Id>, depth: nat)
    ensures var r := SweepFrontier(log, frontier, seen, depth);
      && r.seen == seen + (set x | x in frontier)
      && (forall p :: p in r.next <==> exists c :: c in frontier && c !in seen && p in ParentsOf(log, c))
      && (r.seen == seen ==> r.next == [])
      && (forall e :: e in r.found <==>
        e.planner in frontier && e.planner !in seen && e.depth == depth && Resumable(log, e))
  {
    if frontier != [] {
      var id := frontier[0];
      assert frontier == [id] + frontier[1..];
      if id in seen {
        SweepFacts(log, frontier[1..], seen, depth);
      } else {
        SweepFacts(log, frontier[1..], seen + {id}, depth);
        var r := SweepFrontier(log, frontier, seen, depth);
        forall e ensures e in r.found <==>
          e.planner in frontier && e.planner !in seen && e.depth == depth && Resumable(log, e) {
          EntryIs(log, id, depth, e);
        }
      }
    }
  }

  function Search(log: Log, frontier: seq<Id>, seen: set<Id>, depth: nat): (r: seq<Above>)
    requires forall x :: x in frontier ==> x in Mentioned(log)
    decreases Mentioned(log) - seen, |frontier|
  {
    if frontier == [] then []
    else
      var s := SweepFrontier(log, frontier, seen, depth);
      SweepStaysMentioned(log, frontier, seen, depth);
      s.found + Search(log, s.next, s.seen, depth + 1)
  }

  lemma {:induction false} SweepStaysMentioned(log: Log, frontier: seq<Id>, seen: set<Id>, depth: nat)
    requires forall x :: x in frontier ==> x in Mentioned(log)
    ensures forall p :: p in SweepFrontier(log, frontier, seen, depth).next ==> p in Mentioned(log)
    ensures SweepFrontier(log, frontier, seen, depth).seen != seen
        ==> Mentioned(log) - SweepFrontier(log, frontier, seen, depth).seen < Mentioned(log) - seen
    ensures SweepFrontier(log, frontier, seen, depth).seen == seen
      ==> SweepFrontier(log, frontier, seen, depth).next == []
  {
    var s := SweepFrontier(log, frontier, seen, depth);
    SweepFacts(log, frontier, seen, depth);
    forall p | p in s.next ensures p in Mentioned(log) {
      var c :| c in frontier && c !in seen && p in ParentsOf(log, c);
      ParentsMentioned(log, c);
    }
    if s.seen != seen {
      var x :| x in s.seen && x !in seen;
      assert x in Mentioned(log) - seen;
    }
  }

  /** `p` is above `v` at some distance below `d`. */
  ghost predicate Within(log: Log, p: Id, v: Id, d: nat) {
    exists k: nat :: k < d && Path(log, p, v, k)
  }

  /** `p` is above `v` at distance `d` and no nearer. */
  ghost predicate Nearest(log: Log, p: Id, v: Id, d: nat) {
    Path(log, p, v, d) && !Within(log, p, v, d)
  }

  lemma WithinStep(log: Log, p: Id, v: Id, d: nat)
    ensures Within(log, p, v, d + 1) <==> Within(log, p, v, d) || Path(log, p, v, d)
  {
    if Within(log, p, v, d) {
      var k: nat :| k < d && Path(log, p, v, k);
      assert k < d + 1;
    }
  }

  lemma WithinCons(log: Log, x: Id, c: Id, v: Id, d: nat)
    requires Edge(log, x, c) && Within(log, c, v, d)
    ensures Within(log, x, v, d + 1)
  {
    var k: nat :| k < d && Path(log, c, v, k);
    assert Path(log, x, v, k + 1);
  }

  /** What the breadth-first search knows when it is about to expand depth `d`. */
  ghost predicate AtDepth(log: Log, v: Id, frontier: seq<Id>, seen: set<Id>, d: nat) {
    && (forall x :: x in seen <==> Within(log, x, v, d))
    && (forall x :: x in frontier ==> Path(log, x, v, d))
    && (forall x :: Nearest(log, x, v, d) ==> x in frontier)
  }

  /** `e` is a succeeded planner above `v`, recorded at its shortest distance. */
  ghost predicate Belongs(log: Log, v: Id, e: Above) {
    Nearest(log, e.planner, v, e.depth) && Resumable(log, e)
  }

  lemma NearestStepsDown(log: Log, x: Id, v: Id, d: nat) returns (c: Id)
    requires d >= 1 && Nearest(log, x, v, d)
    ensures Edge(log, x, c) && Nearest(log, c, v, d - 1)
  {
    c :| Edge(log, x, c) && Path(log, c, v, d - 1);
    if Within(log, c, v, d - 1) { WithinCons(log, x, c, v, d - 1); }
  }

  lemma NearestReachesDown(log: Log, x: Id, v: Id, d: nat, depth: nat) returns (c: Id)
    requires depth <= d && Nearest(log, x, v, d)
    ensures Nearest(log, c, v, depth)
    decreases d
  {
    if d == depth {
      c := x;
    } else {
      var y := NearestStepsDown(log, x, v, d);
      c := NearestReachesDown(log, y, v, d - 1, depth);
    }
  }

  lemma SweepAdvances(log: Log, v: Id, frontier: seq<Id>, seen: set<Id>, d: nat)
    requires CreatedOnce(log) && AtDepth(log, v, frontier, seen, d)
    ensures var s := SweepFrontier(log, frontier, seen, d); AtDepth(log, v, s.next, s.seen, d + 1)
  {
    var s := SweepFrontier(log, frontier, seen, d);
    SweepFacts(log, frontier, seen, d);
    forall x ensures x in s.seen <==> Within(log, x, v, d + 1) {
      WithinStep(log, x, v, d);
    }
    forall x | x in s.next ensures Path(log, x, v, d + 1) {
      var c :| c in frontier && c !in seen && x in ParentsOf(log, c);
      EdgeParents(log, x, c);
    }
    forall x | Nearest(log, x, v, d + 1) ensures x in s.next {
      var c := NearestStepsDown(log, x, v, d + 1);
      EdgeParents(log, x, c);
      assert c in frontier && c !in seen;
    }
  }

  lemma {:induction false} SearchExact(log: Log, v: Id, frontier: seq<Id>, seen: set<Id>, d: nat)
    requires CreatedOnce(log) && AtDepth(log, v, frontier, seen, d)
    requires forall x :: x in frontier ==> x in Mentioned(log)
    ensures forall e :: e in Search(log, frontier, seen, d) <==> d <= e.depth && Belongs(log, v, e)
    decreases Mentioned(log) - seen, |frontier|
  {
    if frontier == [] {
      forall e: Above | d <= e.depth ensures !Belongs(log, v, e) {
        if Belongs(log, v, e) {
          var c := NearestReachesDown(log, e.planner, v, e.depth, d);
        }
      }
    } else {
      var s := SweepFrontier(log, frontier, seen, d);
      SweepFacts(log, frontier, seen, d);
      SweepStaysMentioned(log, frontier, seen, d);
      SweepAdvances(log, v, frontier, seen, d);
      SearchExact(log, v, s.next, s.seen, d + 1);
      var rest := Search(log, s.next, s.seen, d + 1);
      assert Search(log, frontier, seen, d) == s.found + rest;
      forall e ensures e in s.found + rest <==> d <= e.depth && Belongs(log, v, e) {
        assert e in s.found <==> e.depth == d && Belongs(log, v, e);
      }
    }
  }

  /** Nearest first, and between equally near planners the one that succeeded later. */
  predicate Precedes(a: Above, b: Above) {
    a.depth < b.depth || (a.depth == b.depth && a.succeededAt >= b.succeededAt)
  }

  predicate Nearer(a: Above, b: Above) { !Precedes(b, a) }

  function Sort(found: seq<Above>): (r: seq<Above>) { Sorting.Sort(found, Nearer) }

  /** Nearest first, and of equally near ones the one that succeeded later. */
  ghost predicate Sorted(s: seq<Above>) {
    forall i, j :: 0 <= i < j < |s| ==>
      s[i].depth < s[j].depth || (s[i].depth == s[j].depth && s[i].succeededAt >= s[j].succeededAt)
  }

  lemma NearerIsOrder()
    ensures Sorting.IsOrder(Nearer)
  {
  }

  lemma SortSorted(found: seq<Above>)
    ensures Sorted(Sort(found)) && forall e :: e in Sort(found) <==> e in found
  {
    hide Sorting.Sort;
    NearerIsOrder();
    Sorting.SortInOrder(found, Nearer);
    Sorting.SortMembers(found, Nearer);
  }

  function AncestorPlanners(log: Log, v: Id): (r: seq<Above>) {
    ParentsMentioned(log, v);
    Sort(Entry(log, v, 0) + Search(log, ParentsOf(log, v), {v}, 1))
  }

  lemma FirstDepth(log: Log, v: Id)
    requires CreatedOnce(log)
    ensures AtDepth(log, v, ParentsOf(log, v), {v}, 1)
  {
    forall x ensures x in {v} <==> Within(log, x, v, 1) {
      WithinStep(log, x, v, 0);
    }
    forall x ensures x in ParentsOf(log, v) <==> Path(log, x, v, 1) {
      EdgeParents(log, x, v);
      assert Path(log, v, v, 0);
    }
  }

  /**
   The search finds exactly the succeeded planners at or above `v`, each at its
   shortest distance, and lists them nearest first.
   */
  lemma AncestorPlannersExact(log: Log, v: Id)
    requires CreatedOnce(log)
    ensures forall e :: e in AncestorPlanners(log, v) <==> Belongs(log, v, e)
    ensures Sorted(AncestorPlanners(log, v))
  {
    ParentsMentioned(log, v);
    FirstDepth(log, v);
    SearchExact(log, v, ParentsOf(log, v), {v}, 1);
    var rest := Search(log, ParentsOf(log, v), {v}, 1);
    var raw := Entry(log, v, 0) + rest;
    SortSorted(raw);
    forall e ensures e in Sort(raw) <==> Belongs(log, v, e) {
      assert Path(log, v, v, 0);
      EntryIs(log, v, 0, e);
      assert e in Entry(log, v, 0) <==> e.depth == 0 && Belongs(log, v, e);
    }
  }

  /**
   The two walks agree: a planner the search finds strictly above `v` is one whose
   worklist reaches `v`, and conversely.
   */
  lemma {:induction false} WalksAgree(log: Log, v: Id, p: Id)
    requires CreatedOnce(log)
    requires IsPlanner(log, p) && SuccessSeq(log, p).Some? && p != v
    ensures (exists e :: e in AncestorPlanners(log, v) && e.planner == p) <==> v in Descendants(log, p)
  {
    hide AncestorPlanners, CreatedOnce, SuccessSeq, IsPlanner;
    AncestorPlannersExact(log, v);
    if e :| e in AncestorPlanners(log, v) && e.planner == p {
      assert Belongs(log, v, e) && e.depth >= 1;
      assert Below(log, p, v);
      BelowIsCreated(log, p, v);
    }
    if v in Descendants(log, p) {
      var n: nat :| n >= 1 && Path(log, p, v, n);
      var d := ShortestPath(log, p, v, n);
      var e := Above(p, SuccessSeq(log, p).value, d);
      assert Belongs(log, v, e);
    }
  }

  lemma ShortestPath(log: Log, p: Id, v: Id, n: nat) returns (d: nat)
    requires Path(log, p, v, n)
    ensures Nearest(log, p, v, d)
    decreases n
  {
    if k: nat :| k < n && Path(log, p, v, k) {
      d := ShortestPath(log, p, v, k);
    } else {
      d := n;
    }
  }

  /** One pass of the breadth-first loop over its frontier. */
  method SweepLoop(log: Log, frontier: seq<Id>, seen: set<Id>, depth: nat)
      returns (found: seq<Above>, now: set<Id>, next: seq<Id>)
    ensures Sweep(found, now, next) == SweepFrontier(log, frontier, seen, depth)
  {
    found, now, next := [], seen, [];
    ghost var whole := SweepFrontier(log, frontier, seen, depth);
    assert frontier[0..] == frontier;
    for k := 0 to |frontier|
      invariant SweepFrontier(log, frontier[k..], now, depth).seen == whole.seen
      invariant next + SweepFrontier(log, frontier[k..], now, depth).next == whole.next
      invariant found + SweepFrontier(log, frontier[k..], now, depth).found == whole.found
    {
      var id := frontier[k];
      ghost var left := SweepFrontier(log, frontier[k + 1..], now + {id}, depth);
      assert frontier[k..][1..] == frontier[k + 1..];
      if id !in now {
        assert (found + Entry(log, id, depth)) + left.found == found + (Entry(log, id, depth) + left.found);
        assert (next + ParentsOf(log, id)) + left.next == next + (ParentsOf(log, id) + left.next);
        now, found, next := now + {id}, found + Entry(log, id, depth), next + ParentsOf(log, id);
      }
    }
    assert frontier[|frontier|..] == [];
  }

  /** The breadth-first loop itself. */
  method SearchLoop(log: Log, start: seq<Id>, v: Id) returns (found: seq<Above>)
    requires forall x :: x in start ==> x in Mentioned(log)
    ensures found == Search(log, start, {v}, 1)
  {
    found := [];
    var seen, frontier, depth := {v}, start, 1;
    ghost var goal := Search(log, start, {v}, 1);
    while frontier != []
      invariant forall x :: x in frontier ==> x in Mentioned(log)
      invariant found + Search(log, frontier, seen, depth) == goal
      decreases Mentioned(log) - seen, |frontier|
    {
      SweepStaysMentioned(log, frontier, seen, depth);
      var here, now, next := SweepLoop(log, frontier, seen, depth);
      ghost var left := Search(log, next, now, depth + 1);
      assert (found + here) + left == found + (here + left);
      found, seen, frontier, depth := found + here, now, next, depth + 1;
    }
  }

  method FindAncestorPlanners(log: Log, v: Id) returns (r: seq<Above>)
    ensures r == AncestorPlanners(log, v)
  {
    ParentsMentioned(log, v);
    var above := SearchLoop(log, ParentsOf(log, v), v);
    r := Sort(Entry(log, v, 0) + above);
  }
}
