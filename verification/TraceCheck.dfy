/** The Coordinator's trace checker: invariants I3 to I7 and fail-closed reading of a recorded run. */
module TraceCheck {
  import opened EventLog
  import Sorting

  datatype Kind = OfTry | OfConfirm | OfCancel(completed: bool) | OfPivotPassed | OfBudget | OfOther | OfUnknown

  /** `scope` is `None` where the recorded event has no scope column. */
  datatype TraceEvent = TraceEvent(runSeq: nat, kind: Kind, hasVertex: bool, scope: Option<Id>, ignorable: bool,
      inherited: bool)

  type Trace = seq<TraceEvent>

  /* ---------------------------------------------------------------- reading in order */

  predicate Ascending(t: Trace) { forall i, j :: 0 <= i < j < |t| ==> t[i].runSeq <= t[j].runSeq }

  predicate SeqBefore(a: TraceEvent, b: TraceEvent) { a.runSeq < b.runSeq }

  /** The events in the order of their sequence numbers; those that share one keep their order. */
  function Ordered(t: Trace): (r: Trace) { Sorting.Sort(t, SeqBefore) }

  lemma SeqIsOrder()
    ensures Sorting.IsOrder(SeqBefore)
  {
  }

  /** Reading in order neither loses nor invents an event. */
  lemma OrderedIsPermutation(t: Trace)
    ensures multiset(Ordered(t)) == multiset(t)
  {
    Sorting.SortPermutes(t, SeqBefore);
  }

  lemma OrderedAscends(t: Trace)
    ensures Ascending(Ordered(t))
  {
    hide Sorting.Sort;
    SeqIsOrder();
    Sorting.SortInOrder(t, SeqBefore);
  }

  lemma AscendingIsOrdered(t: Trace)
    requires Ascending(t)
    ensures Ordered(t) == t
  {
    hide Sorting.Sort;
    Sorting.SortFixes(t, SeqBefore);
  }

  /* ---------------------------------------------------------------- what it checks */

  /** The event at `j` breaks none of the rules, given everything before it. */
  ghost predicate Allowed(t: Trace, j: nat)
    requires j < |t|
  {
    var e := t[j];
    match e.kind
    case OfUnknown => e.ignorable
    case OfBudget => e.hasVertex
    case OfPivotPassed => !Earlier(t, j, OfPivotPassed, e.scope)
    case OfCancel(_) => (e.inherited || !InheritedTry(t, j, e.scope)) && !Earlier(t, j, OfPivotPassed, e.scope)
    case OfConfirm => (e.inherited || !InheritedTry(t, j, e.scope)) && !Earlier(t, j, OfCancel(true), e.scope)
    case _ => true
  }

  ghost predicate Earlier(t: Trace, j: nat, kind: Kind, scope: Option<Id>)
    requires j <= |t|
  {
    exists i :: 0 <= i < j && t[i].kind == kind && t[i].scope == scope
  }

  ghost predicate InheritedTry(t: Trace, j: nat, scope: Option<Id>)
    requires j <= |t|
  {
    exists i :: 0 <= i < j && t[i].kind == OfTry && t[i].inherited && t[i].scope == scope
  }

  ghost predicate Clean(t: Trace) { forall j :: 0 <= j < |t| ==> Allowed(t, j) }

  /** Scopes that passed a pivot, completed a cancellation, or hold an inherited try. */
  datatype Seen = Seen(pivoted: set<Option<Id>>, cancelled: set<Option<Id>>, inherited: set<Option<Id>>)

  ghost predicate SeenBefore(t: Trace, j: nat, seen: Seen)
    requires j <= |t|
  {
    && (forall s :: s in seen.pivoted <==> Earlier(t, j, OfPivotPassed, s))
    && (forall s :: s in seen.cancelled <==> Earlier(t, j, OfCancel(true), s))
    && (forall s :: s in seen.inherited <==> InheritedTry(t, j, s))
  }

  function Notice(seen: Seen, e: TraceEvent): (r: Seen) {
    match e.kind
    case OfPivotPassed => seen.(pivoted := seen.pivoted + {e.scope})
    case OfCancel(completed) => if completed then seen.(cancelled := seen.cancelled + {e.scope}) else seen
    case OfTry => if e.inherited then seen.(inherited := seen.inherited + {e.scope}) else seen
    case _ => seen
  }

  lemma EarlierNext(t: Trace, j: nat, kind: Kind, s: Option<Id>)
    requires j < |t|
    ensures Earlier(t, j + 1, kind, s) <==> Earlier(t, j, kind, s) || (t[j].kind == kind && t[j].scope == s)
    ensures InheritedTry(t, j + 1, s) <==>
      InheritedTry(t, j, s) || (t[j].kind == OfTry && t[j].inherited && t[j].scope == s)
  {
  }

  lemma NoticeIsSeen(t: Trace, j: nat, seen: Seen)
    requires j < |t| && SeenBefore(t, j, seen)
    ensures SeenBefore(t, j + 1, Notice(seen, t[j]))
  {
    hide Earlier, InheritedTry;
    forall s ensures
        && (s in Notice(seen, t[j]).pivoted <==> Earlier(t, j + 1, OfPivotPassed, s))
        && (s in Notice(seen, t[j]).cancelled <==> Earlier(t, j + 1, OfCancel(true), s))
        && (s in Notice(seen, t[j]).inherited <==> InheritedTry(t, j + 1, s))
    {
      EarlierNext(t, j, OfPivotPassed, s);
      EarlierNext(t, j, OfCancel(true), s);
    }
  }

  /** Whether one event may follow what was seen. */
  predicate Permitted(seen: Seen, e: TraceEvent) {
    if e.kind == OfUnknown then e.ignorable
    else
      && (e.kind == OfBudget ==> e.hasVertex)
      && (!e.inherited && e.scope in seen.inherited ==> e.kind != OfConfirm && !e.kind.OfCancel?)
      && (e.kind == OfPivotPassed ==> e.scope !in seen.pivoted)
      && (e.kind.OfCancel? ==> e.scope !in seen.pivoted)
      && (e.kind == OfConfirm ==> e.scope !in seen.cancelled)
  }

  lemma PermittedIsAllowed(t: Trace, j: nat, seen: Seen)
    requires j < |t| && SeenBefore(t, j, seen)
    ensures Permitted(seen, t[j]) <==> Allowed(t, j)
  {
    hide Earlier, InheritedTry;
  }

  /** One pass over the ordered trace with the three sets of what was seen. */
  method Validate(events: Trace) returns (ok: bool)
    ensures ok <==> Clean(Ordered(events))
  {
    hide Ordered, Allowed, SeenBefore, Permitted, Notice;
    var ordered := Ordered(events);
    var seen := Seen({}, {}, {});
    NothingSeen(ordered);
    for j := 0 to |ordered|
      invariant SeenBefore(ordered, j, seen)
      invariant forall i :: 0 <= i < j ==> Allowed(ordered, i)
    {
      PermittedIsAllowed(ordered, j, seen);
      if !Permitted(seen, ordered[j]) { return false; }
      NoticeIsSeen(ordered, j, seen);
      seen := Notice(seen, ordered[j]);
    }
    return true;
  }

  lemma NothingSeen(t: Trace)
    ensures SeenBefore(t, 0, Seen({}, {}, {}))
  {
  }

  /* ---------------------------------------------------------------- a run's own log as a trace */

  function KindOf(b: Body): (k: Kind) {
    match b
    case Try(_, _, _) => OfTry
    case Confirm(_, _, _) => OfConfirm
    case Cancel(_, completed) => OfCancel(completed)
    case PivotPassed(_, _) => OfPivotPassed
    case _ => OfOther
  }

  /** A run that is no fork inherits nothing, and writes only known events. */
  function TraceOf(log: Log): (t: Trace)
    ensures |t| == |log|
    ensures forall i :: 0 <= i < |log| ==>
      t[i] == TraceEvent(log[i].runSeq, KindOf(log[i].body), true, ScopeColumn(log[i].body), false, false)
  {
    seq(|log|, i requires 0 <= i < |log| => TraceEvent(log[i].runSeq, KindOf(log[i].body), true,
      ScopeColumn(log[i].body), false, false))
  }
}
