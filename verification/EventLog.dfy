/**
 The run event log: one append-only sequence of events that the Engine and the
 Transaction Coordinator both write, and that every reader folds.

 Only the event types and payload fields some modelled reader looks at are kept;
 everything else is `Other`. Identifiers are opaque, so they are numbers here.
 */
module EventLog {

  datatype Option<+T> = None | Some(value: T)

  /** A vertex, scope or idempotency-key identifier. Only equality matters. */
  type Id = nat

  datatype Role = Planner | Tool | Router | Barrier

  /** Who proposed a subgraph: an author or a planner, or a rule template. */
  datatype Source = Submitted | ByRouter

  /** The `state` payload of a `txn/scope` event. */
  datatype Declared = DeclaredOpen | DeclaredSuspended | DeclaredCommitted | DeclaredCancelled

  /** What a success says about a router's condition: nothing, that none matched, or which one did. */
  datatype Match = Unsaid | NoMatch | Matched(condition: nat)

  /** Fields with a default are read only by the projections; the ladder and the Coordinator never look at them. */
  datatype Body =
    | Proposed(source: Source)
    | Frozen(proposedSeq: nat, announced: seq<Id> := [], scopes: seq<Id> := [])
    | Created(vertex: Id, parents: seq<Id>, scope: Option<Id>, role: Role)
    | Started(vertex: Id, scope: Option<Id>, pivot: bool)
    | Succeeded(vertex: Id, scope: Option<Id>, told: Match := Unsaid)
    | Failed(vertex: Id, scope: Option<Id>, absent: bool)
    | Retried(vertex: Id)
    | Unreadable(planner: Id)
    | Shadowed(hidden: set<Id>, resumes: Option<nat> := None)
    | Boundary(answered: Id, selected: Option<Id>, cited: set<Id>, resumes: Option<nat> := None)
    | CancelRequested(cause: Id, requested: set<Id>)
    | ScopeState(txn: Id, declared: Declared)
    | Try(vertex: Id, txn: Id, key: Id)
    | Confirm(vertex: Id, txn: Id, key: Id)
    | Cancel(txn: Id, completed: bool)
    | PivotPassed(vertex: Id, txn: Id)
    | Other

  datatype Event = Event(runSeq: nat, body: Body)

  type Log = seq<Event>

  /** `run_seq` is allocated from 1 upwards under the run's row lock, so it ascends. */
  ghost predicate Numbered(log: Log) {
    && (forall i :: 0 <= i < |log| ==> log[i].runSeq >= 1)
    && (forall i, j :: 0 <= i < j < |log| ==> log[i].runSeq < log[j].runSeq)
  }

  /** The scope column of an event, when it has one. */
  function ScopeColumn(b: Body): (s: Option<Id>) {
    match b
    case Created(_, _, s, _) => s
    case Started(_, s, _) => s
    case Succeeded(_, s, _) => s
    case Failed(_, s, _) => s
    case ScopeState(s, _) => Some(s)
    case Try(_, s, _) => Some(s)
    case Confirm(_, s, _) => Some(s)
    case Cancel(s, _) => Some(s)
    case PivotPassed(_, s) => Some(s)
    case _ => None
  }

  /** The `vertex/created` event of a vertex; the last one when there are several. */
  function CreatedOf(log: Log, v: Id): (b: Option<Body>)
    ensures b.Some? ==> b.value.Created? && b.value.vertex == v
  {
    if log == [] then None
    else
      var last := log[|log| - 1].body;
      if last.Created? && last.vertex == v then Some(last) else CreatedOf(log[..|log| - 1], v)
  }

  /** The scope of the first creation event of a vertex. */
  function FirstScope(log: Log, v: Id): (s: Option<Id>) {
    if log == [] then None
    else if log[0].body.Created? && log[0].body.vertex == v then log[0].body.scope
    else FirstScope(log[1..], v)
  }

  function ParentsOf(log: Log, v: Id): (ps: seq<Id>) {
    match CreatedOf(log, v)
    case Some(b) => b.parents
    case None => []
  }

  predicate IsPlanner(log: Log, v: Id) {
    CreatedOf(log, v).Some? && CreatedOf(log, v).value.role == Planner
  }

  predicate CreatedAs(b: Body, v: Id, role: Role) { b.Created? && b.vertex == v && b.role == role }

  /** Some event created this vertex in this role. */
  predicate HasRole(log: Log, v: Id, role: Role) { exists i :: 0 <= i < |log| && CreatedAs(log[i].body, v, role) }

  /** `run_seq` of the last success of a vertex. */
  function SuccessSeq(log: Log, v: Id): (s: Option<nat>) {
    if log == [] then None
    else
      var last := log[|log| - 1];
      if last.body.Succeeded? && last.body.vertex == v then Some(last.runSeq)
      else SuccessSeq(log[..|log| - 1], v)
  }

  /** Vertices hidden by some `subgraph/shadowed`. */
  function Hidden(log: Log): (h: set<Id>) {
    if log == [] then {}
    else
      var last := log[|log| - 1].body;
      Hidden(log[..|log| - 1]) + (if last.Shadowed? then last.hidden else {})
  }

  /** Every vertex id is created at most once. */
  ghost predicate CreatedOnce(log: Log) {
    forall i, j :: 0 <= i < j < |log| && log[i].body.Created? && log[j].body.Created?
      ==> log[i].body.vertex != log[j].body.vertex
  }

  ghost predicate IsCreated(log: Log, v: Id) {
    exists i :: 0 <= i < |log| && log[i].body.Created? && log[i].body.vertex == v
  }

  lemma {:induction false} CreatedOfSome(log: Log, v: Id)
    ensures CreatedOf(log, v).Some? <==> IsCreated(log, v)
    ensures CreatedOf(log, v).Some? ==> exists i :: 0 <= i < |log| && log[i].body == CreatedOf(log, v).value
  {
    if log != [] {
      var n := |log| - 1;
      CreatedOfSome(log[..n], v);
      if log[n].body.Created? && log[n].body.vertex == v {
        assert log[n].body == CreatedOf(log, v).value;
      } else {
        if CreatedOf(log[..n], v).Some? {
          var i :| 0 <= i < n && log[..n][i].body == CreatedOf(log[..n], v).value;
          assert log[i].body == CreatedOf(log, v).value;
        }
        if IsCreated(log, v) {
          var i :| 0 <= i < |log| && log[i].body.Created? && log[i].body.vertex == v;
          assert log[..n][i].body.Created?;
        }
      }
    }
  }

  /** With unique creation, any creation event is the creation event. */
  lemma {:induction false} CreatedOfAt(log: Log, i: nat)
    requires CreatedOnce(log)
    requires i < |log| && log[i].body.Created?
    ensures CreatedOf(log, log[i].body.vertex) == Some(log[i].body)
  {
    var v := log[i].body.vertex;
    CreatedOfSome(log, v);
    var j :| 0 <= j < |log| && log[j].body == CreatedOf(log, v).value;
    assert log[j].body.Created? && log[j].body.vertex == v;
    assert i == j;
  }

  /** Appending one event shows in every last-wins reader at once. */
  lemma {:induction false} AppendOne(log: Log, e: Event)
    ensures (log + [e])[..|log|] == log
    ensures forall v :: CreatedOf(log + [e], v) == if e.body.Created? && e.body.vertex == v then Some(e.body)
      else CreatedOf(log, v)
    ensures forall v :: SuccessSeq(log + [e], v) == if e.body.Succeeded? && e.body.vertex == v then Some(e.runSeq)
      else SuccessSeq(log, v)
    ensures Hidden(log + [e]) == Hidden(log) + (if e.body.Shadowed? then e.body.hidden else {})
  {
    assert (log + [e])[..|log|] == log;
  }

  lemma NumberedPrefix(log: Log, n: nat)
    requires Numbered(log) && n <= |log|
    ensures Numbered(log[..n])
  {
  }
}
