/**
 The harness oracles for cancel-before-replan.

 They read transaction state with a second, separately written fold, and state what a
 finished or unfinished run must show. Nothing here mentions the ladder's own phases.
 */
module RunOracles {
  import opened EventLog

  datatype History = History(
    openedAt: Option<nat>,
    cancellingAt: Option<nat>,
    closedAt: Option<nat>,
    suspendedAt: Option<nat>,
    pivotAt: Option<nat>,
    members: set<Id>)

  const NoHistory := History(None, None, None, None, None, {})

  function FirstOf(known: Option<nat>, here: bool, runSeq: nat): (r: Option<nat>) {
    if known.Some? then known else if here then Some(runSeq) else None
  }

  function LeastOf(known: Option<nat>, here: bool, runSeq: nat): (r: Option<nat>) {
    if !here || (known.Some? && known.value <= runSeq) then known else Some(runSeq)
  }

  function Record(h: History, e: Event): (r: History) {
    var b := e.body;
    History(
      LeastOf(h.openedAt, b.ScopeState? || b.Try?, e.runSeq),
      FirstOf(h.cancellingAt, b.Cancel? && !b.completed, e.runSeq),
      FirstOf(h.closedAt, (b.ScopeState? && (b.declared == DeclaredCommitted || b.declared == DeclaredCancelled))
        || (b.Cancel? && b.completed), e.runSeq),
      FirstOf(h.suspendedAt, b.ScopeState? && b.declared == DeclaredSuspended, e.runSeq),
      FirstOf(h.pivotAt, b.Started? && b.pivot, e.runSeq),
      h.members + (if b.Created? then {b.vertex} else {}))
  }

  function Hist(log: Log, s: Id): (h: Option<History>) {
    if log == [] then None
    else
      var prev := Hist(log[..|log| - 1], s);
      var last := log[|log| - 1];
      if ScopeColumn(last.body) == Some(s) then Some(Record(if prev.Some? then prev.value else NoHistory, last))
        else prev
  }

  /** The history of a scope, with no dates at all when the log never mentions it. */
  function HistOf(log: Log, s: Id): (h: History) {
    match Hist(log, s)
    case Some(h) => h
    case None => NoHistory
  }

  function HistIds(log: Log): (ids: set<Id>) {
    if log == [] then {}
    else HistIds(log[..|log| - 1]) + (match ScopeColumn(log[|log| - 1].body) case Some(s) => {s} case None => {})
  }

  lemma {:induction false} HistAppend(log: Log, e: Event, s: Id)
    ensures HistOf(log + [e], s) == if ScopeColumn(e.body) == Some(s) then Record(HistOf(log, s), e) else HistOf(log, s)
    ensures Hist(log + [e], s).Some? <==> Hist(log, s).Some? || ScopeColumn(e.body) == Some(s)
  {
    assert (log + [e])[..|log|] == log;
  }

  lemma {:induction false} HistIdsExact(log: Log, s: Id)
    ensures s in HistIds(log) <==> Hist(log, s).Some?
  {
    if log != [] { HistIdsExact(log[..|log| - 1], s); }
  }

  /** A dated fact holds strictly before a sequence number. */
  predicate Before(at: Option<nat>, runSeq: nat) { at.Some? && at.value < runSeq }

  /* ---------------------------------------------------------------- what each oracle demands */

  /** The discard of the first `subgraph/shadowed` at or after a position. */
  function NextShadow(log: Log, from: nat): (hidden: set<Id>)
    requires from <= |log|
    decreases |log| - from
  {
    if from == |log| then {}
    else if log[from].body.Shadowed? then log[from].body.hidden
    else NextShadow(log, from + 1)
  }

  ghost predicate CompletedBefore(log: Log, s: Id, runSeq: nat) {
    exists k :: 0 <= k < |log| && log[k].body == Cancel(s, true) && log[k].runSeq < runSeq
  }

  ghost predicate CitationsHold(log: Log, cited: set<Id>, runSeq: nat) {
    forall s :: s in cited ==> CompletedBefore(log, s, runSeq) && HistOf(log, s).closedAt.Some?
  }

  /** An escalation may not leave the failure's own scope opened and still releasable. */
  predicate EscalationReleased(log: Log, v: Id, runSeq: nat) {
    match FirstScope(log, v)
    case None => true
    case Some(s) =>
      var h := HistOf(log, s);
      Before(h.openedAt, runSeq) ==>
        Before(h.closedAt, runSeq) || Before(h.suspendedAt, runSeq) || Before(h.pivotAt, runSeq)
  }

  /** Every scope opened by the boundary that loses a member to the discard had closed. */
  ghost predicate DiscardsClosed(log: Log, hidden: set<Id>, runSeq: nat) {
    forall s :: Hist(log, s).Some? ==>
      var h := HistOf(log, s);
      h.openedAt.Some? && h.openedAt.value <= runSeq && h.members * hidden != {}
      ==> h.closedAt.Some? && h.closedAt.value <= runSeq
  }

  ghost predicate BoundaryHolds(log: Log, i: nat)
    requires i < |log| && log[i].body.Boundary?
  {
    var b := log[i].body;
    && CitationsHold(log, b.cited, log[i].runSeq)
    && (if b.selected.None? then EscalationReleased(log, b.answered, log[i].runSeq)
        else DiscardsClosed(log, NextShadow(log, i + 1), log[i].runSeq))
  }

  /** O2.cancel_before_replan. */
  ghost predicate CancelBeforeReplan(log: Log) {
    forall i :: 0 <= i < |log| && log[i].body.Boundary? ==> BoundaryHolds(log, i)
  }

  /** A scope has resolved by a position: cancelled, committed or suspended before it. */
  predicate ResolvedBy(h: History, runSeq: nat) {
    (h.closedAt.Some? && h.closedAt.value <= runSeq) || (h.suspendedAt.Some? && h.suspendedAt.value <= runSeq)
  }

  ghost predicate AskedOnce(log: Log) {
    forall i, j, s :: 0 <= i < j < |log| && log[i].body.CancelRequested? && log[j].body.CancelRequested?
      && s in log[i].body.requested
      ==> s !in log[j].body.requested
  }

  /** The scope could still be cancelled when it was asked for. */
  predicate CouldStillCancel(h: History, runSeq: nat) {
    && h.openedAt.Some? && h.openedAt.value <= runSeq
    && !Before(h.cancellingAt, runSeq) && !Before(h.closedAt, runSeq) && !Before(h.suspendedAt, runSeq)
      && !Before(h.pivotAt, runSeq)
  }

  /** No boundary answers the failure before the scope asked for it has resolved. */
  ghost predicate NotAnsweredEarly(log: Log, i: nat, s: Id)
    requires i < |log| && log[i].body.CancelRequested?
  {
    forall j :: 0 <= j < |log| && log[j].body.Boundary? && log[j].body.answered == log[i].body.cause
      && log[j].runSeq > log[i].runSeq
      ==> ResolvedBy(HistOf(log, s), log[j].runSeq)
  }

  /** O2.cancel_request_discipline, on a run that need not be finished. */
  ghost predicate RequestDiscipline(log: Log) {
    && AskedOnce(log)
    && (forall i, s :: 0 <= i < |log| && log[i].body.CancelRequested? && s in log[i].body.requested
          ==> CouldStillCancel(HistOf(log, s), log[i].runSeq) && NotAnsweredEarly(log, i, s))
  }

  predicate HasResolved(h: History) { h.closedAt.Some? || h.suspendedAt.Some? }

  /**
   Every scope asked for has finished cancelling or been suspended: what the oracle asks of a finished run besides.
   */
  ghost predicate AllResolved(log: Log) {
    forall i, s :: 0 <= i < |log| && log[i].body.CancelRequested? && s in log[i].body.requested
      ==> HasResolved(HistOf(log, s))
  }

  /** `v` failed, or answered unreadably, at position `k`. */
  predicate FailsAt(log: Log, k: nat, v: Id)
    requires k < |log|
  {
    (log[k].body.Failed? && log[k].body.vertex == v) || (log[k].body.Unreadable? && log[k].body.planner == v)
  }

  /** O2.one_answer_per_failure: between two boundaries for one vertex it failed again. */
  ghost predicate OneAnswerPerFailure(log: Log) {
    forall i, j :: 0 <= i < j < |log| && AnswerAlike(log, i, j) ==> exists k ::
      i < k < j && FailsAt(log, k, log[i].body.answered)
  }

  /** Two boundaries for one vertex. */
  predicate AnswerAlike(log: Log, i: nat, j: nat)
    requires i < |log| && j < |log|
  {
    log[i].body.Boundary? && log[j].body.Boundary? && log[i].body.answered == log[j].body.answered
  }

  /* ---------------------------------------------------------------- stability under append */

  /**
   A history only ever gains dates, and the ones it gains are at or after the event that
   brought them: what it said about the past stays as it was.
   */
  ghost predicate Extends(h: History, g: History, from: nat) {
    && Keeps(h.openedAt, g.openedAt, from) && Keeps(h.cancellingAt, g.cancellingAt, from)
      && Keeps(h.closedAt, g.closedAt, from)
    && Keeps(h.suspendedAt, g.suspendedAt, from) && Keeps(h.pivotAt, g.pivotAt, from)
    && h.members <= g.members
  }

  predicate Keeps(a: Option<nat>, b: Option<nat>, from: nat) {
    if a.Some? then b == a else b.Some? ==> b.value >= from
  }

  ghost predicate Dated(h: History, upTo: nat) {
    && (h.openedAt.Some? ==> h.openedAt.value < upTo) && (h.cancellingAt.Some? ==> h.cancellingAt.value < upTo)
    && (h.closedAt.Some? ==> h.closedAt.value < upTo) && (h.suspendedAt.Some? ==> h.suspendedAt.value < upTo)
    && (h.pivotAt.Some? ==> h.pivotAt.value < upTo)
  }

  /** Every date in a history belongs to an event of the log. */
  lemma HistoryIsPast(log: Log, s: Id, upTo: nat)
    requires forall i :: 0 <= i < |log| ==> log[i].runSeq < upTo
    ensures Dated(HistOf(log, s), upTo)
  {
    if log != [] { HistoryIsPast(log[..|log| - 1], s, upTo); }
  }

  lemma HistoryExtends(log: Log, n: nat, s: Id, from: nat)
    requires Numbered(log) && n <= |log|
    requires forall i :: n <= i < |log| ==> log[i].runSeq >= from
    requires forall i :: 0 <= i < n ==> log[i].runSeq < from
    ensures Extends(HistOf(log[..n], s), HistOf(log, s), from)
    decreases |log| - n
  {
    hide HistOf, Extends, Dated;
    if n == |log| {
      assert log[..n] == log;
      ExtendsItself(HistOf(log, s), from);
    } else {
      var m := |log| - 1;
      assert log[..m][..n] == log[..n];
      NumberedPrefix(log, m);
      HistoryExtends(log[..m], n, s, from);
      HistoryIsPast(log[..m], s, log[m].runSeq);
      assert log == log[..m] + [log[m]];
      HistAppend(log[..m], log[m], s);
      RecordExtends(HistOf(log[..n], s), HistOf(log[..m], s), log[m], from);
    }
  }

  lemma ExtendsItself(h: History, from: nat)
    ensures Extends(h, h, from)
  {
  }

  lemma RecordExtends(h: History, g: History, e: Event, from: nat)
    requires Extends(h, g, from) && Dated(g, e.runSeq) && e.runSeq >= from
    ensures Extends(h, Record(g, e), from)
  {
  }

  /* ---------------------------------------------------------------- the loops */

  method ScopeHistory(log: Log) returns (scopes: map<Id, History>)
    ensures scopes.Keys == HistIds(log)
    ensures forall s :: s in scopes ==> Hist(log, s) == Some(scopes[s])
  {
    scopes := map[];
    for n := 0 to |log|
      invariant scopes.Keys == HistIds(log[..n])
      invariant forall s :: s in scopes ==> Hist(log[..n], s) == Some(scopes[s])
    {
      var e := log[n];
      assert log[..n + 1][..n] == log[..n];
      forall s ensures s in scopes <==> Hist(log[..n], s).Some? { HistIdsExact(log[..n], s); }
      if ScopeColumn(e.body).Some? {
        var s := ScopeColumn(e.body).value;
        scopes := scopes[s := Record(if s in scopes then scopes[s] else NoHistory, e)];
      }
    }
    assert log[..|log|] == log;
  }

  method CompletedLoop(log: Log, s: Id, runSeq: nat) returns (found: bool)
    ensures found <==> CompletedBefore(log, s, runSeq)
  {
    found := false;
    for k := 0 to |log|
      invariant !found
      invariant forall j :: 0 <= j < k ==> !(log[j].body == Cancel(s, true) && log[j].runSeq < runSeq)
    {
      if log[k].body == Cancel(s, true) && log[k].runSeq < runSeq {
        found := true;
        return;
      }
    }
  }

  method CheckBoundary(log: Log, scopes: map<Id, History>, i: nat) returns (passed: bool)
    requires i < |log| && log[i].body.Boundary?
    requires scopes.Keys == HistIds(log) && forall s :: s in scopes ==> Hist(log, s) == Some(scopes[s])
    ensures passed <==> BoundaryHolds(log, i)
  {
    forall s ensures s in scopes <==> Hist(log, s).Some? { HistIdsExact(log, s); }
    var at := log[i].runSeq;
    var cited := log[i].body.cited;
    while cited != {}
      invariant cited <= log[i].body.cited
      invariant forall s :: s in log[i].body.cited - cited ==>
        CompletedBefore(log, s, at) && HistOf(log, s).closedAt.Some?
      decreases cited
    {
      var s :| s in cited;
      var completed := CompletedLoop(log, s, at);
      if !completed || s !in scopes || scopes[s].closedAt.None? {
        assert s in log[i].body.cited;
        return false;
      }
      cited := cited - {s};
    }
    if log[i].body.selected.None? {
      return EscalationReleased(log, log[i].body.answered, at);
    }
    var hidden := NextShadow(log, i + 1);
    var left := scopes.Keys;
    while left != {}
      invariant left <= scopes.Keys
      invariant forall s :: s in scopes.Keys - left ==>
        (scopes[s].openedAt.Some? && scopes[s].openedAt.value <= at && scopes[s].members * hidden != {}
         ==> scopes[s].closedAt.Some? && scopes[s].closedAt.value <= at)
      decreases left
    {
      var s :| s in left;
      var h := scopes[s];
      if h.openedAt.Some? && h.openedAt.value <= at && h.members * hidden != {}
        && (h.closedAt.None? || h.closedAt.value > at) {
        assert HistOf(log, s) == h;
        return false;
      }
      left := left - {s};
    }
    forall s | Hist(log, s).Some? ensures
        HistOf(log, s).openedAt.Some? && HistOf(log, s).openedAt.value <= at && HistOf(log, s).members * hidden != {}
        ==> HistOf(log, s).closedAt.Some? && HistOf(log, s).closedAt.value <= at
    {
      assert s in scopes.Keys - left;
    }
    passed := true;
  }

  method CheckCancelBeforeReplan(log: Log) returns (passed: bool)
    ensures passed <==> CancelBeforeReplan(log)
  {
    var scopes := ScopeHistory(log);
    for i := 0 to |log|
      invariant forall k :: 0 <= k < i && log[k].body.Boundary? ==> BoundaryHolds(log, k)
    {
      if log[i].body.Boundary? {
        var ok := CheckBoundary(log, scopes, i);
        if !ok { return false; }
      }
    }
    passed := true;
  }

  method EarlyAnswer(log: Log, i: nat, s: Id) returns (early: bool)
    requires i < |log| && log[i].body.CancelRequested?
    ensures early <==> !NotAnsweredEarly(log, i, s)
  {
    for j := 0 to |log|
      invariant forall k ::
        0 <= k < j && log[k].body.Boundary? && log[k].body.answered == log[i].body.cause
            && log[k].runSeq > log[i].runSeq ==>
          ResolvedBy(HistOf(log, s), log[k].runSeq)
    {
      var b := log[j].body;
      if b.Boundary? && b.answered == log[i].body.cause && log[j].runSeq > log[i].runSeq
        && !ResolvedBy(HistOf(log, s), log[j].runSeq) {
        return true;
      }
    }
    early := false;
  }

  /** `s` was asked for at some position before `n`. */
  ghost predicate AskedBefore(log: Log, n: nat, s: Id)
    requires n <= |log|
  {
    exists k :: 0 <= k < n && log[k].body.CancelRequested? && s in log[k].body.requested
  }

  /** What the oracle asks of one scope of one request. */
  ghost predicate RequestOk(log: Log, i: nat, s: Id, final: bool)
    requires i < |log| && log[i].body.CancelRequested?
  {
    CouldStillCancel(HistOf(log, s), log[i].runSeq) && NotAnsweredEarly(log, i, s)
      && (final ==> HasResolved(HistOf(log, s)))
  }

  method CheckRequest(log: Log, i: nat, asked: set<Id>, final: bool) returns (passed: bool)
    requires i < |log| && log[i].body.CancelRequested?
    ensures passed <==> log[i].body.requested !! asked && forall s :: s in log[i].body.requested ==>
      RequestOk(log, i, s, final)
  {
    var left := log[i].body.requested;
    while left != {}
      invariant left <= log[i].body.requested
      invariant (log[i].body.requested - left) !! asked
      invariant forall s :: s in log[i].body.requested - left ==> RequestOk(log, i, s, final)
      decreases left
    {
      var s :| s in left;
      if s in asked || !CouldStillCancel(HistOf(log, s), log[i].runSeq) { return false; }
      var early := EarlyAnswer(log, i, s);
      if early || (final && !HasResolved(HistOf(log, s))) { return false; }
      left := left - {s};
    }
    passed := true;
  }

  method CheckRequestDiscipline(log: Log, final: bool) returns (passed: bool)
    ensures passed <==> RequestDiscipline(log) && (final ==> AllResolved(log))
  {
    var asked: set<Id> := {};
    for n := 0 to |log|
      invariant forall s :: s in asked <==> AskedBefore(log, n, s)
      invariant forall i, s :: 0 <= i < n && log[i].body.CancelRequested? && s in log[i].body.requested ==>
        RequestOk(log, i, s, final)
      invariant forall i, j, s ::
        0 <= i < j < n && log[i].body.CancelRequested? && log[j].body.CancelRequested?
            && s in log[i].body.requested ==>
          s !in log[j].body.requested
    {
      if log[n].body.CancelRequested? {
        var ok := CheckRequest(log, n, asked, final);
        if !ok {
          if s :| s in log[n].body.requested && s in asked { assert AskedBefore(log, n, s); }
          return false;
        }
        forall i, s | 0 <= i < n && log[i].body.CancelRequested? && s in log[i].body.requested
          ensures s !in log[n].body.requested {
          assert AskedBefore(log, n, s);
        }
        asked := asked + log[n].body.requested;
      }
      forall s ensures s in asked <==> AskedBefore(log, n + 1, s) {
        if AskedBefore(log, n + 1, s) && !AskedBefore(log, n, s) {
          assert log[n].body.CancelRequested? && s in log[n].body.requested;
        }
      }
    }
    passed := true;
  }

  /** Whether `v` already has an answer it has not failed again since. */
  ghost predicate Answered(log: Log, v: Id) {
    exists i :: 0 <= i < |log| && log[i].body.Boundary? && log[i].body.answered == v
      && forall k :: i < k < |log| ==> !FailsAt(log, k, v)
  }

  /** One for each vertex that has such an answer, and at most that. */
  ghost predicate Tallied(answers: map<Id, nat>, log: Log) {
    && (forall v :: v in answers ==> answers[v] <= 1)
    && (forall v :: (v in answers && answers[v] == 1) <==> Answered(log, v))
  }

  /** The tally after an event: a failure starts its vertex afresh, a boundary counts. */
  function Tally(answers: map<Id, nat>, b: Body): (r: map<Id, nat>) {
    if b.Failed? then answers[b.vertex := 0]
    else if b.Unreadable? then answers[b.planner := 0]
    else if b.Boundary? then answers[b.answered := (if b.answered in answers then answers[b.answered] else 0) + 1]
    else answers
  }

  lemma TallyStep(log: Log, n: nat, answers: map<Id, nat>)
    requires n < |log| && Tallied(answers, log[..n])
      && !(log[n].body.Boundary? && Answered(log[..n], log[n].body.answered))
    ensures Tallied(Tally(answers, log[n].body), log[..n + 1])
  {
    hide Answered;
    forall v
      ensures Answered(log[..n + 1], v)
        <==> (log[n].body.Boundary? && log[n].body.answered == v) || (Answered(log[..n], v) && !FailsAt(log, n, v))
    {
      AnsweredStep(log, n, v);
    }
    var b, r := log[n].body, Tally(answers, log[n].body);
    assert b.Boundary? ==> r[b.answered] == 1;
    forall v ensures (v in r && r[v] == 1) <==> Answered(log[..n + 1], v) {}
  }

  method CheckOneAnswer(log: Log) returns (passed: bool)
    ensures passed <==> OneAnswerPerFailure(log)
  {
    var answers: map<Id, nat> := map[];
    for n := 0 to |log|
      invariant forall i, j :: 0 <= i < j < n && AnswerAlike(log, i, j) ==> exists k ::
        i < k < j && FailsAt(log, k, log[i].body.answered)
      invariant Tallied(answers, log[..n])
    {
      var b := log[n].body;
      if b.Boundary? && b.answered in answers && answers[b.answered] > 0 {
        SecondAnswerFails(log, n);
        return false;
      }
      if b.Boundary? { AnswersApart(log, n); }
      TallyStep(log, n, answers);
      answers := Tally(answers, b);
    }
    passed := true;
  }

  lemma SecondAnswerFails(log: Log, n: nat)
    requires n < |log| && log[n].body.Boundary? && Answered(log[..n], log[n].body.answered)
    ensures !OneAnswerPerFailure(log)
  {
    var v := log[n].body.answered;
    var i :| 0 <= i < n && log[..n][i].body.Boundary? && log[..n][i].body.answered == v
      && forall k :: i < k < n ==> !FailsAt(log[..n], k, v);
    forall k | i < k < n ensures !FailsAt(log, k, v) { assert !FailsAt(log[..n], k, v); }
    assert log[i].body.answered == v;
    assert AnswerAlike(log, i, n);
  }

  lemma AnswersApart(log: Log, n: nat)
    requires n < |log| && log[n].body.Boundary? && !Answered(log[..n], log[n].body.answered)
    ensures forall i :: 0 <= i < n && AnswerAlike(log, i, n) ==> exists k ::
      i < k < n && FailsAt(log, k, log[i].body.answered)
  {
    var v := log[n].body.answered;
    forall i | 0 <= i < n && AnswerAlike(log, i, n)
      ensures exists k :: i < k < n && FailsAt(log, k, v)
    {
      assert log[..n][i] == log[i];
      var k :| i < k < n && FailsAt(log[..n], k, v);
      assert FailsAt(log, k, v);
    }
  }

  lemma AnsweredStep(log: Log, n: nat, v: Id)
    requires n < |log|
    ensures Answered(log[..n + 1], v)
        <==> (log[n].body.Boundary? && log[n].body.answered == v) || (Answered(log[..n], v) && !FailsAt(log, n, v))
  {
    var now, was := log[..n + 1], log[..n];
    if log[n].body.Boundary? && log[n].body.answered == v {
      assert now[n].body.Boundary? && now[n].body.answered == v;
    } else if Answered(was, v) && !FailsAt(log, n, v) {
      var i :| 0 <= i < n && was[i].body.Boundary? && was[i].body.answered == v && forall k :: i < k < n ==>
        !FailsAt(was, k, v);
      assert now[i] == was[i];
      forall k | i < k < n + 1 ensures !FailsAt(now, k, v) {
        if k < n { assert !FailsAt(was, k, v); }
      }
    }
    if Answered(now, v) {
      var i :| 0 <= i < n + 1 && now[i].body.Boundary? && now[i].body.answered == v && forall k :: i < k < n + 1 ==>
        !FailsAt(now, k, v);
      if i < n {
        assert !FailsAt(now, n, v);
        assert was[i] == now[i];
        forall k | i < k < n ensures !FailsAt(was, k, v) { assert !FailsAt(now, k, v); }
      }
    }
  }
}
