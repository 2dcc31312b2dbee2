/** What the oracles' history of a scope says, by position. */
module HistoryMeaning {
  import opened EventLog
  import opened LogPositions
  import opened RunOracles

  function Sightings(s: Id): Kind { (e: Event) => (e.body.ScopeState? || e.body.Try?) && e.body.txn == s }

  function Beginnings(s: Id): Kind { (e: Event) => e.body == Cancel(s, false) }

  function Endings(s: Id): Kind {
    (e: Event) =>
      e.body == ScopeState(s, DeclaredCommitted) || e.body == ScopeState(s, DeclaredCancelled)
      || e.body == Cancel(s, true)
  }

  function Suspensions(s: Id): Kind { (e: Event) => e.body == ScopeState(s, DeclaredSuspended) }

  function PivotStarts(s: Id): Kind { (e: Event) => e.body.Started? && e.body.pivot && e.body.scope == Some(s) }

  /** The date is that of the first event of the kind. */
  ghost predicate FirstDated(log: Log, of: Kind, at: Option<nat>) {
    && (Never(log, of) <==> at.None?)
    && forall i :: First(log, of, i) ==> at == Some(log[i].runSeq)
  }

  ghost predicate IsHistory(log: Log, s: Id, h: History) {
    && FirstDated(log, Sightings(s), h.openedAt)
    && FirstDated(log, Beginnings(s), h.cancellingAt)
    && FirstDated(log, Endings(s), h.closedAt)
    && FirstDated(log, Suspensions(s), h.suspendedAt)
    && FirstDated(log, PivotStarts(s), h.pivotAt)
    && forall v :: v in h.members <==> !Never(log, BornIn(s, v))
  }

  function BornIn(s: Id, v: Id): Kind { (e: Event) => e.body.Created? && e.body.vertex == v && e.body.scope == Some(s) }

  lemma FirstDatedStep(log: Log, of: Kind, at: Option<nat>)
    requires log != [] && FirstDated(log[..|log| - 1], of, at)
    ensures FirstDated(log, of, FirstOf(at, of(log[|log| - 1]), log[|log| - 1].runSeq))
  {
    var n := |log| - 1;
    OneMore(log, of);
    assert forall i :: 0 <= i < n ==> log[..n][i] == log[i];
    if at.Some? {
      var j := FirstOne(log[..n], of);
      assert forall i :: First(log, of, i) ==> i == j;
    } else {
      assert forall i :: First(log, of, i) ==> i == n;
    }
  }

  /** Where numbers ascend the least is the first. */
  lemma LeastIsFirst(log: Log, of: Kind, at: Option<nat>)
    requires log != [] && Numbered(log) && FirstDated(log[..|log| - 1], of, at)
    ensures LeastOf(at, of(log[|log| - 1]), log[|log| - 1].runSeq) ==
      FirstOf(at, of(log[|log| - 1]), log[|log| - 1].runSeq)
  {
    if at.Some? {
      var j := FirstOne(log[..|log| - 1], of);
      assert log[..|log| - 1][j] == log[j];
    }
  }

  lemma HistStep(log: Log, s: Id)
    requires log != []
    ensures var h, e, g := HistOf(log[..|log| - 1], s), log[|log| - 1], HistOf(log, s);
      && g.openedAt == LeastOf(h.openedAt, Sightings(s)(e), e.runSeq)
      && g.cancellingAt == FirstOf(h.cancellingAt, Beginnings(s)(e), e.runSeq)
      && g.closedAt == FirstOf(h.closedAt, Endings(s)(e), e.runSeq)
      && g.suspendedAt == FirstOf(h.suspendedAt, Suspensions(s)(e), e.runSeq)
      && g.pivotAt == FirstOf(h.pivotAt, PivotStarts(s)(e), e.runSeq)
      && forall v :: v in g.members <==> v in h.members || BornIn(s, v)(e)
  {
  }

  /** Every date of every scope's history is that of the first event that gives it. */
  lemma {:induction false} HistoryExactly(log: Log, s: Id)
    requires Numbered(log)
    ensures IsHistory(log, s, HistOf(log, s))
  {
    hide FirstDated, HistOf, FirstOf, LeastOf;
    if log == [] {
      NoDates(s);
    } else {
      var n := |log| - 1;
      NumberedPrefix(log, n);
      HistoryExactly(log[..n], s);
      HistStep(log, s);
      hide Never, Numbered;
      var h := HistOf(log[..n], s);
      FirstDatedStep(log, Sightings(s), h.openedAt);
      LeastIsFirst(log, Sightings(s), h.openedAt);
      FirstDatedStep(log, Beginnings(s), h.cancellingAt);
      FirstDatedStep(log, Endings(s), h.closedAt);
      FirstDatedStep(log, Suspensions(s), h.suspendedAt);
      FirstDatedStep(log, PivotStarts(s), h.pivotAt);
      forall v ensures v in HistOf(log, s).members <==> !Never(log, BornIn(s, v)) { OneMore(log, BornIn(s, v)); }
    }
  }

  lemma NoDates(s: Id)
    ensures IsHistory([], s, HistOf([], s))
  {
  }
}
