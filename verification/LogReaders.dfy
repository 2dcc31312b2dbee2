/**
 What the readers of the log say, by position.

 Each reader folds the log from the front or the back. Here every one of them is tied to the events
 themselves: the last one of a kind, the first one, some one, or how many there are.
 */
module LogReaders {
  import opened EventLog
  import opened ScopePhases
  import opened RecoveryLadder
  import opened LogPositions

  /* ---------------------------------------------------------------- events of a kind */

  /** What the ladder can be asked to answer: a failed call, or an answer nobody could read. */
  function Troubles(v: Id): Kind {
    (e: Event) => (e.body.Failed? && e.body.vertex == v) || (e.body.Unreadable? && e.body.planner == v)
  }

  function Answers(v: Id): Kind { (e: Event) => e.body.Boundary? && e.body.answered == v }

  function Escalations(v: Id): Kind {
    (e: Event) => e.body.Boundary? && e.body.answered == v && e.body.selected.None?
  }

  function Selections(p: Id): Kind { (e: Event) => e.body.Boundary? && e.body.selected == Some(p) }

  function Citations(s: Id): Kind { (e: Event) => e.body.Boundary? && s in e.body.cited }

  function Boundaries(after: nat): Kind { (e: Event) => e.body.Boundary? && e.runSeq > after }

  function Pivots(after: nat): Kind { (e: Event) => e.body.PivotPassed? && e.runSeq > after }

  function Proposals(at: nat): Kind { (e: Event) => e.body.Proposed? && e.runSeq == at }

  function Freezes(): Kind { (e: Event) => e.body.Frozen? }

  function Requests(s: Id): Kind { (e: Event) => e.body.CancelRequested? && s in e.body.requested }

  /** The scope was released: its cancellation completed, or was declared. */
  function Closings(s: Id): Kind {
    (e: Event) => e.body == Cancel(s, true) || e.body == ScopeState(s, DeclaredCancelled)
  }

  /** Any event that speaks of a scope, in its scope column or in the list of a request. */
  function Namings(s: Id): Kind {
    (e: Event) => (e.body.CancelRequested? && s in e.body.requested) || ScopeColumn(e.body) == Some(s)
  }

  /* ---------------------------------------------------------------- what the ladder reads */

  lemma {:induction false} FailureSeqIs(log: Log, v: Id)
    ensures Never(log, Troubles(v)) ==> FailureSeq(log, v) == 0
    ensures forall i :: Last(log, Troubles(v), i) ==> FailureSeq(log, v) == log[i].runSeq
  {
    hide Last, Never;
    if log == [] {
      Nothing(Troubles(v));
    } else {
      FailureSeqIs(log[..|log| - 1], v);
      StepBack(log, Troubles(v));
    }
  }

  /** A position is at or above the floor exactly when no pivot passed after it. */
  lemma {:induction false} FloorIs(log: Log, at: nat)
    ensures at < BacktrackFloor(log) <==> !Never(log, Pivots(at))
  {
    if log != [] {
      FloorIs(log[..|log| - 1], at);
      OneMore(log, Pivots(at));
    }
  }

  lemma {:induction false} TimesSelectedIs(log: Log, p: Id)
    ensures TimesSelected(log, p) == Tally(log, Selections(p))
  {
    if log != [] {
      TimesSelectedIs(log[..|log| - 1], p);
      TallyStep(log, Selections(p));
    }
  }

  lemma {:induction false} BoundariesAfterIs(log: Log, after: nat)
    ensures BoundariesAfter(log, after) == Tally(log, Boundaries(after))
  {
    if log != [] {
      BoundariesAfterIs(log[..|log| - 1], after);
      TallyStep(log, Boundaries(after));
    }
  }

  lemma {:induction false} ReportedIs(log: Log, s: Id)
    ensures s in Reported(log) <==> !Never(log, Citations(s))
  {
    if log != [] {
      ReportedIs(log[..|log| - 1], s);
      OneMore(log, Citations(s));
    }
  }

  lemma {:induction false} EscalatedIs(log: Log, v: Id)
    ensures v in Escalated(log) <==> !Never(log, Escalations(v))
  {
    if log != [] {
      EscalatedIs(log[..|log| - 1], v);
      OneMore(log, Escalations(v));
    }
  }

  lemma {:induction false} AnsweredByIs(log: Log, v: Id)
    ensures v in AnsweredBy(log) <==> !Never(log, Answers(v))
  {
    if log != [] {
      AnsweredByIs(log[..|log| - 1], v);
      OneMore(log, Answers(v));
    }
  }

  lemma {:induction false} LastOutcomeIs(log: Log, v: Id)
    ensures Never(log, Outcomes(v)) ==> LastOutcome(log, v) == NoOutcome
    ensures forall i :: Last(log, Outcomes(v), i) ==>
      (LastOutcome(log, v) == DidFail <==> log[i].body.Failed?)
        && (LastOutcome(log, v) == DidSucceed <==> log[i].body.Succeeded?)
        && (LastOutcome(log, v) == DidRetry <==> log[i].body.Retried?)
  {
    hide Last, Never;
    if log == [] {
      Nothing(Outcomes(v));
    } else {
      LastOutcomeIs(log[..|log| - 1], v);
      StepBack(log, Outcomes(v));
    }
  }

  /** Who made a proposal: what the log says at that position, or an author. */
  lemma {:induction false} SourceAtIs(log: Log, at: nat)
    ensures Never(log, Proposals(at)) ==> SourceAt(log, at) == Submitted
    ensures forall i :: Last(log, Proposals(at), i) ==> SourceAt(log, at) == log[i].body.source
  {
    hide Last, Never;
    if log == [] {
      Nothing(Proposals(at));
    } else {
      SourceAtIs(log[..|log| - 1], at);
      StepBack(log, Proposals(at));
    }
  }

  /* ---------------------------------------------------------------- scopes */

  lemma {:induction false} MentionedIs(log: Log, s: Id)
    ensures Scope(log, s).Some? <==> !Never(log, Namings(s))
  {
    if log != [] {
      MentionedIs(log[..|log| - 1], s);
      OneMore(log, Namings(s));
    }
  }

  /** A scope is as old as the first event that speaks of it. */
  lemma {:induction false} OldestIs(log: Log, s: Id)
    requires Numbered(log)
    ensures forall i :: First(log, Namings(s), i) ==>
      Scope(log, s).Some? && Scope(log, s).value.firstMember == log[i].runSeq
  {
    if log != [] {
      var n := |log| - 1;
      NumberedPrefix(log, n);
      OldestIs(log[..n], s);
      MentionedIs(log[..n], s);
      forall i | First(log, Namings(s), i)
        ensures Scope(log, s).Some? && Scope(log, s).value.firstMember == log[i].runSeq
      {
        if i < n {
          assert log[..n][i] == log[i];
          assert First(log[..n], Namings(s), i);
        } else {
          assert Never(log[..n], Namings(s));
        }
      }
    }
  }

  lemma {:induction false} RequestedForIs(log: Log, s: Id)
    ensures Never(log, Requests(s)) ==> Scope(log, s).None? || Scope(log, s).value.requestedFor.None?
    ensures forall i :: Last(log, Requests(s), i) ==>
      Scope(log, s).Some? && Scope(log, s).value.requestedFor == Some(log[i].body.cause)
  {
    hide Last, Never;
    if log == [] {
      Nothing(Requests(s));
    } else {
      RequestedForIs(log[..|log| - 1], s);
      StepBack(log, Requests(s));
    }
  }

  lemma {:induction false} ClosedAtIs(log: Log, s: Id)
    ensures Never(log, Closings(s)) ==> Scope(log, s).None? || Scope(log, s).value.cancelledSeq.None?
    ensures forall i :: Last(log, Closings(s), i) ==>
      Scope(log, s).Some? && Scope(log, s).value.cancelledSeq == Some(log[i].runSeq)
  {
    hide Last, Never;
    if log == [] {
      Nothing(Closings(s));
    } else {
      ClosedAtIs(log[..|log| - 1], s);
      StepBack(log, Closings(s));
    }
  }

  /* ---------------------------------------------------------------- freezes */

  /** A vertex the freeze at `n` created: nothing but creations lies between them. */
  ghost predicate FrozenWith(log: Log, n: int, i: int) {
    0 <= n < i < |log| && forall j :: n < j <= i ==> log[j].body.Created?
  }

  lemma {:induction false} FrozenVerticesAre(log: Log, n: nat, m: nat, v: Id)
    requires n < m <= |log| && forall j :: n < j < m ==> log[j].body.Created?
    ensures v in FrozenVertices(log, m) <==> exists i :: m <= i && FrozenWith(log, n, i) && log[i].body.vertex == v
    decreases |log| - m
  {
    if m < |log| && log[m].body.Created? {
      FrozenVerticesAre(log, n, m + 1, v);
      assert FrozenWith(log, n, m);
    }
  }

  /** The freeze at `n` created work, and all of it has succeeded since. */
  ghost predicate Done(log: Log, n: int) {
    && 0 <= n < |log| && log[n].body.Frozen?
    && FrozenWith(log, n, n + 1)
    && forall i :: FrozenWith(log, n, i) ==> !Never(log, Successes(log[i].body.vertex))
  }

  lemma ResolvedIs(log: Log, n: nat)
    requires n < |log|
    ensures Resolved(log, n) <==> Done(log, n)
  {
    var vs := FrozenVertices(log, n + 1);
    forall v ensures v in vs <==> exists i :: n + 1 <= i && FrozenWith(log, n, i) && log[i].body.vertex == v {
      FrozenVerticesAre(log, n, n + 1, v);
    }
    forall v ensures SuccessSeq(log, v).Some? <==> !Never(log, Successes(v)) {
      SuccessSeqIs(log, v);
      if !Never(log, Successes(v)) { var i := LastOne(log, Successes(v)); }
    }
    if FrozenWith(log, n, n + 1) { assert log[n + 1].body.vertex in vs; }
  }

  /** The failure episode began with the last freeze whose work was all done, or with the run. */
  ghost predicate EpisodeBegan(log: Log, at: nat) {
    if exists n :: Done(log, n) 
      then exists n :: Done(log, n) && at == log[n].runSeq && forall m :: m > n ==> !Done(log, m)
    else at == 0
  }

  lemma {:induction false} NoneResolved(log: Log, n: nat)
    requires n <= |log| && forall m :: 0 <= m < n ==> !Done(log, m)
    ensures LastResolvedBefore(log, n) == 0
  {
    hide Done, Resolved;
    if n > 0 {
      NoneResolved(log, n - 1);
      ResolvedIs(log, n - 1);
    }
  }

  lemma {:induction false} LastResolvedIs(log: Log, n: nat, m: nat)
    requires m < n <= |log| && Done(log, m) && forall k :: m < k < n ==> !Done(log, k)
    ensures LastResolvedBefore(log, n) == log[m].runSeq
  {
    hide Done, Resolved;
    ResolvedIs(log, n - 1);
    if m < n - 1 { LastResolvedIs(log, n - 1, m); }
  }

  /** An episode counts the boundaries since it began. */
  lemma EpisodeIs(log: Log, at: nat)
    requires EpisodeBegan(log, at)
    ensures Episode(log) == Tally(log, Boundaries(at))
  {
    hide LastResolvedBefore;
    if exists n :: Done(log, n) {
      var n :| Done(log, n) && at == log[n].runSeq && forall m :: m > n ==> !Done(log, m);
      LastResolvedIs(log, |log|, n);
    } else {
      NoneResolved(log, |log|);
    }
    BoundariesAfterIs(log, at);
  }

  lemma {:induction false} EpisodeBegins(log: Log, n: nat) returns (at: nat)
    requires n <= |log| && forall m :: m >= n ==> !Done(log, m)
    ensures EpisodeBegan(log, at)
  {
    if n == 0 {
      at := 0;
    } else if Done(log, n - 1) {
      at := log[n - 1].runSeq;
    } else {
      at := EpisodeBegins(log, n - 1);
    }
  }

  /* ---------------------------------------------------------------- authorship */

  /** The freeze that created a vertex answered a proposal a rule had made. */
  ghost predicate ByRule(log: Log, v: Id) {
    exists c, f, p ::
      First(log, Creations(v), c) && Last(log[..c], Freezes(), f) && 0 <= p < |log|
        && log[p].body == Proposed(ByRouter) && log[p].runSeq == log[f].body.proposedSeq
  }

  lemma {:induction false} AuthoredFromIs(log: Log, n: nat, v: Id, current: Source, c: nat)
    requires n <= c && First(log, Creations(v), c)
    ensures (forall j :: n <= j < c ==> !log[j].body.Frozen?) ==>
      AuthoredFrom(log, n, v, current) == (current == ByRouter)
    ensures forall f :: n <= f && Last(log[..c], Freezes(), f) ==>
      AuthoredFrom(log, n, v, current) == (SourceAt(log, log[f].body.proposedSeq) == ByRouter)
    decreases c - n
  {
    if n < c {
      var b := log[n].body;
      assert !Creations(v)(log[n]);
      AuthoredFromIs(log, n + 1, v, if b.Frozen? then SourceAt(log, b.proposedSeq) else current, c);
      forall f | n <= f && Last(log[..c], Freezes(), f)
        ensures AuthoredFrom(log, n, v, current) == (SourceAt(log, log[f].body.proposedSeq) == ByRouter)
      {
        if f == n { assert forall j :: n < j < c ==> log[..c][j] == log[j]; }
      }
    }
  }

  lemma {:induction false} NeverAuthored(log: Log, n: nat, v: Id, current: Source)
    requires n <= |log| && Never(log, Creations(v))
    ensures !AuthoredFrom(log, n, v, current)
    decreases |log| - n
  {
    if n < |log| {
      assert !Creations(v)(log[n]);
      NeverAuthored(log, n + 1, v, if log[n].body.Frozen? then SourceAt(log, log[n].body.proposedSeq) else current);
    }
  }

  lemma {:induction false} SourceIsRouter(log: Log, at: nat)
    requires Numbered(log)
    ensures SourceAt(log, at) == ByRouter <==>
      exists p :: 0 <= p < |log| && log[p].body == Proposed(ByRouter) && log[p].runSeq == at
  {
    SourceAtIs(log, at);
    if !Never(log, Proposals(at)) {
      var i := LastOne(log, Proposals(at));
      if p :| 0 <= p < |log| && log[p].body == Proposed(ByRouter) && log[p].runSeq == at {
        assert p == i;
      }
    }
  }

  lemma RuleAuthoredIs(log: Log, v: Id)
    requires Numbered(log)
    ensures RuleAuthored(log, v) <==> ByRule(log, v)
  {
    if Never(log, Creations(v)) {
      NeverAuthored(log, 0, v, Submitted);
    } else {
      var c := FirstOne(log, Creations(v));
      AuthoredFromIs(log, 0, v, Submitted, c);
      if Never(log[..c], Freezes()) {
        assert forall j :: 0 <= j < c ==> log[..c][j] == log[j];
        if ByRule(log, v) { OnlyFirst(log, Creations(v), c); }
      } else {
        var f := LastOne(log[..c], Freezes());
        SourceIsRouter(log, log[f].body.proposedSeq);
        OnlyFirst(log, Creations(v), c);
        OnlyLast(log[..c], Freezes(), f);
        assert log[..c][f] == log[f];
      }
    }
  }
}
