/**
 Safety of recovery over whole runs: every log the Engine and the Coordinator can
 build together satisfies the independently written oracles.
 */
module RecoverySafety {
  import opened EventLog
  import opened CausalGraph
  import opened ScopePhases
  import opened RunOracles
  import opened RecoveryLadder
  import opened LadderFacts
  import opened RunProtocol
  import opened RunInvariant

  /* ---------------------------------------------------------------- what was true when an answer was recorded */

  /** `s` was asked for on behalf of `v`, as the ladder's fold remembers it. */
  ghost predicate AskedFor(log: Log, s: Id, v: Id) {
    Scope(log, s).Some? && Scope(log, s).value.requestedFor == Some(v)
  }

  ghost predicate CompletedIn(log: Log, s: Id) {
    exists k :: 0 <= k < |log| && log[k].body == Cancel(s, true)
  }

  /** The state of the log before a boundary justifies it, in the oracles' own terms. */
  ghost predicate AnswerSound(pre: Log, b: Body, hidden: set<Id>)
    requires b.Boundary?
  {
    && (forall s :: s in b.cited ==> HistOf(pre, s).closedAt.Some? && CompletedIn(pre, s))
    && (forall s :: AskedFor(pre, s, b.answered) ==> HistOf(pre, s).closedAt.Some? || HistOf(pre, s).suspendedAt.Some?)
    && IsCreated(pre, b.answered)
    && (if b.selected.None? then
          FirstScope(pre, b.answered).Some? ==>
            var h := HistOf(pre, FirstScope(pre, b.answered).value);
            h.openedAt.Some? ==> h.closedAt.Some? || h.suspendedAt.Some? || h.pivotAt.Some?
        else
          && hidden <= CreatedIds(pre)
          && forall s :: HistOf(pre, s).openedAt.Some? && HistOf(pre, s).members * hidden != {} ==>
            HistOf(pre, s).closedAt.Some?)
  }

  ghost predicate AskSound(pre: Log, b: Body)
    requires b.CancelRequested?
  {
    forall s :: s in b.requested ==>
      var h := HistOf(pre, s);
      && h.openedAt.Some? && h.cancellingAt.None? && h.closedAt.None? && h.suspendedAt.None?
      && (Scope(pre, s).Some? ==> Scope(pre, s).value.requestedFor.None?)
      && (h.pivotAt.Some? ==> ProvenAbsent(pre, s))
  }

  /** The status query disproved a pivot of this scope. */
  ghost predicate ProvenAbsent(log: Log, s: Id) {
    exists k :: 0 <= k < |log| && log[k].body.Failed? && log[k].body.absent && log[k].body.scope == Some(s)
  }

  /** The discard recorded right after a boundary. */
  function HiddenAfter(log: Log, i: nat): (hidden: set<Id>) {
    if i + 1 < |log| && log[i + 1].body.Shadowed? then log[i + 1].body.hidden else {}
  }

  ghost predicate BoundarySoundAt(log: Log, i: nat)
    requires i < |log| && log[i].body.Boundary?
  {
    && AnswerSound(log[..i], log[i].body, HiddenAfter(log, i))
    && (log[i].body.selected.Some? ==> i + 1 < |log| && log[i + 1].body.Shadowed?)
  }

  ghost predicate Sound(log: Log) {
    && (forall i :: 0 <= i < |log| && log[i].body.Boundary? ==> BoundarySoundAt(log, i))
    && (forall i :: 0 <= i < |log| && log[i].body.CancelRequested? ==> AskSound(log[..i], log[i].body))
  }

  /* ---------------------------------------------------------------- from the moment to the whole log */

  lemma {:induction false} HistMember(log: Log, s: Id, v: Id)
    ensures v in HistOf(log, s).members
        <==> exists i ::
          0 <= i < |log| && log[i].body.Created? && log[i].body.vertex == v && log[i].body.scope == Some(s)
  {
    if log != [] {
      var n := |log| - 1;
      HistMember(log[..n], s, v);
      if v in HistOf(log[..n], s).members {
        var i :| 0 <= i < n && log[..n][i].body.Created? && log[..n][i].body.vertex == v
          && log[..n][i].body.scope == Some(s);
        assert log[i].body.Created? && log[i].body.vertex == v && log[i].body.scope == Some(s);
      }
      if i :| 0 <= i < |log| && log[i].body.Created? && log[i].body.vertex == v && log[i].body.scope == Some(s) {
        if i < n { assert log[..n][i].body.Created?; }
      }
    }
  }

  /** A vertex created in a prefix belongs to the same scopes in the whole log. */
  lemma MembershipIsOld(log: Log, n: nat, s: Id, v: Id)
    requires CreatedOnce(log) && n <= |log| && v in CreatedIds(log[..n])
    ensures v in HistOf(log, s).members ==> v in HistOf(log[..n], s).members
  {
    if v in HistOf(log, s).members {
      HistMember(log, s, v);
      HistMember(log[..n], s, v);
      var i :| 0 <= i < |log| && log[i].body.Created? && log[i].body.vertex == v && log[i].body.scope == Some(s);
      var j :| 0 <= j < n && log[..n][j].body.Created? && log[..n][j].body.vertex == v;
      assert log[j].body.Created? && log[j].body.vertex == v;
      assert i == j;
      assert log[..n][i].body.scope == Some(s);
    }
  }

  lemma {:induction false} FirstScopePrefix(log: Log, n: nat, v: Id)
    requires n <= |log| && IsCreated(log[..n], v)
    ensures FirstScope(log, v) == FirstScope(log[..n], v)
  {
    if n > 0 && !(log[0].body.Created? && log[0].body.vertex == v) {
      var i :| 0 <= i < n && log[..n][i].body.Created? && log[..n][i].body.vertex == v;
      assert log[1..][..n - 1][i - 1] == log[..n][i];
      assert log[..n][1..] == log[1..][..n - 1];
      FirstScopePrefix(log[1..], n - 1, v);
    }
  }

  /** A boundary or a request leaves every history as it found it, and later events only add to it. */
  lemma PastAndFuture(log: Log, i: nat, s: Id)
    requires Numbered(log) && i < |log| && ScopeColumn(log[i].body).None?
    ensures Extends(HistOf(log[..i], s), HistOf(log, s), log[i].runSeq + 1)
    ensures Dated(HistOf(log[..i], s), log[i].runSeq)
  {
    assert log[..i + 1] == log[..i] + [log[i]];
    HistAppend(log[..i], log[i], s);
    HistoryExtends(log, i + 1, s, log[i].runSeq + 1);
    HistoryIsPast(log[..i], s, log[i].runSeq);
  }

  lemma CitationsStand(log: Log, i: nat, cited: set<Id>)
    requires Numbered(log) && i < |log| && ScopeColumn(log[i].body).None?
    requires forall s :: s in cited ==> HistOf(log[..i], s).closedAt.Some? && CompletedIn(log[..i], s)
    ensures CitationsHold(log, cited, log[i].runSeq)
  {
    forall s | s in cited ensures CompletedBefore(log, s, log[i].runSeq) && HistOf(log, s).closedAt.Some? {
      PastAndFuture(log, i, s);
      var k :| 0 <= k < i && log[..i][k].body == Cancel(s, true);
      assert log[k].body == Cancel(s, true) && log[k].runSeq < log[i].runSeq;
    }
  }

  lemma DiscardStands(log: Log, i: nat, hidden: set<Id>)
    requires Numbered(log) && CreatedOnce(log) && i < |log| && ScopeColumn(log[i].body).None?
      && hidden <= CreatedIds(log[..i])
    requires forall s :: HistOf(log[..i], s).openedAt.Some? && HistOf(log[..i], s).members * hidden != {} ==>
      HistOf(log[..i], s).closedAt.Some?
    ensures DiscardsClosed(log, hidden, log[i].runSeq)
  {
    var at := log[i].runSeq;
    forall s | Hist(log, s).Some? && HistOf(log, s).openedAt.Some? && HistOf(log, s).openedAt.value <= at
      && HistOf(log, s).members * hidden != {}
      ensures HistOf(log, s).closedAt.Some? && HistOf(log, s).closedAt.value <= at
    {
      PastAndFuture(log, i, s);
      var v :| v in HistOf(log, s).members * hidden;
      MembershipIsOld(log, i, s, v);
      assert v in HistOf(log[..i], s).members * hidden;
    }
  }

  lemma {:induction false} EscalationStands(log: Log, i: nat, v: Id)
    requires Numbered(log) && i < |log| && ScopeColumn(log[i].body).None? && IsCreated(log[..i], v)
    requires FirstScope(log[..i], v).Some? ==>
      var h := HistOf(log[..i], FirstScope(log[..i], v).value);
      h.openedAt.Some? ==> h.closedAt.Some? || h.suspendedAt.Some? || h.pivotAt.Some?
    ensures EscalationReleased(log, v, log[i].runSeq)
  {
    FirstScopePrefix(log, i, v);
    if FirstScope(log, v).Some? {
      PastAndFuture(log, i, FirstScope(log, v).value);
    }
  }

  lemma {:induction false} NextShadowIs(log: Log, i: nat)
    requires i + 1 < |log| && log[i + 1].body.Shadowed?
    ensures NextShadow(log, i + 1) == HiddenAfter(log, i)
  {
  }

  lemma SoundBoundaryHolds(log: Log, i: nat)
    requires Numbered(log) && CreatedOnce(log) && i < |log| && log[i].body.Boundary? && BoundarySoundAt(log, i)
    ensures BoundaryHolds(log, i)
  {
    var b := log[i].body;
    CitationsStand(log, i, b.cited);
    if b.selected.None? {
      EscalationStands(log, i, b.answered);
    } else {
      NextShadowIs(log, i);
      DiscardStands(log, i, HiddenAfter(log, i));
    }
  }

  /** What was right when each boundary was recorded is what the oracle finds at the end. */
  lemma SoundIsCancelBeforeReplan(log: Log)
    requires Numbered(log) && CreatedOnce(log) && Sound(log)
    ensures CancelBeforeReplan(log)
  {
    forall i | 0 <= i < |log| && log[i].body.Boundary? ensures BoundaryHolds(log, i) { SoundBoundaryHolds(log, i); }
  }

  /* ---------------------------------------------------------------- request discipline */

  /** The fold remembers the last request that named a scope. */
  lemma {:induction false} AskedForIs(log: Log, s: Id)
    ensures (Scope(log, s).Some? && Scope(log, s).value.requestedFor.Some?)
        <==> exists k :: 0 <= k < |log| && log[k].body.CancelRequested? && s in log[k].body.requested
    ensures Scope(log, s).Some? && Scope(log, s).value.requestedFor.Some?
        ==> exists k ::
          0 <= k < |log| && log[k].body.CancelRequested? && s in log[k].body.requested
            && Scope(log, s).value.requestedFor == Some(log[k].body.cause)
  {
    if log != [] {
      var n := |log| - 1;
      AskedForIs(log[..n], s);
      if log[n].body.CancelRequested? && s in log[n].body.requested {
        assert Scope(log, s).value.requestedFor == Some(log[n].body.cause);
      } else {
        assert Scope(log, s).Some? ==> Scope(log[..n], s).Some? || Scope(log, s).value.requestedFor.None?;
        if k :|
          0 <= k < n && log[..n][k].body.CancelRequested? && s in log[..n][k].body.requested
            && Scope(log[..n], s).Some? && Scope(log[..n], s).value.requestedFor == Some(log[..n][k].body.cause) {
          assert log[k].body.CancelRequested? && s in log[k].body.requested;
        }
        if k :| 0 <= k < |log| && log[k].body.CancelRequested? && s in log[k].body.requested {
          assert log[..n][k].body.CancelRequested? && s in log[..n][k].body.requested;
        }
      }
    }
  }

  lemma SoundIsAskedOnce(log: Log)
    requires Sound(log)
    ensures AskedOnce(log)
  {
    forall i, j, s | 0 <= i < j < |log| && log[i].body.CancelRequested? && log[j].body.CancelRequested?
      && s in log[i].body.requested
      ensures s !in log[j].body.requested
    {
      assert log[..j][i] == log[i];
      AskedForIs(log[..j], s);
      assert AskSound(log[..j], log[j].body);
    }
  }

  /** No answer to a failure precedes the resolution of a scope asked for on its behalf. */
  lemma SoundIsNotEarly(log: Log, i: nat, s: Id)
    requires Numbered(log) && Sound(log) && i < |log| && log[i].body.CancelRequested? && s in log[i].body.requested
    ensures NotAnsweredEarly(log, i, s)
  {
    SoundIsAskedOnce(log);
    forall j | 0 <= j < |log| && log[j].body.Boundary? && log[j].body.answered == log[i].body.cause
      && log[j].runSeq > log[i].runSeq
      ensures ResolvedBy(HistOf(log, s), log[j].runSeq)
    {
      assert i < j;
      assert log[..j][i] == log[i];
      AskedForIs(log[..j], s);
      var k :| 0 <= k < j && log[..j][k].body.CancelRequested? && s in log[..j][k].body.requested
        && Scope(log[..j], s).value.requestedFor == Some(log[..j][k].body.cause);
      assert log[k].body.CancelRequested? && s in log[k].body.requested;
      assert k == i;
      assert AskedFor(log[..j], s, log[j].body.answered);
      assert BoundarySoundAt(log, j);
      PastAndFuture(log, j, s);
    }
  }

  /** No request names a scope whose pivot had been started, proven absent or not. */
  ghost predicate NoPivotBeforeRequest(log: Log) {
    forall i, s :: 0 <= i < |log| && log[i].body.CancelRequested? && s in log[i].body.requested
      ==> !PivotStartedBefore(log, i, s)
  }

  ghost predicate PivotStartedBefore(log: Log, i: nat, s: Id)
    requires i <= |log|
  {
    exists k :: 0 <= k < i && log[k].body.Started? && log[k].body.pivot && log[k].body.scope == Some(s)
  }

  lemma {:induction false} PivotDate(log: Log, s: Id)
    ensures HistOf(log, s).pivotAt.Some? <==> PivotStartedBefore(log, |log|, s)
  {
    if log != [] {
      var n := |log| - 1;
      PivotDate(log[..n], s);
      if PivotStartedBefore(log[..n], n, s) {
        var k :| 0 <= k < n && log[..n][k].body.Started? && log[..n][k].body.pivot && log[..n][k].body.scope == Some(s);
        assert log[k].body.Started?;
      }
      if PivotStartedBefore(log, |log|, s) {
        var k :| 0 <= k < |log| && log[k].body.Started? && log[k].body.pivot && log[k].body.scope == Some(s);
        if k < n { assert log[..n][k].body.Started?; }
      }
    }
  }

  lemma PivotDatePrefix(log: Log, i: nat, s: Id)
    requires i <= |log|
    ensures HistOf(log[..i], s).pivotAt.Some? <==> PivotStartedBefore(log, i, s)
  {
    PivotDate(log[..i], s);
    if PivotStartedBefore(log[..i], i, s) {
      var k :| 0 <= k < i && log[..i][k].body.Started? && log[..i][k].body.pivot && log[..i][k].body.scope == Some(s);
      assert log[k].body.Started?;
    }
    if PivotStartedBefore(log, i, s) {
      var k :| 0 <= k < i && log[k].body.Started? && log[k].body.pivot && log[k].body.scope == Some(s);
      assert log[..i][k].body.Started?;
    }
  }

  lemma CouldStillCancelIff(log: Log, i: nat, s: Id)
    requires Numbered(log) && Sound(log) && i < |log| && log[i].body.CancelRequested? && s in log[i].body.requested
    ensures CouldStillCancel(HistOf(log, s), log[i].runSeq) <==> !PivotStartedBefore(log, i, s)
  {
    assert AskSound(log[..i], log[i].body);
    PastAndFuture(log, i, s);
    PivotDatePrefix(log, i, s);
  }

  /**
   The request oracle passes on a sound log exactly when no request names a scope whose
   pivot had started: it does not accept a pivot the status query disproved.
   */
  lemma SoundDiscipline(log: Log)
    requires Numbered(log) && Sound(log)
    ensures RequestDiscipline(log) <==> NoPivotBeforeRequest(log)
  {
    SoundIsAskedOnce(log);
    forall i, s | 0 <= i < |log| && log[i].body.CancelRequested? && s in log[i].body.requested
      ensures NotAnsweredEarly(log, i, s)
      ensures CouldStillCancel(HistOf(log, s), log[i].runSeq) <==> !PivotStartedBefore(log, i, s)
    {
      SoundIsNotEarly(log, i, s);
      CouldStillCancelIff(log, i, s);
    }
  }
}
