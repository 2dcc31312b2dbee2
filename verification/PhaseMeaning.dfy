/**
 What phase a scope is in, by position: the last event that settles it outright, or where it was
 opened, and what failed and was asked for since.
 */
module PhaseMeaning {
  import opened EventLog
  import opened LogPositions
  import opened ScopePhases
  import opened LogReaders

  /** The events that put a scope in a phase whatever phase it was in. */
  function Decisive(s: Id): Kind {
    (e: Event) =>
      (e.body.ScopeState? && e.body.txn == s && e.body.declared != DeclaredOpen)
      || (e.body.Started? && e.body.pivot && e.body.scope == Some(s))
      || ((e.body.PivotPassed? || e.body.Cancel?) && e.body.txn == s)
  }

  /** The events that open a scope nobody had opened. */
  function Openers(s: Id): Kind {
    (e: Event) => e.body == ScopeState(s, DeclaredOpen) || (e.body.Try? && e.body.txn == s)
  }

  function FailuresIn(s: Id): Kind { (e: Event) => e.body.Failed? && e.body.scope == Some(s) }

  /** A pivot proven never to have happened. */
  function Disproofs(s: Id): Kind { (e: Event) => e.body.Failed? && e.body.scope == Some(s) && e.body.absent }

  /** A scope opened at `m` and never settled: asked for, else fenced by a failure, else open. */
  ghost function SinceOpened(log: Log, s: Id, m: int): (p: Phase) {
    if !QuietSince(log, Requests(s), m) then Asked else if !QuietSince(log, FailuresIn(s), m) then Fenced else Open
  }

  /** A scope whose pivot started at `d`: out, or disproved, and then fenced until it is asked for. */
  ghost predicate SincePivot(log: Log, s: Id, d: int, p: Phase) {
    || (QuietSince(log, Disproofs(s), d) && p == Inflight)
    || exists a ::
      FirstSince(log, Disproofs(s), d, a) && p == if QuietSince(log, Requests(s), a) then Fenced else Asked
  }

  ghost predicate SettledAs(log: Log, s: Id, d: int, p: Phase)
    requires 0 <= d < |log|
  {
    match log[d].body
    case ScopeState(_, declared) =>
      p == (match declared
            case DeclaredOpen => Open
            case DeclaredSuspended => Suspended
            case DeclaredCommitted => Committed
            case DeclaredCancelled => Cancelled)
    case PivotPassed(_, _) => p == Passed
    case Cancel(_, completed) => p == if completed then Cancelled else Cancelling
    case _ => SincePivot(log, s, d, p)
  }

  ghost predicate IsPhase(log: Log, s: Id, p: Phase) {
    || (Never(log, Decisive(s)) && Never(log, Openers(s)) && p == Unmaterialized)
    || (exists m :: Never(log, Decisive(s)) && First(log, Openers(s), m) && p == SinceOpened(log, s, m))
    || exists d :: Last(log, Decisive(s), d) && SettledAs(log, s, d, p)
  }

  lemma {:induction false} PhaseIs(log: Log, s: Id)
    ensures IsPhase(log, s, PhaseOf(log, s))
  {
    if log == [] {
    } else {
      var n := |log| - 1;
      var pre, e, p := log[..n], log[n], PhaseOf(log[..n], s);
      PhaseIs(pre, s);
      OneMore(log, Decisive(s));
      OneMore(log, Openers(s));
      if Decisive(s)(e) {
        DecisiveStep(log, s);
      } else if d :| Last(pre, Decisive(s), d) && SettledAs(pre, s, d, p) {
        SettledStep(log, s, d, p);
      } else if m :| Never(pre, Decisive(s)) && First(pre, Openers(s), m) && p == SinceOpened(pre, s, m) {
        OpenedStep(log, s, m);
      } else if Openers(s)(e) {
        FirstHere(log, Openers(s));
        NewlyOpened(log, s);
      } else {
        UnopenedStep(log, s);
      }
    }
  }

  lemma DecisiveStep(log: Log, s: Id)
    requires log != [] && Decisive(s)(log[|log| - 1])
    ensures IsPhase(log, s, PhaseOf(log, s))
  {
    var n := |log| - 1;
    NoneAfterEnd(log, Disproofs(s));
    assert Last(log, Decisive(s), n) && SettledAs(log, s, n, PhaseOf(log, s));
  }

  lemma NewlyOpened(log: Log, s: Id)
    requires log != [] && First(log, Openers(s), |log| - 1) && Never(log, Decisive(s))
    requires PhaseOf(log[..|log| - 1], s) == Unmaterialized
    ensures IsPhase(log, s, PhaseOf(log, s))
  {
    NoneAfterEnd(log, Requests(s));
    NoneAfterEnd(log, FailuresIn(s));
    assert PhaseOf(log, s) == SinceOpened(log, s, |log| - 1);
  }

  lemma UnopenedStep(log: Log, s: Id)
    requires log != [] && Never(log, Decisive(s)) && Never(log, Openers(s))
    requires PhaseOf(log[..|log| - 1], s) == Unmaterialized
    ensures IsPhase(log, s, PhaseOf(log, s))
  {
    var e := log[|log| - 1];
    assert !Decisive(s)(e) && !Openers(s)(e);
  }

  lemma OpenedStep(log: Log, s: Id, m: int)
    requires log != [] && Never(log[..|log| - 1], Decisive(s)) && First(log[..|log| - 1], Openers(s), m)
    requires !Decisive(s)(log[|log| - 1]) && PhaseOf(log[..|log| - 1], s) == SinceOpened(log[..|log| - 1], s, m)
    ensures IsPhase(log, s, PhaseOf(log, s))
  {
    var n := |log| - 1;
    OneMore(log, Decisive(s));
    assert First(log, Openers(s), m);
    SinceStep(log, Requests(s), m);
    SinceStep(log, FailuresIn(s), m);
    hide Never, First, QuietSince;
    assert PhaseOf(log, s) == SinceOpened(log, s, m);
  }

  lemma SettledStep(log: Log, s: Id, d: int, p: Phase)
    requires log != [] && Last(log[..|log| - 1], Decisive(s), d) && SettledAs(log[..|log| - 1], s, d, p)
    requires !Decisive(s)(log[|log| - 1]) && PhaseOf(log[..|log| - 1], s) == p
    ensures IsPhase(log, s, PhaseOf(log, s))
  {
    var n := |log| - 1;
    LastStays(log, Decisive(s), d);
    assert log[..n][d] == log[d];
    if log[d].body.Started? {
      PivotStep(log, s, d, p);
    } else {
      assert PhaseOf(log, s) == p;
    }
    assert SettledAs(log, s, d, PhaseOf(log, s));
  }

  lemma PivotStep(log: Log, s: Id, d: int, p: Phase)
    requires log != [] && 0 <= d < |log| - 1 && SincePivot(log[..|log| - 1], s, d, p)
    requires !Decisive(s)(log[|log| - 1]) && PhaseOf(log[..|log| - 1], s) == p
    ensures SincePivot(log, s, d, PhaseOf(log, s))
  {
    var n := |log| - 1;
    var pre, e := log[..n], log[n];
    SinceStep(log, Disproofs(s), d);
    if QuietSince(pre, Disproofs(s), d) && p == Inflight {
      if Disproofs(s)(e) {
        assert forall i :: 0 <= i < n ==> pre[i] == log[i];
        assert FirstSince(log, Disproofs(s), d, n);
        NoneAfterEnd(log, Requests(s));
      }
    } else {
      var a :| FirstSince(pre, Disproofs(s), d, a) && p == if QuietSince(pre, Requests(s), a) then Fenced else Asked;
      FirstStays(log, Disproofs(s), d, a);
      SinceStep(log, Requests(s), a);
      assert FirstSince(log, Disproofs(s), d, a);
    }
  }

  lemma FirstStays(log: Log, of: Kind, k: int, a: int)
    requires log != [] && FirstSince(log[..|log| - 1], of, k, a)
    ensures 0 <= a < |log| - 1 && FirstSince(log, of, k, a)
  {
    var n := |log| - 1;
    assert forall i :: 0 <= i < n ==> log[..n][i] == log[i];
  }

  /** The fold's phase is the one phase the log's events put a scope in. */
  lemma PhaseExactly(log: Log, s: Id, p: Phase)
    ensures p == PhaseOf(log, s) <==> IsPhase(log, s, p)
  {
    hide PhaseOf;
    PhaseIs(log, s);
    if IsPhase(log, s, p) { OnePhase(log, s, p, PhaseOf(log, s)); }
  }

  lemma OnePhase(log: Log, s: Id, p: Phase, q: Phase)
    requires IsPhase(log, s, p) && IsPhase(log, s, q)
    ensures p == q
  {
    hide SinceOpened, QuietSince;
    if !Never(log, Decisive(s)) {
      var d :| Last(log, Decisive(s), d) && SettledAs(log, s, d, p);
      OnlyLast(log, Decisive(s), d);
      assert SettledAs(log, s, d, q);
      if SincePivot(log, s, d, p) && SincePivot(log, s, d, q) { OneSincePivot(log, s, d, p, q); }
    } else {
      NeverLast(log, Decisive(s));
      NeverFirst(log, Openers(s));
    }
  }

  lemma OneSincePivot(log: Log, s: Id, d: int, p: Phase, q: Phase)
    requires SincePivot(log, s, d, p) && SincePivot(log, s, d, q)
    ensures p == q
  {
    assert forall a, b :: FirstSince(log, Disproofs(s), d, a) && FirstSince(log, Disproofs(s), d, b) ==> a == b;
    assert forall a :: FirstSince(log, Disproofs(s), d, a) ==> !QuietSince(log, Disproofs(s), d);
  }

  lemma NeverFirst(log: Log, of: Kind)
    ensures Never(log, of) ==> forall i :: !First(log, of, i)
    ensures forall i, j :: First(log, of, i) && First(log, of, j) ==> i == j
  {
  }
}
