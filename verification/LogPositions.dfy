/**
 Events of a kind, by position: the last one, the first one, none, or how many; and what the readers
 of vertices say in these terms.
 */
module LogPositions {
  import opened EventLog

  type Kind = Event -> bool

  ghost predicate Never(log: Log, of: Kind) { forall i :: 0 <= i < |log| ==> !of(log[i]) }

  ghost predicate Last(log: Log, of: Kind, i: int) {
    0 <= i < |log| && of(log[i]) && forall j :: i < j < |log| ==> !of(log[j])
  }

  ghost predicate First(log: Log, of: Kind, i: int) {
    0 <= i < |log| && of(log[i]) && forall j :: 0 <= j < i ==> !of(log[j])
  }

  ghost function Tally(log: Log, of: Kind): (n: nat) { |set i | 0 <= i < |log| && of(log[i])| }

  lemma {:induction false} LastOne(log: Log, of: Kind) returns (i: nat)
    requires !Never(log, of)
    ensures Last(log, of, i)
  {
    var n := |log| - 1;
    if of(log[n]) {
      i := n;
    } else {
      i := LastOne(log[..n], of);
    }
  }

  lemma {:induction false} FirstOne(log: Log, of: Kind) returns (i: nat)
    requires !Never(log, of)
    ensures First(log, of, i)
  {
    var n := |log| - 1;
    if Never(log[..n], of) {
      i := n;
      assert forall j :: 0 <= j < n ==> log[..n][j] == log[j];
    } else {
      i := FirstOne(log[..n], of);
    }
  }

  lemma {:induction false} TallyStep(log: Log, of: Kind)
    requires log != []
    ensures Tally(log, of) == Tally(log[..|log| - 1], of) + if of(log[|log| - 1]) then 1 else 0
  {
    var n := |log| - 1;
    var before := set i | 0 <= i < n && of(log[..n][i]);
    var now := set i | 0 <= i < |log| && of(log[i]);
    assert forall i :: 0 <= i < n ==> log[..n][i] == log[i];
    assert now == if of(log[n]) then before + {n} else before;
  }

  lemma Nothing(of: Kind)
    ensures Never([], of) && forall i :: !Last([], of, i)
  {
  }

  /** What is last in a log whose own last event is not of the kind is last before it. */
  lemma StepBack(log: Log, of: Kind)
    requires log != []
    ensures var n := |log| - 1; !of(log[n]) ==>
      forall i :: Last(log, of, i) ==> 0 <= i < n && Last(log[..n], of, i) && log[..n][i] == log[i]
    ensures Never(log, of) ==> Never(log[..|log| - 1], of) && !of(log[|log| - 1])
    ensures forall i :: Last(log, of, i) && of(log[|log| - 1]) ==> i == |log| - 1
  {
  }

  lemma OneMore(log: Log, of: Kind)
    requires log != []
    ensures Never(log, of) <==> Never(log[..|log| - 1], of) && !of(log[|log| - 1])
  {
    var n := |log| - 1;
    assert forall i :: 0 <= i < n ==> log[..n][i] == log[i];
  }

  lemma OnlyFirst(log: Log, of: Kind, i: int)
    requires First(log, of, i)
    ensures forall j :: First(log, of, j) ==> j == i
  {
  }

  lemma OnlyLast(log: Log, of: Kind, i: int)
    requires Last(log, of, i)
    ensures forall j :: Last(log, of, j) ==> j == i
  {
  }

  lemma FirstHere(log: Log, of: Kind)
    requires log != [] && Never(log[..|log| - 1], of) && of(log[|log| - 1])
    ensures First(log, of, |log| - 1)
  {
    var n := |log| - 1;
    assert forall i :: 0 <= i < n ==> log[..n][i] == log[i];
  }

  lemma NeverLast(log: Log, of: Kind)
    requires Never(log, of)
    ensures forall i :: !Last(log, of, i)
  {
  }

  /* ---------------------------------------------------------------- since a position */

  /** The last event of a kind, if it came after position `c`. */
  ghost predicate LastSince(log: Log, of: Kind, c: int, i: int) { c < i && Last(log, of, i) }

  ghost predicate QuietSince(log: Log, of: Kind, c: int) { forall i :: 0 <= i && c < i < |log| ==> !of(log[i]) }

  lemma LastStays(log: Log, of: Kind, c: int)
    requires log != [] && Last(log[..|log| - 1], of, c) && !of(log[|log| - 1])
    ensures Last(log, of, c) && log[..|log| - 1][c] == log[c]
  {
  }

  lemma SinceStep(log: Log, of: Kind, c: int)
    requires log != [] && 0 <= c < |log| - 1
    ensures var n := |log| - 1;
      if of(log[n]) then forall i :: LastSince(log, of, c, i) <==> i == n
      else forall i :: LastSince(log, of, c, i) <==> LastSince(log[..n], of, c, i)
    ensures QuietSince(log, of, c) <==> QuietSince(log[..|log| - 1], of, c) && !of(log[|log| - 1])
  {
    var n := |log| - 1;
    assert forall i :: 0 <= i < n ==> log[..n][i] == log[i];
  }

  lemma LastInside(log: Log, of: Kind, c: int)
    ensures forall i :: LastSince(log, of, c, i) ==> 0 <= i < |log|
  {
  }

  ghost predicate FirstSince(log: Log, of: Kind, k: int, i: int) {
    0 <= i < |log| && k < i && of(log[i]) && forall j :: 0 <= j && k < j < i ==> !of(log[j])
  }

  lemma AfterK(log: Log, of: Kind, k: int, t: int)
    requires LastSince(log, of, k, t)
    ensures k < t < |log| && 0 <= t
  {
  }

  lemma NoneAfterEnd(log: Log, of: Kind)
    ensures QuietSince(log, of, |log| - 1)
  {
  }

  lemma {:induction false} SomeLast(log: Log, of: Kind, k: int)
    ensures QuietSince(log, of, k) <==> forall i :: !LastSince(log, of, k, i)
  {
    if !QuietSince(log, of, k) {
      var i := LastOne(log, of);
      assert LastSince(log, of, k, i);
    }
  }

  lemma NeverSince(log: Log, of: Kind, n: int)
    requires n == |log| - 1
    ensures forall i :: !LastSince(log, of, n, i) && !FirstSince(log, of, n, i)
  {
  }

  /* ---------------------------------------------------------------- vertices */

  function Successes(v: Id): Kind { (e: Event) => e.body.Succeeded? && e.body.vertex == v }

  function Creations(v: Id): Kind { (e: Event) => e.body.Created? && e.body.vertex == v }

  function Outcomes(v: Id): Kind {
    (e: Event) => (e.body.Failed? || e.body.Succeeded? || e.body.Retried?) && e.body.vertex == v
  }

  function Discards(v: Id): Kind { (e: Event) => e.body.Shadowed? && v in e.body.hidden }

  lemma {:induction false} CreatedOfIs(log: Log, v: Id)
    ensures Never(log, Creations(v)) ==> CreatedOf(log, v).None?
    ensures forall i :: Last(log, Creations(v), i) ==> CreatedOf(log, v) == Some(log[i].body)
  {
    hide Last, Never;
    if log == [] {
      Nothing(Creations(v));
    } else {
      CreatedOfIs(log[..|log| - 1], v);
      StepBack(log, Creations(v));
    }
  }

  lemma {:induction false} FirstScopeIs(log: Log, v: Id)
    ensures Never(log, Creations(v)) ==> FirstScope(log, v).None?
    ensures forall i :: First(log, Creations(v), i) ==> FirstScope(log, v) == log[i].body.scope
  {
    if log != [] {
      FirstScopeIs(log[1..], v);
      if !Creations(v)(log[0]) {
        forall i | First(log, Creations(v), i) ensures First(log[1..], Creations(v), i - 1) {
          assert i > 0;
        }
      }
    }
  }

  lemma {:induction false} SuccessSeqIs(log: Log, v: Id)
    ensures Never(log, Successes(v)) ==> SuccessSeq(log, v).None?
    ensures forall i :: Last(log, Successes(v), i) ==> SuccessSeq(log, v) == Some(log[i].runSeq)
  {
    hide Last, Never;
    if log == [] {
      Nothing(Successes(v));
    } else {
      SuccessSeqIs(log[..|log| - 1], v);
      StepBack(log, Successes(v));
    }
  }

  lemma {:induction false} HiddenIs(log: Log, v: Id)
    ensures v in Hidden(log) <==> !Never(log, Discards(v))
  {
    if log != [] {
      HiddenIs(log[..|log| - 1], v);
      OneMore(log, Discards(v));
    }
  }
}
