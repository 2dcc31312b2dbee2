/**
 What the recovery loop has left to do, by position, and in which order it looks at it.
 */
module OutstandingWork {
  import opened EventLog
  import opened RecoveryLadder
  import opened LogPositions
  import opened LogReaders

  /* ---------------------------------------------------------------- failures */

  /** The last thing that happened to this vertex is a failure, which nothing discarded and nobody escalated. */
  ghost predicate Standing(log: Log, v: Id) {
    && Never(log, Discards(v)) && Never(log, Escalations(v))
    && exists i :: Last(log, Outcomes(v), i) && log[i].body.Failed?
  }

  lemma UnrecoveredIs(log: Log, v: Id)
    ensures Unrecovered(log, v) <==> Standing(log, v)
  {
    hide Hidden, Escalated, LastOutcome, Never, Last;
    HiddenIs(log, v);
    EscalatedIs(log, v);
    LastOutcomeIs(log, v);
    if !Never(log, Outcomes(v)) {
      var i := LastOne(log, Outcomes(v));
      OnlyLast(log, Outcomes(v), i);
    } else {
      NeverLast(log, Outcomes(v));
    }
  }

  ghost predicate FailureAt(log: Log, k: int, v: Id) {
    0 <= k < |log| && log[k].body.Failed? && log[k].body.vertex == v && Standing(log, v)
  }

  /** These are the places of these failures: one after another, and none left out before `n`. */
  ghost predicate PlacesFailures(log: Log, n: nat, vs: seq<Id>, at: seq<int>) {
    && |at| == |vs|
    && (forall i :: 0 <= i < |at| ==> at[i] < n && FailureAt(log, at[i], vs[i]))
    && (forall i, j :: 0 <= i < j < |at| ==> at[i] < at[j])
    && (forall k, v :: k < n && FailureAt(log, k, v) ==> k in at)
  }

  lemma {:induction false} FailuresPlaced(log: Log, n: nat) returns (at: seq<int>)
    requires n <= |log|
    ensures PlacesFailures(log, n, FailuresBefore(log, n), at)
  {
    if n == 0 {
      at := [];
    } else {
      hide Standing, Unrecovered;
      at := FailuresPlaced(log, n - 1);
      var b := log[n - 1].body;
      if b.Failed? { UnrecoveredIs(log, b.vertex); }
      if b.Failed? && Unrecovered(log, b.vertex) { at := at + [n - 1]; }
    }
  }

  /* ---------------------------------------------------------------- stalls */

  /** An unreadable answer of `v`, after which no freeze gave `v` a child. */
  ghost predicate StallAt(log: Log, k: int, v: Id) {
    && 0 <= k < |log| && log[k].body == Unreadable(v)
    && forall j :: k < j < |log| ==> !(log[j].body.Created? && v in log[j].body.parents)
  }

  ghost predicate FirstStallAt(log: Log, k: int, v: Id) {
    StallAt(log, k, v) && forall j :: j < k ==> !StallAt(log, j, v)
  }

  lemma StallIs(log: Log, k: nat)
    requires Numbered(log) && k < |log| && log[k].body.Unreadable?
    ensures !GotChild(log, log[k].body.planner, log[k].runSeq) <==> StallAt(log, k, log[k].body.planner)
  {
  }

  ghost predicate PlacesStalls(log: Log, n: nat, ps: seq<Id>, at: seq<int>) {
    && |at| == |ps|
    && (forall i :: 0 <= i < |at| ==> at[i] < n && FirstStallAt(log, at[i], ps[i]) && Never(log, Answers(ps[i])))
    && (forall i, j :: 0 <= i < j < |at| ==> at[i] < at[j])
    && (forall k, v :: k < n && FirstStallAt(log, k, v) && Never(log, Answers(v)) ==> k in at)
  }

  lemma {:induction false} FirstStall(log: Log, k: nat, v: Id) returns (j: nat)
    requires StallAt(log, k, v)
    ensures j <= k && FirstStallAt(log, j, v)
    decreases k
  {
    if i :| 0 <= i < k && StallAt(log, i, v) {
      j := FirstStall(log, i, v);
    } else {
      j := k;
    }
  }

  lemma ListedIffStalled(log: Log, n: nat, ps: seq<Id>, at: seq<int>, v: Id)
    requires PlacesStalls(log, n, ps, at) && Never(log, Answers(v))
    ensures v in ps <==> exists k :: k < n && StallAt(log, k, v)
  {
    hide Never;
    if v in ps {
      var i :| 0 <= i < |ps| && ps[i] == v;
      assert at[i] < n && StallAt(log, at[i], v);
    }
    if k :| k < n && StallAt(log, k, v) {
      var j := FirstStall(log, k, v);
      var i :| 0 <= i < |at| && at[i] == j;
      assert log[j].body == Unreadable(ps[i]);
    }
  }

  lemma {:induction false} StallsPlaced(log: Log, n: nat) returns (at: seq<int>)
    requires Numbered(log) && n <= |log|
    ensures PlacesStalls(log, n, StalledBefore(log, n), at)
  {
    if n == 0 {
      at := [];
    } else {
      at := StallsPlaced(log, n - 1);
      var so, b := StalledBefore(log, n - 1), log[n - 1].body;
      if b.Unreadable? {
        AnsweredByIs(log, b.planner);
        StallIs(log, n - 1);
        if Never(log, Answers(b.planner)) { ListedIffStalled(log, n - 1, so, at, b.planner); }
        var was := at;
        if Never(log, Answers(b.planner)) && FirstStallAt(log, n - 1, b.planner) { at := at + [n - 1]; }
        StallStep(log, n, so, was);
      } else {
        var last := n - 1;
        assert forall v :: !StallAt(log, last, v);
      }
    }
  }

  lemma StallStep(log: Log, n: nat, ps: seq<Id>, at: seq<int>)
    requires 0 < n <= |log| && log[n - 1].body.Unreadable? && PlacesStalls(log, n - 1, ps, at)
    ensures var p := log[n - 1].body.planner;
      if Never(log, Answers(p)) && FirstStallAt(log, n - 1, p) then PlacesStalls(log, n, ps + [p], at + [n - 1])
      else PlacesStalls(log, n, ps, at)
  {
    hide Never;
    var last := n - 1;
    assert forall v :: FirstStallAt(log, last, v) ==> v == log[last].body.planner;
    hide FirstStallAt;
  }

  /* ---------------------------------------------------------------- both */

  /** A vertex is outstanding exactly as a standing failure, or as a stall no boundary ever answered. */
  lemma OutstandingExactly(log: Log, v: Id)
    requires Numbered(log)
    ensures v in Outstanding(log) <==>
      Standing(log, v) || (Never(log, Answers(v)) && exists k :: StallAt(log, k, v))
    ensures v in StalledPlanners(log) <==> Never(log, Answers(v)) && exists k :: StallAt(log, k, v)
  {
    hide Standing, Never, StallAt;
    FailuresExact(log, |log|, v);
    if Unrecovered(log, v) { FailedOnce(log, v); }
    UnrecoveredIs(log, v);
    var at := StallsPlaced(log, |log|);
    if v in StalledPlanners(log) {
      var i :| 0 <= i < |StalledPlanners(log)| && StalledPlanners(log)[i] == v;
      assert FirstStallAt(log, at[i], v);
    }
    if Never(log, Answers(v)) {
      ListedIffStalled(log, |log|, StalledPlanners(log), at, v);
      StallInside(log, v);
    }
  }

  lemma StallInside(log: Log, v: Id)
    ensures forall k :: StallAt(log, k, v) ==> k < |log|
  {
  }

  /**
   The order in which the loop looks: first every standing failure where it failed, then every unanswered stall where
   it first stalled, each group as the log has it, and none left out.
   */
  lemma OutstandingInOrder(log: Log) returns (failed: seq<int>, stalled: seq<int>)
    requires Numbered(log)
    ensures |failed| + |stalled| == |Outstanding(log)|
    ensures PlacesFailures(log, |log|, Outstanding(log)[..|failed|], failed)
    ensures PlacesStalls(log, |log|, Outstanding(log)[|failed|..], stalled)
  {
    failed := FailuresPlaced(log, |log|);
    stalled := StallsPlaced(log, |log|);
    assert Outstanding(log)[..|failed|] == UnrecoveredFailures(log);
    assert Outstanding(log)[|failed|..] == StalledPlanners(log);
  }
}
