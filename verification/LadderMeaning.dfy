/**
 What the ladder's decision is, said of the log's events.

 `IsAnswer` describes the decision by who passed, named, asked for, released and reported what, and
 when. `DecisionExactly` shows that the decision procedure returns the one decision it describes.
 */
module LadderMeaning {
  import opened EventLog
  import opened CausalGraph
  import opened ScopePhases
  import opened RecoveryLadder
  import opened LadderFacts
  import opened LogPositions
  import opened LogReaders

  /* ---------------------------------------------------------------- what a replan touches */

  /** Resuming at `p` would discard a member of this scope, and the scope was opened. */
  ghost predicate Disturbs(log: Log, p: Id, s: Id) {
    && PhaseOf(log, s) != Unmaterialized
    && exists i ::
      0 <= i < |log| && log[i].body.Created? && log[i].body.scope == Some(s)
        && log[i].body.vertex in Descendants(log, p) && Never(log, Discards(log[i].body.vertex))
  }

  lemma DisturbsIs(log: Log, p: Id, s: Id)
    ensures s in ScopesMeeting(log, ShadowSet(log, p)) <==> Disturbs(log, p, s)
  {
    hide Descendants, MembersOf, PhaseOf, ScopeIds, Hidden, Never;
    MentionedHasEntry(log, s);
    MaterializedHasEntry(log, s);
    forall v ensures v in Hidden(log) <==> !Never(log, Discards(v)) { HiddenIs(log, v); }
    if s in ScopesMeeting(log, ShadowSet(log, p)) {
      var v :| v in MembersOf(log, s) * ShadowSet(log, p);
      MemberIffCreated(log, s, v);
    }
    if Disturbs(log, p, s) {
      var i :| 0 <= i < |log| && log[i].body.Created? && log[i].body.scope == Some(s)
        && log[i].body.vertex in Descendants(log, p) && Never(log, Discards(log[i].body.vertex));
      MemberIffCreated(log, s, log[i].body.vertex);
      assert log[i].body.vertex in MembersOf(log, s) * ShadowSet(log, p);
    }
  }

  lemma {:induction false} MaterializedHasEntry(log: Log, s: Id)
    ensures PhaseOf(log, s) != Unmaterialized ==> Scope(log, s).Some?
  {
  }

  /** Released after everything that went wrong with `v`. */
  ghost predicate UndoneSince(log: Log, v: Id, s: Id) {
    && PhaseOf(log, s) == Cancelled
    && exists c ::
      0 <= c < |log| && Closings(s)(log[c])
        && forall f :: 0 <= f < |log| && Troubles(v)(log[f]) ==> log[f].runSeq < log[c].runSeq
  }

  lemma {:induction false} UndoneIs(log: Log, v: Id, s: Id)
    requires Numbered(log)
    ensures CancelledSince(log, s, FailureSeq(log, v)) <==> UndoneSince(log, v, s)
  {
    hide PhaseOf, FailureSeq, Scope;
    ClosedAtIs(log, s);
    FailureSeqIs(log, v);
    ClosedHasEntry(log, s);
    if !Never(log, Closings(s)) {
      var c := LastOne(log, Closings(s));
      if Never(log, Troubles(v)) {
      } else {
        var f := LastOne(log, Troubles(v));
      }
    }
  }

  lemma {:induction false} ClosedHasEntry(log: Log, s: Id)
    ensures PhaseOf(log, s) == Cancelled ==> Scope(log, s).Some?
  {
  }

  /** A cancellation may still release it: it is not settled, and its pivot is not out. */
  predicate Releasable(p: Phase) { !Settled(p) && p != Inflight }

  /** Going back to `e` would leave it with less than it had: a scope it must undo was spoken of before it succeeded. */
  ghost predicate UndoesEarlier(log: Log, v: Id, e: Above) {
    exists s, j ::
      Disturbs(log, e.planner, s) && (Releasable(PhaseOf(log, s)) || UndoneSince(log, v, s))
        && 0 <= j < |log| && Namings(s)(log[j]) && log[j].runSeq < e.succeededAt
  }

  ghost predicate HeldOpen(log: Log, p: Id) {
    exists s :: Disturbs(log, p, s) && PhaseOf(log, s) in {Suspended, Inflight, Passed}
  }

  lemma {:induction false} SavepointIs(log: Log, v: Id, e: Above)
    requires Numbered(log)
    ensures UndoesEarlier(log, v, e) <==> exists s ::
      s in ScopesMeeting(log, ShadowSet(log, e.planner)) && SavepointBefore(log, s, FailureSeq(log, v), e.succeededAt)
  {
    hide ScopesMeeting, ShadowSet, CancelledSince, FailureSeq, Disturbs, UndoneSince, PhaseOf, Scope;
    forall s ensures s in ScopesMeeting(log, ShadowSet(log, e.planner)) <==> Disturbs(log, e.planner, s) {
      DisturbsIs(log, e.planner, s);
    }
    forall s ensures SavepointBefore(log, s, FailureSeq(log, v), e.succeededAt) <==>
      (Releasable(PhaseOf(log, s)) || UndoneSince(log, v, s))
        && exists j :: 0 <= j < |log| && Namings(s)(log[j]) && log[j].runSeq < e.succeededAt
    {
      UndoneIs(log, v, s);
      OlderThan(log, s, e.succeededAt);
    }
  }

  lemma {:induction false} OlderThan(log: Log, s: Id, at: nat)
    requires Numbered(log)
    ensures (Scope(log, s).Some? && Scope(log, s).value.firstMember < at) <==>
      exists j :: 0 <= j < |log| && Namings(s)(log[j]) && log[j].runSeq < at
  {
    hide Scope;
    MentionedIs(log, s);
    OldestIs(log, s);
    if !Never(log, Namings(s)) {
      var i := FirstOne(log, Namings(s));
    }
  }

  /**
   What becomes of one planner above a failure, in the order the reasons are given: a pivot passed after it succeeded;
   a scope it disturbs is held open; it would undo what came before it; it was resumed as often as allowed; it costs
   too much. Otherwise it is priced, and needs exactly the disturbed scopes that can still be released.
   */
  ghost predicate IsVerdict(log: Log, v: Id, policy: Policy, price: Pricing, e: Above, c: Candidate) {
    && c.planner == e.planner && c.succeededAt == e.succeededAt
    && if !Never(log, Pivots(e.succeededAt)) then c.Rejected? && c.reason == BelowFloor
       else if HeldOpen(log, e.planner) then c.Rejected? && c.reason == OpenBracket
       else if UndoesEarlier(log, v, e) then c.Rejected? && c.reason == SavepointPrecedes
       else if Tally(log, Selections(e.planner)) >= policy.maxPerPlanner then
         c.Rejected? && c.reason == CounterExhausted
       else if TooDear(log, policy, price, e.planner) then c.Rejected? && c.reason == BudgetExceeded
       else
         && c.Priced? && c.cost == price(log, e.planner)
         && forall s :: s in c.requires_ <==> Disturbs(log, e.planner, s) && Releasable(PhaseOf(log, s))
  }

  predicate TooDear(log: Log, policy: Policy, price: Pricing, p: Id) {
    policy.budget.Some? && price(log, p) > policy.budget.value
  }

  lemma VerdictExactly(log: Log, v: Id, policy: Policy, price: Pricing, e: Above)
    requires Numbered(log)
    ensures IsVerdict(log, v, policy, price, e, CandidateFor(log, v, policy, price, e, ShadowSet(log, e.planner)))
  {
    hide ScopesMeeting, ShadowSet, SavepointBefore, FailureSeq, Disturbs, UndoesEarlier, PhaseOf, Never, Tally,
      TimesSelected, BacktrackFloor;
    FloorIs(log, e.succeededAt);
    TimesSelectedIs(log, e.planner);
    SavepointIs(log, v, e);
    forall s ensures s in ScopesMeeting(log, ShadowSet(log, e.planner)) <==> Disturbs(log, e.planner, s) {
      DisturbsIs(log, e.planner, s);
    }
  }

  /* ---------------------------------------------------------------- what is asked, awaited and reported */

  ghost predicate OwnScope(log: Log, v: Id, s: Id) {
    exists i :: First(log, Creations(v), i) && log[i].body.scope == Some(s)
  }

  lemma {:induction false} OwnScopeIs(log: Log, v: Id, s: Id)
    ensures FirstScope(log, v) == Some(s) <==> OwnScope(log, v, s)
  {
    FirstScopeIs(log, v);
    if !Never(log, Creations(v)) { var i := FirstOne(log, Creations(v)); }
  }

  /** The last request that named this scope was made for `v`. */
  ghost predicate LastAskedFor(log: Log, v: Id, s: Id) {
    exists i :: Last(log, Requests(s), i) && log[i].body.cause == v
  }

  lemma {:induction false} LastAskedForIs(log: Log, v: Id, s: Id)
    ensures (Scope(log, s).Some? && Scope(log, s).value.requestedFor == Some(v)) <==> LastAskedFor(log, v, s)
  {
    hide Scope;
    RequestedForIs(log, s);
    if !Never(log, Requests(s)) { var i := LastOne(log, Requests(s)); }
  }

  /** Asked for on behalf of `v`, and neither released nor suspended yet. */
  ghost predicate Pending(log: Log, v: Id, s: Id) {
    LastAskedFor(log, v, s) && PhaseOf(log, s) in {Asked, Cancelling}
  }

  lemma UnresolvedIs(log: Log, v: Id, s: Id)
    ensures s in Unresolved(log, v) <==> Pending(log, v, s)
  {
    hide PhaseOf, ScopeIds;
    MentionedHasEntry(log, s);
    LastAskedForIs(log, v, s);
  }

  /** Released since `v` went wrong, in no boundary yet, and either asked for on its behalf or relevant to it. */
  ghost predicate Reportable(log: Log, v: Id, s: Id, relevant: bool) {
    UndoneSince(log, v, s) && Never(log, Citations(s)) && (relevant || LastAskedFor(log, v, s))
  }

  lemma CancelledForIs(log: Log, v: Id, relevant: set<Id>, s: Id)
    requires Numbered(log)
    ensures s in CancelledFor(log, v, relevant) <==> Reportable(log, v, s, s in relevant)
  {
    hide PhaseOf, ScopeIds, CancelledSince, UndoneSince, Reported, Never, FailureSeq;
    MentionedHasEntry(log, s);
    LastAskedForIs(log, v, s);
    UndoneIs(log, v, s);
    ReportedIs(log, s);
    SinceHasEntry(log, s, FailureSeq(log, v));
  }

  lemma {:induction false} SinceHasEntry(log: Log, s: Id, at: nat)
    ensures CancelledSince(log, s, at) ==> Scope(log, s).Some?
  {
  }

  /** Refuses every freeze of the run until somebody settles it. */
  ghost predicate Blocks(log: Log, locked: Option<Locked>, s: Id) {
    || PhaseOf(log, s) in {Fenced, Asked, Cancelling, Inflight, Passed}
    || (locked.Some? && s in locked.value && locked.value[s].state == RowOpen && locked.value[s].hasExpiredTry)
  }

  lemma RunBlocksIs(log: Log, locked: Option<Locked>, s: Id)
    ensures s in RunBlocks(log, locked) <==> Blocks(log, locked, s)
  {
    hide PhaseOf, ScopeIds;
    MentionedHasEntry(log, s);
    MaterializedHasEntry(log, s);
  }

  /** What the row says of a scope, in the ladder's words. A row does not tell a request from a fence. */
  predicate Tells(row: LockedScope, p: Phase) {
    match p
    case Unmaterialized => false
    case Open => row.state == RowOpen && !row.fenced
    case Fenced => row.state == RowOpen && row.fenced
    case Asked => row.state == RowOpen && row.fenced
    case Cancelling => row.state == RowCancelling
    case Cancelled => row.state == RowCancelled
    case Suspended => row.state == RowSuspended
    case Inflight => row.state == RowInflight
    case Passed => row.state == RowPassed
    case Committed => row.state == RowCommitted
  }

  ghost predicate Differs(log: Log, locked: Option<Locked>, s: Id) {
    locked.Some? && s in locked.value && !Tells(locked.value[s], PhaseOf(log, s))
  }

  lemma DisagreeingIs(log: Log, locked: Locked, s: Id)
    ensures s in Disagreeing(log, locked) <==> Differs(log, Some(locked), s)
  {
    hide PhaseOf, ScopeIds;
    MentionedHasEntry(log, s);
    MaterializedHasEntry(log, s);
  }

  /* ---------------------------------------------------------------- the decision */

  /** Nothing is selected, aimed at or discarded. */
  predicate AimsNowhere(d: Decision) { d.selected.None? && d.intended.None? && d.shadowed == {} }

  /**
   The failure is handed to a person: first its own scope is asked for while it can be, then everything asked for on
   its behalf and its own scope have to settle, then it is recorded with what was released for it.
   */
  ghost predicate IsEscalation(log: Log, level: Level, d: Decision) {
    && AimsNowhere(d)
    && (d.action == Request <==> exists s :: OwnScope(log, d.failed, s) && PhaseOf(log, s) in {Open, Fenced})
    && (d.action == Wait ==> d.awaited != {})
    && (forall s :: s in d.awaited <==> d.action != Request && HoldsUp(log, d.failed, s))
    && (forall s :: s in d.requestScopes <==> d.action == Request && OwnScope(log, d.failed, s))
    && (forall s :: s in d.cancelled <==>
      d.action == Record && Reportable(log, d.failed, s, OwnScope(log, d.failed, s)))
    && (d.action == Record ==> d.awaited == {})
    && d.level == if d.action == Request then L3 else level
  }

  ghost predicate HoldsUp(log: Log, v: Id, s: Id) {
    Pending(log, v, s) || (OwnScope(log, v, s) && PhaseOf(log, s) in {Asked, Cancelling, Inflight})
  }

  lemma {:induction false} EscalationExactly(base: Decision, level: Level, log: Log)
    requires Numbered(log)
    requires base.selected.None? && base.intended.None? && base.shadowed == {} && base.requestScopes == {}
      && base.awaited == {} && base.cancelled == {}
    ensures var d := Escalation(base, level, log, FirstScope(log, base.failed));
      IsEscalation(log, level, d) && d.failed == base.failed && d.candidates == base.candidates
        && d.episode == base.episode
  {
    hide PhaseOf, FirstScope, Unresolved, CancelledFor, OwnScope, Pending, Reportable;
    var v := base.failed;
    var own := FirstScope(log, v);
    forall s: Id ensures own == Some(s) <==> OwnScope(log, v, s) { OwnScopeIs(log, v, s); }
    forall s ensures s in Unresolved(log, v) <==> Pending(log, v, s) { UnresolvedIs(log, v, s); }
    var relevant := if own.Some? then {own.value} else {};
    forall s ensures s in CancelledFor(log, v, relevant) <==> Reportable(log, v, s, OwnScope(log, v, s)) {
      CancelledForIs(log, v, relevant, s);
    }
  }

  /** The first of the cheapest planners that may be resumed. */
  predicate IsChoice(cs: seq<Candidate>, k: int) {
    && 0 <= k < |cs| && cs[k].Priced?
    && forall i :: 0 <= i < |cs| && cs[i].Priced? ==> cs[k].cost <= cs[i].cost && (i < k ==> cs[k].cost < cs[i].cost)
  }

  /**
   A planner is resumed: first the disturbed scopes that nobody asked for are asked for, then those and whatever else
   was asked for have to settle, then everything that refuses a freeze, and then it is recorded, with what it discards
   and what was released for it.
   */
  ghost predicate IsResumption(log: Log, locked: Option<Locked>, p: Id, d: Decision) {
    && d.intended == Some(p)
    && d.selected == (if d.action == Record then Some(p) else None)
    && (d.action == Request <==> exists s :: Disturbs(log, p, s) && PhaseOf(log, s) in {Open, Fenced})
    && (forall s :: s in d.requestScopes <==>
      d.action == Request && Disturbs(log, p, s) && PhaseOf(log, s) in {Open, Fenced})
    && (d.action == Wait ==> d.awaited != {})
    && (d.action == Record ==> d.awaited == {})
    && (forall s :: s in d.awaited <==>
      d.action != Request
        && if SomePending(log, d.failed, p) then StillReleasing(log, d.failed, p, s) else Blocks(log, locked, s))
    && (forall m :: m in d.shadowed <==> d.action == Record && m in Descendants(log, p) && Never(log, Discards(m)))
    && (forall s :: s in d.cancelled <==> d.action == Record && Reportable(log, d.failed, s, Disturbs(log, p, s)))
  }

  ghost predicate StillReleasing(log: Log, v: Id, p: Id, s: Id) {
    Pending(log, v, s) || (Disturbs(log, p, s) && Releasable(PhaseOf(log, s)))
  }

  ghost predicate SomePending(log: Log, v: Id, p: Id) { exists s :: StillReleasing(log, v, p, s) }

  lemma ResumptionExactly(log: Log, v: Id, locked: Option<Locked>, base: Decision, best: Candidate, level: Level)
    requires Numbered(log) && base.failed == v && best.Priced?
    requires base.selected.None? && base.intended.None? && base.shadowed == {} && base.requestScopes == {}
      && base.awaited == {} && base.cancelled == {}
    requires forall s :: s in best.requires_ <==> Disturbs(log, best.planner, s) && Releasable(PhaseOf(log, s))
    ensures var d := Resume(log, v, locked, base, best, level, ShadowSet(log, best.planner));
      IsResumption(log, locked, best.planner, d) && d.failed == v && d.level == level && d.candidates == base.candidates
        && d.episode == base.episode
  {
    hide PhaseOf, Unresolved, CancelledFor, Disturbs, Pending, Reportable, RunBlocks, Blocks, Descendants, Never,
      ScopesMeeting, Hidden;
    var p := best.planner;
    forall s ensures s in Unresolved(log, v) <==> Pending(log, v, s) { UnresolvedIs(log, v, s); }
    forall s ensures s in RunBlocks(log, locked) <==> Blocks(log, locked, s) { RunBlocksIs(log, locked, s); }
    forall m ensures m in Hidden(log) <==> !Never(log, Discards(m)) { HiddenIs(log, m); }
    forall s ensures s in ScopesMeeting(log, ShadowSet(log, p)) <==> Disturbs(log, p, s) { DisturbsIs(log, p, s); }
    var relevant := ScopesMeeting(log, ShadowSet(log, p));
    forall s ensures s in CancelledFor(log, v, relevant) <==> Reportable(log, v, s, Disturbs(log, p, s)) {
      CancelledForIs(log, v, relevant, s);
    }
    var open, left := StillOpen(log, best.requires_), best.requires_ + Unresolved(log, v);
    assert forall s :: s in open <==> Disturbs(log, p, s) && PhaseOf(log, s) in {Open, Fenced};
    assert forall s :: s in left <==> StillReleasing(log, v, p, s);
    assert left != {} <==> SomePending(log, v, p) by {
      if left != {} { var s :| s in left; }
    }
    if open != {} {
      var s :| s in open;
    }
  }

  /** Why a failure is escalated without comparing planners, and at which level. */
  ghost predicate Unplannable(log: Log, v: Id, policy: Policy, level: Level) {
    if ByRule(log, v) then level == L4
    else if exists at :: EpisodeBegan(log, at) && Tally(log, Boundaries(at)) >= policy.maxPerEpisode then level == L3
    else level == L4 && exists s :: PhaseOf(log, s) == Suspended
  }

  /** Where no planner may be resumed, a scope that could be or was released makes it a matter of compensation. */
  ghost predicate IsLastLevel(log: Log, v: Id, level: Level) {
    level == if exists s :: OwnScope(log, v, s) && (PhaseOf(log, s) == Cancelled || Releasable(PhaseOf(log, s)))
      then L3 else L4
  }

  ghost predicate IsComparison(log: Log, v: Id, policy: Policy, price: Pricing, cs: seq<Candidate>) {
    && |cs| == |AncestorPlanners(log, v)|
    && forall i :: 0 <= i < |cs| ==> IsVerdict(log, v, policy, price, AncestorPlanners(log, v)[i], cs[i])
  }

  ghost predicate IsAnswer(log: Log, v: Id, policy: Policy, price: Pricing, locked: Option<Locked>, d: Decision) {
    && d.failed == v
    && (exists at :: EpisodeBegan(log, at) && d.episode == Tally(log, Boundaries(at)))
    && if exists s :: Differs(log, locked, s) then
         && AimsNowhere(d) && d.action == Wait && d.level == L4 && d.candidates == [] && d.requestScopes == {}
         && d.cancelled == {} && forall s :: s in d.awaited <==> Differs(log, locked, s)
       else if exists level :: Unplannable(log, v, policy, level) then
         d.candidates == [] && exists level :: Unplannable(log, v, policy, level) && IsEscalation(log, level, d)
       else IsSearch(log, v, policy, price, locked, d)
  }

  /** The planners above the failure were compared. */
  ghost predicate IsSearch(log: Log, v: Id, policy: Policy, price: Pricing, locked: Option<Locked>, d: Decision) {
    && IsComparison(log, v, policy, price, d.candidates)
    && if exists k :: IsChoice(d.candidates, k) then exists k ::
         && IsChoice(d.candidates, k) && IsResumption(log, locked, d.candidates[k].planner, d)
         && d.level == if IsNearest(log, v, k) then L1 else L2
       else exists level :: IsLastLevel(log, v, level) && IsEscalation(log, level, d)
  }

  /** No planner above the failure is nearer than the one at this place. */
  ghost predicate IsNearest(log: Log, v: Id, k: int) {
    && 0 <= k < |AncestorPlanners(log, v)|
    && forall i :: 0 <= i < |AncestorPlanners(log, v)| ==>
      AncestorPlanners(log, v)[k].depth <= AncestorPlanners(log, v)[i].depth
  }

  lemma EpisodeTally(log: Log)
    ensures exists at :: EpisodeBegan(log, at) && Episode(log) == Tally(log, Boundaries(at))
    ensures forall at :: EpisodeBegan(log, at) ==> Episode(log) == Tally(log, Boundaries(at))
  {
    hide EpisodeBegan, Episode, Tally;
    var at := EpisodeBegins(log, |log|);
    forall a | EpisodeBegan(log, a) ensures Episode(log) == Tally(log, Boundaries(a)) { EpisodeIs(log, a); }
  }

  lemma SuspendedIs(log: Log)
    ensures SuspendedScopes(log) != {} <==> exists s :: PhaseOf(log, s) == Suspended
  {
    hide PhaseOf, ScopeIds;
    forall s ensures s in SuspendedScopes(log) <==> PhaseOf(log, s) == Suspended {
      MentionedHasEntry(log, s);
      MaterializedHasEntry(log, s);
    }
    if s :| PhaseOf(log, s) == Suspended { assert s in SuspendedScopes(log); }
  }

  lemma {:induction false} LastLevelIs(log: Log, v: Id)
    ensures IsLastLevel(log, v, NoBoundaryLevel(log, FirstScope(log, v)))
  {
    hide PhaseOf, FirstScope, OwnScope;
    forall s: Id ensures FirstScope(log, v) == Some(s) <==> OwnScope(log, v, s) { OwnScopeIs(log, v, s); }
  }

  lemma {:induction false} ComparisonIs(log: Log, v: Id, policy: Policy, price: Pricing)
    requires Numbered(log)
    ensures IsComparison(log, v, policy, price, Candidates(log, v, policy, price, AncestorPlanners(log, v)))
  {
    hide IsVerdict, CandidateFor, AncestorPlanners, ShadowSet;
    var above := AncestorPlanners(log, v);
    forall i | 0 <= i < |above| ensures IsVerdict(log, v, policy, price, above[i],
      CandidateFor(log, v, policy, price, above[i], ShadowSet(log, above[i].planner)))
    {
      VerdictExactly(log, v, policy, price, above[i]);
    }
  }

  lemma {:induction false} ChoiceIs(cs: seq<Candidate>)
    ensures Cheapest(cs, |cs|).None? <==> forall k :: !IsChoice(cs, k)
    ensures Cheapest(cs, |cs|).Some? ==> IsChoice(cs, Cheapest(cs, |cs|).value)
  {
    CheapestIsLeast(cs, |cs|);
    if Cheapest(cs, |cs|).Some? { assert IsChoice(cs, Cheapest(cs, |cs|).value); }
  }

  lemma NearestIs(log: Log, v: Id, k: nat)
    requires k < |AncestorPlanners(log, v)|
    ensures AncestorPlanners(log, v)[k].depth == AncestorPlanners(log, v)[0].depth <==> IsNearest(log, v, k)
  {
    hide Search, Entry;
    ParentsMentioned(log, v);
    SortSorted(Entry(log, v, 0) + Search(log, ParentsOf(log, v), {v}, 1));
  }

  lemma SearchExactly(log: Log, v: Id, policy: Policy, price: Pricing, locked: Option<Locked>)
    requires Numbered(log)
    requires locked.Some? ==> Disagreeing(log, locked.value) == {}
    requires !RuleAuthored(log, v) && Episode(log) < policy.maxPerEpisode && SuspendedScopes(log) == {}
    ensures var d := SelectBoundary(log, v, policy, price, locked);
      d.failed == v && d.episode == Episode(log) && IsSearch(log, v, policy, price, locked, d)
  {
    hide Numbered, Disagreeing, RuleAuthored, Episode, SuspendedScopes, PhaseOf, IsEscalation, Escalation, Resume,
      IsResumption, Candidates, AncestorPlanners, IsChoice, Cheapest, IsNearest, IsLastLevel, NoBoundaryLevel,
      ShadowSet,
      FirstScope, IsVerdict, Disturbs;
    var above := AncestorPlanners(log, v);
    var cs := Candidates(log, v, policy, price, above);
    var base := Base(log, v).(candidates := cs);
    var best := Cheapest(cs, |cs|);
    ComparisonIs(log, v, policy, price);
    ChoiceIs(cs);
    if best.None? {
      LastLevelIs(log, v);
      EscalationExactly(base, NoBoundaryLevel(log, FirstScope(log, v)), log);
    } else {
      var k := best.value;
      var level := if above[k].depth == above[0].depth then L1 else L2;
      NearestIs(log, v, k);
      VerdictPriced(log, v, policy, price, above[k], cs[k]);
      ResumptionExactly(log, v, locked, base, cs[k], level);
    }
  }

  lemma VerdictPriced(log: Log, v: Id, policy: Policy, price: Pricing, e: Above, c: Candidate)
    requires IsVerdict(log, v, policy, price, e, c) && c.Priced?
    ensures c.planner == e.planner
    ensures forall s :: s in c.requires_ <==> Disturbs(log, c.planner, s) && Releasable(PhaseOf(log, s))
  {
  }

  /** The decision, by what the log's events say. */
  lemma DecisionExactly(log: Log, v: Id, policy: Policy, price: Pricing, locked: Option<Locked>)
    requires Numbered(log)
    ensures IsAnswer(log, v, policy, price, locked, SelectBoundary(log, v, policy, price, locked))
  {
    hide Numbered, Disagreeing, RuleAuthored, ByRule, EpisodeBegan, Tally, Episode, SuspendedScopes, PhaseOf,
      IsEscalation, Escalation, Resume, IsSearch, Candidates, AncestorPlanners, Cheapest, NoBoundaryLevel, ShadowSet,
      FirstScope, Tells;
    var base := Base(log, v);
    EpisodeTally(log);
    RuleAuthoredIs(log, v);
    SuspendedIs(log);
    if locked.Some? {
      forall s ensures s in Disagreeing(log, locked.value) <==> Differs(log, locked, s) {
        DisagreeingIs(log, locked.value, s);
      }
    }
    if (locked.Some? ==> Disagreeing(log, locked.value) == {}) {
      EscalationExactly(base, L4, log);
      EscalationExactly(base, L3, log);
      UnplannableIs(log, v, policy);
      if !RuleAuthored(log, v) && Episode(log) < policy.maxPerEpisode && SuspendedScopes(log) == {} {
        SearchExactly(log, v, policy, price, locked);
      }
    }
  }

  lemma UnplannableIs(log: Log, v: Id, policy: Policy)
    requires Numbered(log)
    ensures RuleAuthored(log, v) ==> Unplannable(log, v, policy, L4)
    ensures !RuleAuthored(log, v) && Episode(log) >= policy.maxPerEpisode ==> Unplannable(log, v, policy, L3)
    ensures !RuleAuthored(log, v) && Episode(log) < policy.maxPerEpisode && SuspendedScopes(log) != {} ==>
      Unplannable(log, v, policy, L4)
    ensures !RuleAuthored(log, v) && Episode(log) < policy.maxPerEpisode && SuspendedScopes(log) == {} ==>
      forall level :: !Unplannable(log, v, policy, level)
  {
    hide Numbered, RuleAuthored, ByRule, EpisodeBegan, Tally, Episode, SuspendedScopes, PhaseOf;
    EpisodeTally(log);
    RuleAuthoredIs(log, v);
    SuspendedIs(log);
  }

  /* ---------------------------------------------------------------- and no other */

  lemma SameSets(a: set<Id>, b: set<Id>)
    requires forall s :: s in a <==> s in b
    ensures a == b
  {
  }

  lemma OneEscalation(log: Log, level: Level, d: Decision, e: Decision)
    requires IsEscalation(log, level, d) && IsEscalation(log, level, e)
    requires d.failed == e.failed && d.candidates == e.candidates && d.episode == e.episode
    ensures d == e
  {
    hide HoldsUp, OwnScope, Reportable, PhaseOf;
    if d.action != Request { SameSets(d.awaited, e.awaited); }
    assert d.action == e.action;
    SameSets(d.awaited, e.awaited);
    SameSets(d.requestScopes, e.requestScopes);
    SameSets(d.cancelled, e.cancelled);
  }

  lemma OneResumption(log: Log, locked: Option<Locked>, p: Id, d: Decision, e: Decision)
    requires IsResumption(log, locked, p, d) && IsResumption(log, locked, p, e)
    requires d.failed == e.failed && d.candidates == e.candidates && d.episode == e.episode && d.level == e.level
    ensures d == e
  {
    hide Disturbs, PhaseOf, SomePending, StillReleasing, Blocks, Descendants, Never, Reportable;
    if d.action != Request { SameSets(d.awaited, e.awaited); }
    assert d.action == e.action;
    SameSets(d.awaited, e.awaited);
    SameSets(d.requestScopes, e.requestScopes);
    SameSets(d.shadowed, e.shadowed);
    SameSets(d.cancelled, e.cancelled);
  }

  lemma OneVerdict(log: Log, v: Id, policy: Policy, price: Pricing, e: Above, c: Candidate, d: Candidate)
    requires IsVerdict(log, v, policy, price, e, c) && IsVerdict(log, v, policy, price, e, d)
    ensures c == d
  {
    hide Disturbs, PhaseOf, Never, HeldOpen, UndoesEarlier, Tally;
    if c.Priced? { SameSets(c.requires_, d.requires_); }
  }

  lemma OneSearch(log: Log, v: Id, policy: Policy, price: Pricing, locked: Option<Locked>, d: Decision, e: Decision)
    requires IsSearch(log, v, policy, price, locked, d) && IsSearch(log, v, policy, price, locked, e)
    requires d.failed == v == e.failed && d.episode == e.episode
    ensures d == e
  {
    hide IsEscalation, IsResumption, IsVerdict, IsNearest, AncestorPlanners, OwnScope, PhaseOf;
    forall i | 0 <= i < |d.candidates| ensures d.candidates[i] == e.candidates[i] {
      OneVerdict(log, v, policy, price, AncestorPlanners(log, v)[i], d.candidates[i], e.candidates[i]);
    }
    assert d.candidates == e.candidates;
    if exists k :: IsChoice(d.candidates, k) {
      var k :| IsChoice(d.candidates, k) && IsResumption(log, locked, d.candidates[k].planner, d)
        && d.level == if IsNearest(log, v, k) then L1 else L2;
      var j :| IsChoice(e.candidates, j) && IsResumption(log, locked, e.candidates[j].planner, e)
        && e.level == if IsNearest(log, v, j) then L1 else L2;
      assert j == k;
      OneResumption(log, locked, d.candidates[k].planner, d, e);
    } else {
      var level :| IsLastLevel(log, v, level) && IsEscalation(log, level, d);
      OneEscalation(log, level, d, e);
    }
  }

  /** Exactly one decision is right, and the procedure returns it. */
  lemma DecisionIsTheOne(log: Log, v: Id, policy: Policy, price: Pricing, locked: Option<Locked>, d: Decision)
    requires Numbered(log)
    ensures IsAnswer(log, v, policy, price, locked, d) <==> d == SelectBoundary(log, v, policy, price, locked)
  {
    hide Numbered, Differs, EpisodeBegan, Tally, Unplannable, IsEscalation, IsSearch, SelectBoundary;
    var e := SelectBoundary(log, v, policy, price, locked);
    DecisionExactly(log, v, policy, price, locked);
    if IsAnswer(log, v, policy, price, locked, d) {
      SameEpisode(log, v, policy, price, locked, d, e);
      if exists s :: Differs(log, locked, s) {
        SameSets(d.awaited, e.awaited);
      } else if exists level :: Unplannable(log, v, policy, level) {
        var level :| Unplannable(log, v, policy, level) && IsEscalation(log, level, d);
        var other :| Unplannable(log, v, policy, other) && IsEscalation(log, other, e);
        OneLevel(log, v, policy, level, other);
        OneEscalation(log, level, d, e);
      } else {
        OneSearch(log, v, policy, price, locked, d, e);
      }
    }
  }

  lemma SameEpisode(log: Log, v: Id, policy: Policy, price: Pricing, locked: Option<Locked>, d: Decision, e: Decision)
    requires IsAnswer(log, v, policy, price, locked, d) && IsAnswer(log, v, policy, price, locked, e)
    ensures d.episode == e.episode
  {
    hide Differs, EpisodeBegan, Tally, Unplannable, IsEscalation, IsSearch, Episode;
    EpisodeTally(log);
  }

  lemma OneLevel(log: Log, v: Id, policy: Policy, level: Level, other: Level)
    requires Unplannable(log, v, policy, level) && Unplannable(log, v, policy, other)
    ensures level == other
  {
    hide ByRule, EpisodeBegan, Tally, PhaseOf;
  }
}
