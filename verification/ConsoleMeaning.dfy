/** What a card of the console shows, by position. */
module ConsoleMeaning {
  import opened EventLog
  import opened LogPositions
  import opened SurfaceMeaning
  import opened ConsoleFold
  import opened ConsoleScopes
  import ForkSlice
  import ScopePhases
  import ConsoleSurface
  import ConsoleScopeRows

  /** The console's board after a whole log. */
  function BoardOf(log: Log): (b: Board) { Folded(ConsoleSurface.Blank, log) }

  function Tries(v: Id): Kind { (e: Event) => e.body.Try? && e.body.vertex == v }

  function Confirms(v: Id): Kind { (e: Event) => e.body.Confirm? && e.body.vertex == v }

  function Passings(v: Id): Kind { (e: Event) => e.body.PivotPassed? && e.body.vertex == v }

  function Endings(v: Id): Kind { (e: Event) => (e.body.Succeeded? || e.body.Failed?) && e.body.vertex == v }

  function Proposings(): Kind { (e: Event) => e.body.Proposed? }

  /** What is said of where a vertex comes from: a freeze announces it, and its creation uses that up. */
  function Notices(v: Id): Kind {
    (e: Event) => (e.body.Frozen? && v in e.body.announced) || (e.body.Created? && e.body.vertex == v)
  }

  /* ---------------------------------------------------------------- brackets */

  /** The event at `i` completes the cancellation of the scope the vertex was created in at `m`. */
  ghost predicate ReleasesAt(log: Log, v: Id, m: int, i: int) {
    && 0 <= m < i < |log| && log[i].body.Cancel? && log[i].body.completed
    && log[m].body.Created? && log[m].body.vertex == v && log[m].body.scope == Some(log[i].body.txn)
  }

  /** A scope of the vertex was released after `t`. */
  ghost predicate ReleasedSince(log: Log, v: Id, t: int) { exists m, i :: t < i && ReleasesAt(log, v, m, i) }

  /**
   The bracket of a vertex created at `k`: of its last try since then, confirmed if it was confirmed since, else
   released if its scope was, else still sealed; and none without a try.
   */
  ghost predicate ShowsBracket(log: Log, v: Id, k: int, b: ShownBracket) {
    && (QuietSince(log, Tries(v), k) <==> b == NoBracket)
    && forall t :: LastSince(log, Tries(v), k, t) ==>
      b == if !QuietSince(log, Confirms(v), t) then ShownConfirmed
           else if ReleasedSince(log, v, t) then ShownReleased else ShownSealed
  }

  lemma InScopeIs(log: Log, s: Id, v: Id)
    ensures InScope(BoardOf(log).scopes, s, v) <==>
      exists m :: 0 <= m < |log| && log[m].body.Created? && log[m].body.vertex == v && log[m].body.scope == Some(s)
  {
    hide Folded;
    ConsoleScopeRows.ScopeCardIs(log, s);
    ScopePhases.MemberIffCreated(log, s, v);
  }

  lemma ReleasedStep(log: Log, v: Id, t: int)
    requires log != [] && 0 <= t < |log| - 1
    ensures var n := |log| - 1; var b := log[n].body;
      ReleasedSince(log, v, t) <==>
        ReleasedSince(log[..n], v, t) || (b.Cancel? && b.completed && InScope(BoardOf(log[..n]).scopes, b.txn, v))
  {
    hide InScope, Folded;
    var n := |log| - 1;
    var b := log[n].body;
    assert forall i :: 0 <= i < n ==> log[..n][i] == log[i];
    if b.Cancel? { InScopeIs(log[..n], b.txn, v); }
    if ReleasedSince(log[..n], v, t) {
      var m, i :| t < i && ReleasesAt(log[..n], v, m, i);
      assert ReleasesAt(log, v, m, i);
    }
    if b.Cancel? && b.completed && InScope(BoardOf(log[..n]).scopes, b.txn, v) {
      var m :| 0 <= m < n && log[..n][m].body.Created? && log[..n][m].body.vertex == v
        && log[..n][m].body.scope == Some(b.txn);
      assert ReleasesAt(log, v, m, n);
    }
    if ReleasedSince(log, v, t) {
      var m, i :| t < i && ReleasesAt(log, v, m, i);
      if i < n {
        assert ReleasesAt(log[..n], v, m, i);
      } else {
        assert log[..n][m].body.scope == Some(b.txn);
      }
    }
  }

  /** Nothing is released at the very event of a try. */
  lemma NotYetReleased(log: Log, v: Id)
    requires log != []
    ensures !ReleasedSince(log, v, |log| - 1)
  {
  }

  lemma BracketStep(log: Log, v: Id, k: int, c: Card)
    requires log != [] && 0 <= k < |log| - 1 && ShowsBracket(log[..|log| - 1], v, k, c.bracket)
    ensures var n := |log| - 1;
      ShowsBracket(log, v, k, BracketAfter(c, v, BoardOf(log[..n]).scopes, log[n].body).bracket)
  {
    hide QuietSince, LastSince, ReleasedSince, InScope, Folded;
    var n := |log| - 1;
    var e := log[n];
    SinceStep(log, Tries(v), k);
    LastInside(log[..n], Tries(v), k);
    NotYetReleased(log, v);
    NoneAfterEnd(log, Confirms(v));
    SomeLast(log[..n], Tries(v), k);
    forall t | LastSince(log[..n], Tries(v), k, t)
      ensures 0 <= t < n
        && (QuietSince(log, Confirms(v), t) <==> QuietSince(log[..n], Confirms(v), t) && !Confirms(v)(e))
        && (ReleasedSince(log, v, t) <==>
          ReleasedSince(log[..n], v, t)
            || (e.body.Cancel? && e.body.completed && InScope(BoardOf(log[..n]).scopes, e.body.txn, v)))
    {
      AfterK(log[..n], Tries(v), k, t);
      SinceStep(log, Confirms(v), t);
      ReleasedStep(log, v, t);
    }
  }

  /* ---------------------------------------------------------------- discards and the prompt */

  /** Discarded where it was first discarded since it was created. */
  ghost predicate ShowsDiscard(log: Log, v: Id, k: int, at: Option<nat>) {
    && (QuietSince(log, Discards(v), k) <==> at.None?)
    && forall i :: FirstSince(log, Discards(v), k, i) ==> at == Some(log[i].runSeq)
  }

  lemma DiscardStep(log: Log, v: Id, k: int, c: Card)
    requires log != [] && 0 <= k < |log| - 1 && ShowsDiscard(log[..|log| - 1], v, k, c.shadowedAt)
    ensures var e := log[|log| - 1];
      ShowsDiscard(log, v, k, if Discards(v)(e) then Shade(c, e.runSeq).shadowedAt else c.shadowedAt)
  {
    var n := |log| - 1;
    assert forall i :: 0 <= i < n ==> log[..n][i] == log[i];
    SinceStep(log, Discards(v), k);
    if QuietSince(log[..n], Discards(v), k) {
      assert forall i :: FirstSince(log, Discards(v), k, i) ==> i == n;
    } else {
      forall i | FirstSince(log, Discards(v), k, i) ensures FirstSince(log[..n], Discards(v), k, i) {
        var j :| 0 <= j && k < j < n && Discards(v)(log[..n][j]);
        assert i <= j;
      }
    }
  }

  /** In a planner's prompt unless it is a router whose last ending since it was created did not name a match. */
  ghost predicate ShowsPrompt(log: Log, v: Id, k: int, role: Role, p: bool) {
    if role != Router then p
    else
      && (QuietSince(log, Endings(v), k) ==> !p)
      && forall i :: LastSince(log, Endings(v), k, i) ==> p == (log[i].body.Succeeded? && log[i].body.told.Matched?)
  }

  lemma PromptStep(log: Log, v: Id, k: int, c: Card)
    requires log != [] && 0 <= k < |log| - 1 && ShowsPrompt(log[..|log| - 1], v, k, c.role, c.inPrompt)
    ensures var e := log[|log| - 1];
      ShowsPrompt(log, v, k, c.role, if Executions(v)(e) then Executed(c, e.body).inPrompt else c.inPrompt)
  {
    hide QuietSince, LastSince;
    SinceStep(log, Endings(v), k);
    LastInside(log[..|log| - 1], Endings(v), k);
  }

  lemma PassedStep(log: Log, v: Id, k: int, c: Card)
    requires log != [] && 0 <= k < |log| - 1 && (c.pivotPassed <==> !QuietSince(log[..|log| - 1], Passings(v), k))
    ensures var n := |log| - 1;
      BracketAfter(c, v, BoardOf(log[..n]).scopes, log[n].body).pivotPassed <==> !QuietSince(log, Passings(v), k)
  {
    hide QuietSince, InScope, Folded;
    SinceStep(log, Passings(v), k);
  }

  /* ---------------------------------------------------------------- where a vertex comes from */

  /** The freeze that announced a vertex, unless an earlier creation used the announcement up. */
  ghost predicate IsOrigin(log: Log, v: Id, at: Option<nat>) {
    && (Never(log, Notices(v)) ==> at.None?)
    && forall f :: Last(log, Notices(v), f) ==> at == if log[f].body.Frozen? then Some(log[f].runSeq) else None
  }

  function OriginIn(b: Board, v: Id): (at: Option<nat>) { if v in b.announced then Some(b.announced[v]) else None }

  lemma {:induction false} OriginIs(log: Log, v: Id)
    ensures IsOrigin(log, v, OriginIn(BoardOf(log), v))
  {
    hide Last, Never;
    if log == [] {
      Nothing(Notices(v));
    } else {
      var n := |log| - 1;
      OriginIs(log[..n], v);
      StepBack(log, Notices(v));
      AnnouncedStep(BoardOf(log[..n]), log[n], v);
    }
  }

  lemma AnnouncedStep(b: Board, e: Event, v: Id)
    ensures OriginIn(Applied(b, e), v) ==
      if e.body.Frozen? && v in e.body.announced then Some(e.runSeq)
      else if e.body.Created? && e.body.vertex == v then None else OriginIn(b, v)
  {
    hide ScopesAfter, NewCard, Bracketed, Replanned, Closed, Shaded, Executed;
    if e.body.Frozen? { AnnouncesAll(b.announced, e.body.announced, e.runSeq, v); }
  }

  lemma {:induction false} AnnouncesAll(announced: map<Id, nat>, ids: seq<Id>, at: nat, v: Id)
    ensures v in Announced(announced, ids, at) <==> v in announced || v in ids
    ensures v in ids ==> Announced(announced, ids, at)[v] == at
    ensures v in announced && v !in ids ==> Announced(announced, ids, at)[v] == announced[v]
  {
    if ids != [] {
      AnnouncesAll(announced, ids[..|ids| - 1], at, v);
      assert ids == ids[..|ids| - 1] + [ids[|ids| - 1]];
    }
  }

  /* ---------------------------------------------------------------- proposals */

  function ProposedAt(at: nat): Kind { (e: Event) => e.body.Proposed? && e.runSeq == at }

  /**
   The freeze at `f` answers the proposal at `p`: it names that proposal, or it names none there is and that one is
   the latest.
   */
  ghost predicate AnswersAt(log: Log, f: int, p: int) {
    && 0 <= p < f < |log| && log[f].body.Frozen? && log[p].body.Proposed?
    && (log[p].runSeq == log[f].body.proposedSeq
        || (Never(log[..f], ProposedAt(log[f].body.proposedSeq)) && Last(log[..f], Proposings(), p)))
  }

  ghost predicate IsAnswered(log: Log, p: int) { exists f :: AnswersAt(log, f, p) }

  /** The record of the proposal at `p`. */
  ghost predicate IsProposal(log: Log, p: int, r: Proposal) {
    0 <= p < |log| && log[p].body == Proposed(r.source) && r.at == log[p].runSeq && (r.frozen <==> IsAnswered(log, p))
  }

  /** One record for each proposal of the log, as they came. */
  ghost predicate PlacesProposals(log: Log, ps: seq<Proposal>, at: seq<int>) {
    && |at| == |ps|
    && (forall i :: 0 <= i < |at| ==> IsProposal(log, at[i], ps[i]))
    && (forall i, j :: 0 <= i < j < |at| ==> at[i] < at[j])
    && (forall p :: 0 <= p < |log| && log[p].body.Proposed? ==> p in at)
  }

  lemma {:induction false} AnsweredIs(ps: seq<Proposal>, at: nat, n: nat)
    requires n <= |ps| && ps != []
    ensures var i := Answered(ps, at, n);
      if exists j :: n <= j < |ps| && ps[j].at == at then
        n <= i && ps[i].at == at && forall j :: n <= j < i ==> ps[j].at != at
      else i == |ps| - 1
    decreases |ps| - n
  {
    if n < |ps| && ps[n].at != at { AnsweredIs(ps, at, n + 1); }
  }

  /** An event that freezes nothing answers nothing. */
  lemma AnsweredStays(log: Log, p: int)
    requires log != [] && p < |log| - 1
    ensures var n := |log| - 1; IsAnswered(log, p) <==> IsAnswered(log[..n], p) || AnswersAt(log, n, p)
  {
    var n := |log| - 1;
    forall f | 0 <= f < n ensures log[..n][..f] == log[..f] && log[..n][f] == log[f] {}
    if IsAnswered(log[..n], p) {
      var f :| AnswersAt(log[..n], f, p);
      assert AnswersAt(log, f, p);
    }
    if IsAnswered(log, p) {
      var f :| AnswersAt(log, f, p);
      if f < n { assert AnswersAt(log[..n], f, p); }
    }
  }

  lemma {:induction false} ProposalsPlaced(log: Log) returns (at: seq<int>)
    requires Numbered(log)
    ensures PlacesProposals(log, BoardOf(log).proposals, at)
  {
    if log == [] {
      at := [];
    } else {
      var n := |log| - 1;
      NumberedPrefix(log, n);
      at := ProposalsPlaced(log[..n]);
      var before := BoardOf(log[..n]);
      ProposalsStep(before, log[n]);
      hide Folded;
      if log[n].body.Proposed? {
        NewProposal(log, before.proposals, at);
        at := at + [n];
      } else if log[n].body.Frozen? {
        FrozenProposal(log, before.proposals, at);
      } else {
        SameProposals(log, before.proposals, at);
      }
    }
  }

  lemma ProposalsStep(b: Board, e: Event)
    ensures Applied(b, e).proposals ==
      if e.body.Proposed? then b.proposals + [Proposal(e.runSeq, e.body.source, false)]
      else if e.body.Frozen? then Closed(b.proposals, e.body.proposedSeq) else b.proposals
  {
    hide ScopesAfter, NewCard, Bracketed, Replanned, Closed, Shaded, Executed, Announced;
  }

  lemma SameProposals(log: Log, ps: seq<Proposal>, at: seq<int>)
    requires log != [] && PlacesProposals(log[..|log| - 1], ps, at)
    requires !log[|log| - 1].body.Proposed? && !log[|log| - 1].body.Frozen?
    ensures PlacesProposals(log, ps, at)
  {
    hide IsAnswered;
    var n := |log| - 1;
    assert forall i :: 0 <= i < n ==> log[..n][i] == log[i];
    forall i | 0 <= i < |at| ensures IsProposal(log, at[i], ps[i]) {
      assert IsProposal(log[..n], at[i], ps[i]);
      AnsweredStays(log, at[i]);
    }
  }

  lemma NewProposal(log: Log, ps: seq<Proposal>, at: seq<int>)
    requires log != [] && PlacesProposals(log[..|log| - 1], ps, at) && log[|log| - 1].body.Proposed?
    ensures var n := |log| - 1;
      PlacesProposals(log, ps + [Proposal(log[n].runSeq, log[n].body.source, false)], at + [n])
  {
    hide IsAnswered;
    var n := |log| - 1;
    var ps2, at2 := ps + [Proposal(log[n].runSeq, log[n].body.source, false)], at + [n];
    assert forall i :: 0 <= i < n ==> log[..n][i] == log[i];
    forall i | 0 <= i < |at2| ensures IsProposal(log, at2[i], ps2[i]) {
      if i < |at| {
        assert IsProposal(log[..n], at[i], ps[i]);
        AnsweredStays(log, at[i]);
      } else {
        NotYetAnswered(log, n);
      }
    }
  }

  lemma NotYetAnswered(log: Log, p: int)
    requires p == |log| - 1
    ensures !IsAnswered(log, p)
  {
  }

  lemma FrozenProposal(log: Log, ps: seq<Proposal>, at: seq<int>)
    requires Numbered(log) && log != [] && PlacesProposals(log[..|log| - 1], ps, at) && log[|log| - 1].body.Frozen?
    ensures PlacesProposals(log, Closed(ps, log[|log| - 1].body.proposedSeq), at)
  {
    hide IsAnswered;
    var n := |log| - 1;
    var seq_ := log[n].body.proposedSeq;
    assert forall i :: 0 <= i < n ==> log[..n][i] == log[i];
    if ps != [] {
      AnsweredIs(ps, seq_, 0);
      var k := Answered(ps, seq_, 0);
      forall i | 0 <= i < |at| ensures IsProposal(log, at[i], Closed(ps, seq_)[i]) {
        assert IsProposal(log[..n], at[i], ps[i]);
        AnsweredStays(log, at[i]);
        AnswersOne(log, ps, at, i);
      }
    }
  }

  /** Exactly the record the fold closes is the one the freeze answers. */
  lemma AnswersOne(log: Log, ps: seq<Proposal>, at: seq<int>, i: nat)
    requires Numbered(log) && log != [] && PlacesProposals(log[..|log| - 1], ps, at) && log[|log| - 1].body.Frozen?
    requires i < |at|
    ensures AnswersAt(log, |log| - 1, at[i]) <==> i == Answered(ps, log[|log| - 1].body.proposedSeq, 0)
  {
    hide IsAnswered;
    var n := |log| - 1;
    var named := log[n].body.proposedSeq;
    var k := Answered(ps, named, 0);
    AnsweredIs(ps, named, 0);
    assert forall p :: 0 <= p < n ==> log[..n][p] == log[p];
    forall j | 0 <= j < |at| ensures 0 <= at[j] < n && log[at[j]].body.Proposed? && ps[j].at == log[at[j]].runSeq {
      assert IsProposal(log[..n], at[j], ps[j]);
    }
    if exists j :: 0 <= j < |ps| && ps[j].at == named {
      assert ProposedAt(named)(log[..n][at[k]]);
    } else {
      forall p | 0 <= p < n ensures !ProposedAt(named)(log[..n][p]) {
        if log[p].body.Proposed? {
          var j :| 0 <= j < |at| && at[j] == p;
        }
      }
      assert Last(log[..n], Proposings(), at[k]) by {
        forall p | at[k] < p < n ensures !Proposings()(log[..n][p]) {
          if log[p].body.Proposed? {
            var j :| 0 <= j < |at| && at[j] == p;
          }
        }
      }
    }
  }

  /** Work is a rule's if the latest proposal before it was a rule's and some freeze had answered that one. */
  ghost predicate ByRuleThen(log: Log) {
    exists p :: Last(log, Proposings(), p) && log[p].body.source == ByRouter && IsAnswered(log, p)
  }

  lemma DeciderIs(log: Log)
    requires Numbered(log)
    ensures DecidedBy(BoardOf(log).proposals) == if ByRuleThen(log) then ByRouter else Submitted
  {
    hide Folded, IsAnswered;
    var at := ProposalsPlaced(log);
    var ps := BoardOf(log).proposals;
    if ps != [] {
      LatestProposal(log, ps, at);
      OnlyLast(log, Proposings(), at[|at| - 1]);
      hide Last, PlacesProposals;
    }
  }

  lemma LatestProposal(log: Log, ps: seq<Proposal>, at: seq<int>)
    requires PlacesProposals(log, ps, at) && ps != []
    ensures |at| == |ps| && Last(log, Proposings(), at[|at| - 1]) && IsProposal(log, at[|at| - 1], ps[|at| - 1])
  {
    hide IsAnswered;
    var last := |ps| - 1;
    assert IsProposal(log, at[last], ps[last]);
    forall p | at[last] < p < |log| ensures !Proposings()(log[p]) {
      if log[p].body.Proposed? {
        var j :| 0 <= j < |at| && at[j] == p;
      }
    }
  }

  /* ---------------------------------------------------------------- depth */

  /** A chain of `n` creations leads up to `v`, each naming the one before it as a parent when that one was there. */
  ghost predicate Chain(log: Log, v: Id, n: nat)
    decreases n
  {
    exists k ::
      Last(log, Creations(v), k) && (n == 0 || exists p :: p in log[k].body.parents && Chain(log[..k], p, n - 1))
  }

  /** The longest chain up to `v` is `d` long. */
  ghost predicate IsDepth(log: Log, v: Id, d: nat) { Chain(log, v, d) && forall n: nat :: Chain(log, v, n) ==> n <= d }

  lemma {:induction false} DepthIsMost(cards: Cards, parents: seq<Id>)
    ensures forall p :: p in parents && p in cards ==> cards[p].depth + 1 <= Depth(cards, parents)
    ensures Depth(cards, parents) == 0 ||
      exists p :: p in parents && p in cards && Depth(cards, parents) == cards[p].depth + 1
  {
    if parents != [] {
      var n := |parents| - 1;
      DepthIsMost(cards, parents[..n]);
      assert parents == parents[..n] + [parents[n]];
      assert forall p :: p in parents[..n] ==> p in parents;
      assert parents[n] in parents;
    }
  }

  lemma ChainAt(log: Log, v: Id, k: int, n: nat)
    requires Last(log, Creations(v), k)
    ensures Chain(log, v, n) <==> n == 0 || exists p :: p in log[k].body.parents && Chain(log[..k], p, n - 1)
  {
    OnlyLast(log, Creations(v), k);
  }

  lemma {:induction false} CardDepth(log: Log, v: Id)
    requires v in BoardOf(log).cards
    ensures IsDepth(log, v, BoardOf(log).cards[v].depth)
    decreases |log|
  {
    var n := |log| - 1;
    var b := BoardOf(log[..n]);
    ConsoleSurface.CardStep(b, log[n], v);
    hide Applied, Chain, Depth;
    if Creations(v)(log[n]) {
      forall p | p in b.cards ensures IsDepth(log[..n], p, b.cards[p].depth) { CardDepth(log[..n], p); }
      forall p ensures Chain(log[..n], p, 0) <==> p in b.cards { CardedIs(log[..n], p); }
      NewDepth(log, v, b.cards);
    } else {
      CardDepth(log[..n], v);
      KeepsDepth(b.cards[v], log[n], v);
      CardedIs(log[..n], v);
      var k := LastOne(log[..n], Creations(v));
      LastStays(log, Creations(v), k);
      assert log[..n][..k] == log[..k];
      forall m: nat ensures Chain(log, v, m) <==> Chain(log[..n], v, m) {
        ChainAt(log, v, k, m);
        ChainAt(log[..n], v, k, m);
      }
    }
  }

  lemma {:induction false} CardedIs(log: Log, v: Id)
    ensures v in BoardOf(log).cards <==> !Never(log, Creations(v))
    ensures Chain(log, v, 0) <==> v in BoardOf(log).cards
  {
    ConsoleSurface.CardIs(log, v);
    ViewIs(log, v);
    hide Folded;
    if !Never(log, Creations(v)) { var k := LastOne(log, Creations(v)); }
  }

  lemma KeepsDepth(c: Card, e: Event, v: Id)
    ensures ConsoleSurface.Plain(ConsoleSurface.CardAfter(c, e, v)).depth == c.depth
    ensures ConsoleSurface.Plain(ConsoleSurface.CardAfter(c, e, v)).frozenBy == c.frozenBy
    ensures ConsoleSurface.Plain(ConsoleSurface.CardAfter(c, e, v)).decidedBy == c.decidedBy
  {
  }

  lemma NewDepth(log: Log, v: Id, cards: Cards)
    requires log != [] && Creations(v)(log[|log| - 1])
    requires forall p :: p in cards ==> IsDepth(log[..|log| - 1], p, cards[p].depth)
    requires forall p :: Chain(log[..|log| - 1], p, 0) <==> p in cards
    ensures IsDepth(log, v, Depth(cards, log[|log| - 1].body.parents))
  {
    hide Depth, Chain;
    var n := |log| - 1;
    var parents := log[n].body.parents;
    var d := Depth(cards, parents);
    DepthIsMost(cards, parents);
    assert Last(log, Creations(v), n);
    ChainAt(log, v, n, d);
    forall m: nat | Chain(log, v, m) ensures m <= d {
      ChainAt(log, v, n, m);
      if m > 0 {
        var p :| p in parents && Chain(log[..n], p, m - 1);
        ChainDown(log[..n], p, m - 1);
        assert IsDepth(log[..n], p, cards[p].depth);
      }
    }
    if d > 0 {
      var p :| p in parents && p in cards && d == cards[p].depth + 1;
      assert IsDepth(log[..n], p, cards[p].depth);
    }
  }

  lemma {:induction false} ChainDown(log: Log, p: Id, m: nat)
    requires Chain(log, p, m)
    ensures Chain(log, p, 0)
  {
  }

  /* ---------------------------------------------------------------- the whole card */

  /** What changes on a card after the vertex was created at `k`. */
  ghost predicate ShowsRun(log: Log, v: Id, k: int, c: Card) {
    && ShowsStatus(log, v, k, c.status)
    && ShowsBracket(log, v, k, c.bracket)
    && (c.pivotPassed <==> !QuietSince(log, Passings(v), k))
    && ShowsDiscard(log, v, k, c.shadowedAt)
    && ShowsPrompt(log, v, k, c.role, c.inPrompt)
  }

  /** What is settled when the vertex is created at `k`. */
  ghost predicate ShowsBirth(log: Log, v: Id, k: int, c: Card) {
    && Last(log, Creations(v), k)
    && c.parents == log[k].body.parents && c.role == log[k].body.role && c.createdSeq == log[k].runSeq
    && IsOrigin(log[..k], v, c.frozenBy)
    && c.decidedBy == (if ByRuleThen(log[..k]) then ByRouter else Submitted)
  }

  ghost predicate IsCard(log: Log, v: Id, c: Card) {
    IsDepth(log, v, c.depth) && exists k :: ShowsBirth(log, v, k, c) && ShowsRun(log, v, k, c)
  }

  lemma TxnStep(b: Board, e: Event, v: Id)
    requires v in b.cards && !Creations(v)(e)
    ensures var cards := Applied(b, e).cards;
      && v in cards
      && cards[v].bracket == BracketAfter(b.cards[v], v, b.scopes, e.body).bracket
      && cards[v].pivotPassed == BracketAfter(b.cards[v], v, b.scopes, e.body).pivotPassed
  {
    hide ScopesAfter, InScope, NewCard, Replanned, Announced, Closed;
  }

  lemma NewlyShown(log: Log, v: Id, c: Card)
    requires log != [] && c.status == ForkSlice.NotRun && c.bracket == NoBracket && !c.pivotPassed && c.shadowedAt.None?
    requires c.inPrompt == (c.role != Router)
    ensures ShowsRun(log, v, |log| - 1, c)
  {
    var n := |log| - 1;
    NoneAfterEnd(log, Executions(v));
    NoneAfterEnd(log, Tries(v));
    NoneAfterEnd(log, Passings(v));
    NoneAfterEnd(log, Discards(v));
    NoneAfterEnd(log, Endings(v));
    NeverSince(log, Executions(v), n);
    NeverSince(log, Tries(v), n);
    NeverSince(log, Discards(v), n);
    NeverSince(log, Endings(v), n);
  }

  lemma RunStep(log: Log, v: Id, k: int, c: Card, d: Card)
    requires log != [] && 0 <= k < |log| - 1 && ShowsRun(log[..|log| - 1], v, k, c)
    requires d.role == c.role
    requires var n := |log| - 1; var e := log[n];
      && d.status == (if Executions(v)(e) then ForkSlice.StatusOf(e.body) else c.status)
      && d.inPrompt == (if Executions(v)(e) then Executed(c, e.body).inPrompt else c.inPrompt)
      && d.shadowedAt == (if Discards(v)(e) then Shade(c, e.runSeq).shadowedAt else c.shadowedAt)
      && d.bracket == BracketAfter(c, v, BoardOf(log[..n]).scopes, e.body).bracket
      && d.pivotPassed == BracketAfter(c, v, BoardOf(log[..n]).scopes, e.body).pivotPassed
    ensures ShowsRun(log, v, k, d)
  {
    hide ShowsStatus, ShowsBracket, ShowsDiscard, ShowsPrompt, QuietSince, BracketAfter, Folded;
    StatusStep(log, v, k, c.status);
    PromptStep(log, v, k, c);
    DiscardStep(log, v, k, c);
    BracketStep(log, v, k, c);
    PassedStep(log, v, k, c);
  }

  lemma AfterFields(c: Card, e: Event, v: Id)
    requires !Creations(v)(e)
    ensures var d := ConsoleSurface.CardAfter(c, e, v);
      && d.role == c.role && d.parents == c.parents && d.createdSeq == c.createdSeq
      && d.status == (if Executions(v)(e) then ForkSlice.StatusOf(e.body) else c.status)
      && d.inPrompt == (if Executions(v)(e) then Executed(c, e.body).inPrompt else c.inPrompt)
      && d.shadowedAt == (if Discards(v)(e) then Shade(c, e.runSeq).shadowedAt else c.shadowedAt)
      && d.frozenBy == c.frozenBy && d.decidedBy == c.decidedBy
  {
  }

  lemma PlainAlike(c: Card, d: Card)
    requires ConsoleSurface.Plain(c) == ConsoleSurface.Plain(d)
    ensures c.frozenBy == d.frozenBy && c.decidedBy == d.decidedBy
  {
    assert ConsoleSurface.Plain(c).frozenBy == c.frozenBy && ConsoleSurface.Plain(d).frozenBy == d.frozenBy;
  }

  lemma {:induction false} CardShows(log: Log, v: Id) returns (k: nat)
    requires Numbered(log) && v in BoardOf(log).cards
    ensures ShowsBirth(log, v, k, BoardOf(log).cards[v]) && ShowsRun(log, v, k, BoardOf(log).cards[v])
  {
    var n := |log| - 1;
    NumberedPrefix(log, n);
    var b := BoardOf(log[..n]);
    ConsoleSurface.CardStep(b, log[n], v);
    var now := BoardOf(log).cards[v];
    if Creations(v)(log[n]) {
      k := n;
      assert Last(log, Creations(v), n);
      OriginIs(log[..n], v);
      DeciderIs(log[..n]);
      NewlyShown(log, v, now);
    } else {
      TxnStep(b, log[n], v);
      hide Applied, ShowsRun, BracketAfter, ConsoleSurface.CardAfter, ConsoleSurface.Plain, IsOrigin, ByRuleThen;
      k := CardShows(log[..n], v);
      AfterFields(b.cards[v], log[n], v);
      ConsoleSurface.PlainFields(now, ConsoleSurface.CardAfter(b.cards[v], log[n], v));
      PlainAlike(now, ConsoleSurface.CardAfter(b.cards[v], log[n], v));
      LastStays(log, Creations(v), k);
      assert log[..n][..k] == log[..k];
      RunStep(log, v, k, b.cards[v], now);
    }
  }

  /** Exactly the created vertices have a card, and every card shows what the log's events say. */
  lemma CardExactly(log: Log, v: Id)
    requires Numbered(log)
    ensures v in BoardOf(log).cards <==> !Never(log, Creations(v))
    ensures v in BoardOf(log).cards ==> IsCard(log, v, BoardOf(log).cards[v])
  {
    hide Folded, ShowsBirth, ShowsRun, IsDepth;
    CardedIs(log, v);
    if v in BoardOf(log).cards {
      CardDepth(log, v);
      var k := CardShows(log, v);
    }
  }

  /* ---------------------------------------------------------------- replans */

  predicate IsReplan(b: Body) { b.Boundary? || b.Shadowed? }

  /** The events at `i` and `j` are about one replan: they name one boundary position. */
  predicate SameReplan(log: Log, i: int, j: int) {
    && 0 <= i < |log| && 0 <= j < |log| && IsReplan(log[i].body) && IsReplan(log[j].body)
    && (i == j || (log[i].body.resumes.Some? && log[i].body.resumes == log[j].body.resumes))
  }

  /** The event at `i` is the first heard of its replan. */
  ghost predicate OpensReplan(log: Log, i: int) {
    0 <= i < |log| && IsReplan(log[i].body) && forall j :: 0 <= j < i ==> !SameReplan(log, j, i)
  }

  ghost predicate DiscardedBy(log: Log, i: int, v: Id) {
    exists j :: SameReplan(log, i, j) && log[j].body.Shadowed? && v in log[j].body.hidden
  }

  /** The record of the replan first heard of at `i`. */
  ghost predicate IsReplanRecord(log: Log, i: int, r: Replan) {
    && OpensReplan(log, i) && r.at == log[i].runSeq && r.resumes == log[i].body.resumes
    && forall v :: v in r.discarded <==> DiscardedBy(log, i, v)
  }

  /** One record for each replan, in the order they were first heard of. */
  ghost predicate PlacesReplans(log: Log, rs: seq<Replan>, at: seq<int>) {
    && |at| == |rs|
    && (forall i :: 0 <= i < |at| ==> IsReplanRecord(log, at[i], rs[i]))
    && (forall i, j :: 0 <= i < j < |at| ==> at[i] < at[j])
    && (forall i :: OpensReplan(log, i) ==> i in at)
  }

  lemma ReplansStep(b: Board, e: Event)
    ensures Applied(b, e).replans ==
      if IsReplan(e.body) then
        Replanned(b.replans, e.runSeq, e.body.resumes, if e.body.Shadowed? then e.body.hidden else {})
      else b.replans
  {
    hide ScopesAfter, NewCard, Bracketed, Replanned, Closed, Shaded, Executed, Announced;
  }

  /** Earlier records see of one more event only what it adds to their own replan. */
  lemma RecordStays(log: Log, i: int, r: Replan)
    requires log != [] && IsReplanRecord(log[..|log| - 1], i, r)
    ensures var n := |log| - 1;
      && OpensReplan(log, i) && log[..n][i] == log[i]
      && forall v :: DiscardedBy(log, i, v) <==>
        v in r.discarded || (SameReplan(log, i, n) && log[n].body.Shadowed? && v in log[n].body.hidden)
  {
    var n := |log| - 1;
    assert forall j :: 0 <= j < n ==> log[..n][j] == log[j];
    assert forall j :: 0 <= j < n ==> (SameReplan(log[..n], j, i) <==> SameReplan(log, j, i));
    forall v ensures DiscardedBy(log, i, v) <==>
      v in r.discarded || (SameReplan(log, i, n) && log[n].body.Shadowed? && v in log[n].body.hidden)
    {
      if DiscardedBy(log[..n], i, v) {
        var j :| SameReplan(log[..n], i, j) && log[..n][j].body.Shadowed? && v in log[..n][j].body.hidden;
        assert SameReplan(log, i, j);
      }
      if DiscardedBy(log, i, v) {
        var j :| SameReplan(log, i, j) && log[j].body.Shadowed? && v in log[j].body.hidden;
        if j < n { assert SameReplan(log[..n], i, j); }
      }
    }
  }

  lemma {:induction false} ReplanAtIs(rs: seq<Replan>, resumes: Option<nat>, n: nat)
    requires n <= |rs|
    ensures var i := ReplanAt(rs, resumes, n);
      && n <= i && (forall j :: n <= j < i ==> !(resumes.Some? && rs[j].resumes == resumes))
      && (i < |rs| ==> resumes.Some? && rs[i].resumes == resumes)
    decreases |rs| - n
  {
    if n < |rs| && !(resumes.Some? && rs[n].resumes == resumes) { ReplanAtIs(rs, resumes, n + 1); }
  }

  /** The event at the end is the first heard of its replan exactly when no record is about it yet. */
  lemma {:induction false} OpensAtEnd(log: Log, rs: seq<Replan>, at: seq<int>)
    requires log != [] && PlacesReplans(log[..|log| - 1], rs, at) && IsReplan(log[|log| - 1].body)
    ensures var n := |log| - 1; var k := ReplanAt(rs, log[n].body.resumes, 0);
      && (OpensReplan(log, n) <==> k == |rs|)
      && forall i :: 0 <= i < |at| ==> (SameReplan(log, at[i], n) <==> i == k)
  {
    hide DiscardedBy;
    var n := |log| - 1;
    var k := ReplanAt(rs, log[n].body.resumes, 0);
    ReplanAtIs(rs, log[n].body.resumes, 0);
    forall i | 0 <= i < |at|
      ensures 0 <= at[i] < n && IsReplan(log[at[i]].body) && rs[i].resumes == log[at[i]].body.resumes
    {
      assert IsReplanRecord(log[..n], at[i], rs[i]);
    }
    forall i | 0 <= i < |at| && SameReplan(log, at[i], n) ensures i == k {
      if k < i { OneRecord(log, rs, at, k, i); }
    }
    if k < |rs| { assert SameReplan(log, at[k], n); }
    if j :| 0 <= j < n && SameReplan(log, j, n) {
      var o := FirstHeard(log[..n], j);
      assert log[..n][j] == log[j] && log[..n][o] == log[o];
      var i :| 0 <= i < |at| && at[i] == o;
      assert SameReplan(log, at[i], n);
    }
  }

  lemma OneRecord(log: Log, rs: seq<Replan>, at: seq<int>, k: nat, i: nat)
    requires log != [] && PlacesReplans(log[..|log| - 1], rs, at) && k < i < |at|
    ensures !(rs[i].resumes.Some? && rs[k].resumes == rs[i].resumes)
  {
    hide DiscardedBy;
    assert IsReplanRecord(log[..|log| - 1], at[k], rs[k]) && IsReplanRecord(log[..|log| - 1], at[i], rs[i]);
    assert !SameReplan(log[..|log| - 1], at[k], at[i]);
  }

  lemma {:induction false} FirstHeard(log: Log, j: nat) returns (o: nat)
    requires j < |log| && IsReplan(log[j].body)
    ensures o <= j && OpensReplan(log, o) && SameReplan(log, o, j)
    decreases j
  {
    if i :| 0 <= i < j && SameReplan(log, i, j) {
      o := FirstHeard(log, i);
    } else {
      o := j;
    }
  }

  lemma {:induction false} ReplansPlaced(log: Log) returns (at: seq<int>)
    ensures PlacesReplans(log, BoardOf(log).replans, at)
  {
    if log == [] {
      at := [];
    } else {
      var n := |log| - 1;
      at := ReplansPlaced(log[..n]);
      var before := BoardOf(log[..n]);
      ReplansStep(before, log[n]);
      hide Folded, Replanned;
      if IsReplan(log[n].body) {
        OpensAtEnd(log, before.replans, at);
        AddReplan(log, before.replans, at);
        if OpensReplan(log, n) { at := at + [n]; }
      } else {
        SameReplans(log, before.replans, at);
      }
    }
  }

  lemma SameReplans(log: Log, rs: seq<Replan>, at: seq<int>)
    requires log != [] && PlacesReplans(log[..|log| - 1], rs, at) && !IsReplan(log[|log| - 1].body)
    ensures PlacesReplans(log, rs, at)
  {
    hide DiscardedBy;
    var n := |log| - 1;
    assert forall j :: 0 <= j < n ==> log[..n][j] == log[j];
    forall i | 0 <= i < |at| ensures IsReplanRecord(log, at[i], rs[i]) { RecordStays(log, at[i], rs[i]); }
    forall i | OpensReplan(log, i) ensures i in at { OpenedEarlier(log, i); }
  }

  lemma OpenedEarlier(log: Log, i: int)
    requires log != [] && OpensReplan(log, i) && i < |log| - 1
    ensures OpensReplan(log[..|log| - 1], i)
  {
    var n := |log| - 1;
    assert forall j :: 0 <= j < n ==> log[..n][j] == log[j];
    assert forall j :: 0 <= j < i ==> (SameReplan(log[..n], j, i) <==> SameReplan(log, j, i));
  }

  lemma AddReplan(log: Log, rs: seq<Replan>, at: seq<int>)
    requires log != [] && PlacesReplans(log[..|log| - 1], rs, at) && IsReplan(log[|log| - 1].body)
    ensures var n := |log| - 1; var b := log[n].body;
      PlacesReplans(log, Replanned(rs, log[n].runSeq, b.resumes, if b.Shadowed? then b.hidden else {}),
        if OpensReplan(log, n) then at + [n] else at)
  {
    hide IsReplanRecord, OpensReplan, SameReplan;
    OpensAtEnd(log, rs, at);
    if ReplanAt(rs, log[|log| - 1].body.resumes, 0) == |rs| {
      OpenReplan(log, rs, at);
    } else {
      JoinReplan(log, rs, at);
    }
  }

  lemma OpenReplan(log: Log, rs: seq<Replan>, at: seq<int>)
    requires log != [] && PlacesReplans(log[..|log| - 1], rs, at) && OpensReplan(log, |log| - 1)
    requires forall i :: 0 <= i < |at| ==> !SameReplan(log, at[i], |log| - 1)
    ensures var n := |log| - 1; var b := log[n].body;
      PlacesReplans(log, rs + [Replan(log[n].runSeq, b.resumes, if b.Shadowed? then b.hidden else {})], at + [n])
  {
    hide DiscardedBy, SameReplan;
    var n := |log| - 1;
    forall i | 0 <= i < |at| ensures IsReplanRecord(log, at[i], rs[i]) && at[i] < n {
      assert IsReplanRecord(log[..n], at[i], rs[i]);
      RecordAfter(log, at[i], rs[i]);
    }
    OwnDiscards(log, n);
    AllListed(log, at);
  }

  lemma {:induction false} JoinReplan(log: Log, rs: seq<Replan>, at: seq<int>)
    requires log != [] && PlacesReplans(log[..|log| - 1], rs, at) && IsReplan(log[|log| - 1].body)
      && !OpensReplan(log, |log| - 1)
    requires ReplanAt(rs, log[|log| - 1].body.resumes, 0) < |rs|
    requires forall i :: 0 <= i < |at| ==>
      (SameReplan(log, at[i], |log| - 1) <==> i == ReplanAt(rs, log[|log| - 1].body.resumes, 0))
    ensures var n := |log| - 1; var b := log[n].body;
      PlacesReplans(log, Replanned(rs, log[n].runSeq, b.resumes, if b.Shadowed? then b.hidden else {}), at)
  {
    hide IsReplanRecord, OpensReplan, SameReplan, ReplanAt;
    var n := |log| - 1;
    var b := log[n].body;
    var rs2 := Replanned(rs, log[n].runSeq, b.resumes, if b.Shadowed? then b.hidden else {});
    forall i | 0 <= i < |at| ensures IsReplanRecord(log, at[i], rs2[i]) {
      RecordAfter(log, at[i], rs[i]);
    }
    AllListed(log, at);
  }

  lemma RecordAfter(log: Log, i: int, r: Replan)
    requires log != [] && IsReplanRecord(log[..|log| - 1], i, r)
    ensures var b := log[|log| - 1].body;
      if SameReplan(log, i, |log| - 1) then
        IsReplanRecord(log, i, r.(discarded := r.discarded + if b.Shadowed? then b.hidden else {}))
      else IsReplanRecord(log, i, r)
  {
    hide DiscardedBy, SameReplan;
    RecordStays(log, i, r);
  }

  lemma AllListed(log: Log, at: seq<int>)
    requires log != [] && forall i :: OpensReplan(log[..|log| - 1], i) ==> i in at
    ensures forall i :: OpensReplan(log, i) ==> i in at || i == |log| - 1
  {
    forall i | OpensReplan(log, i) ensures i in at || i == |log| - 1 {
      if i < |log| - 1 { OpenedEarlier(log, i); }
    }
  }

  lemma OwnDiscards(log: Log, n: int)
    requires n == |log| - 1 && OpensReplan(log, n)
    ensures forall v :: DiscardedBy(log, n, v) <==> log[n].body.Shadowed? && v in log[n].body.hidden
  {
    assert SameReplan(log, n, n);
    assert forall j :: SameReplan(log, n, j) ==> j == n || SameReplan(log, j, n);
  }

  /* ---------------------------------------------------------------- the dates of a scope */

  /** Any event that makes the console keep a record of a scope. */
  function Openings(s: Id): Kind {
    (e: Event) =>
      (e.body.Frozen? && s in e.body.scopes) || (e.body.Created? && e.body.scope == Some(s))
      || ((e.body.ScopeState? || e.body.Cancel? || e.body.PivotPassed?) && e.body.txn == s)
  }

  function Closers(s: Id): Kind {
    (e: Event) =>
      e.body == ScopeState(s, DeclaredCommitted) || e.body == ScopeState(s, DeclaredCancelled)
      || e.body == Cancel(s, true)
  }

  function PassesOf(s: Id): Kind { (e: Event) => e.body.PivotPassed? && e.body.txn == s }

  /** Opened where it was first heard of; closed and passed where that was last said. */
  ghost predicate IsDated(log: Log, c: ScopeCard) {
    && (exists i :: First(log, Openings(c.id), i) && c.openedAt == log[i].runSeq)
    && DatedBy(log, Closers(c.id), c.closedAt)
    && DatedBy(log, PassesOf(c.id), c.passedAt)
  }

  ghost predicate DatedBy(log: Log, of: Kind, at: Option<nat>) {
    && (Never(log, of) <==> at.None?)
    && forall i :: Last(log, of, i) ==> at == Some(log[i].runSeq)
  }

  lemma DatedStep(log: Log, of: Kind, at: Option<nat>)
    requires log != [] && DatedBy(log[..|log| - 1], of, at)
    ensures DatedBy(log, of, if of(log[|log| - 1]) then Some(log[|log| - 1].runSeq) else at)
  {
    StepBack(log, of);
    OneMore(log, of);
    hide Last, Never;
  }

  /** The record a card was made from: an earlier one, or a new one where there was none. */
  lemma MadeFrom(cards: ScopeCards, e: Event, c: ScopeCard) returns (d: ScopeCard)
    requires c in ScopesAfter(cards, e)
    ensures d.id == c.id
    ensures d in cards ||
      (!HasScope(cards, c.id) && Openings(c.id)(e) && d == ScopeCard(c.id, ShownOpen, [], None, e.runSeq, None))
    ensures c == match EditOf(e) case Some((s, edit)) => EditOne(d, s, edit) case None => d
  {
    if e.body.Frozen? {
      d := c;
      EnsuredFrom(cards, e.body.scopes, e.runSeq, c);
    } else if EditOf(e).Some? {
      var (s, edit) := EditOf(e).value;
      d := ConsoleScopeRows.EditedFrom(Ensured(cards, s, e.runSeq), s, edit, c);
      EnsuredOne(cards, s, e.runSeq, d);
    } else {
      d := c;
    }
  }

  lemma EnsuredOne(cards: ScopeCards, s: Id, at: nat, d: ScopeCard)
    requires d in Ensured(cards, s, at)
    ensures d in cards || (!HasScope(cards, d.id) && d.id == s && d == ScopeCard(s, ShownOpen, [], None, at, None))
  {
  }

  lemma {:induction false} EnsuredFrom(cards: ScopeCards, ids: seq<Id>, at: nat, d: ScopeCard)
    requires d in EnsuredAll(cards, ids, at)
    ensures d in cards || (!HasScope(cards, d.id) && d.id in ids && d == ScopeCard(d.id, ShownOpen, [], None, at, None))
  {
    hide HasScope;
    if ids != [] {
      var n := |ids| - 1;
      var before := EnsuredAll(cards, ids[..n], at);
      assert ids == ids[..n] + [ids[n]];
      if d in before {
        EnsuredFrom(cards, ids[..n], at, d);
      } else {
        EnsuredOne(before, ids[n], at, d);
        HasGrows(cards, ids[..n], at, d.id);
      }
    }
  }

  lemma {:induction false} HasGrows(cards: ScopeCards, ids: seq<Id>, at: nat, s: Id)
    ensures HasScope(EnsuredAll(cards, ids, at), s) <==> HasScope(cards, s) || s in ids
  {
    if ids != [] {
      var n := |ids| - 1;
      HasGrows(cards, ids[..n], at, s);
      assert ids == ids[..n] + [ids[n]];
      EnsuredHas(EnsuredAll(cards, ids[..n], at), ids[n], at, s);
    }
  }

  lemma EnsuredHas(cards: ScopeCards, r: Id, at: nat, s: Id)
    ensures HasScope(Ensured(cards, r, at), s) <==> HasScope(cards, s) || s == r
  {
    var now := Ensured(cards, r, at);
    if i :| 0 <= i < |cards| && cards[i].id == s { assert now[i].id == s; }
    if !HasScope(cards, r) { assert now[|cards|].id == r; }
  }

  lemma {:induction false} RecordedScopes(log: Log, s: Id)
    ensures HasScope(BoardOf(log).scopes, s) <==> !Never(log, Openings(s))
  {
    if log != [] {
      var n := |log| - 1;
      RecordedScopes(log[..n], s);
      OneMore(log, Openings(s));
      hide AppliedTo, HasScope, Never;
      HasAfter(BoardOf(log[..n]).scopes, log[n], s);
    }
  }

  lemma HasAfter(cards: ScopeCards, e: Event, s: Id)
    ensures HasScope(ScopesAfter(cards, e), s) <==> HasScope(cards, s) || Openings(s)(e)
  {
    hide HasScope, EditAt;
    if e.body.Frozen? {
      HasGrows(cards, e.body.scopes, e.runSeq, s);
    } else if EditOf(e).Some? {
      var (r, edit) := EditOf(e).value;
      EnsuredHas(cards, r, e.runSeq, s);
      ConsoleScopeRows.EditHas(Ensured(cards, r, e.runSeq), r, edit, s);
    }
  }

  /** Every scope record is dated by the log's events. */
  lemma {:induction false} ScopesDated(log: Log, c: ScopeCard)
    requires c in BoardOf(log).scopes
    ensures IsDated(log, c)
  {
    var n := |log| - 1;
    var cards := BoardOf(log[..n]).scopes;
    hide AppliedTo;
    var d := MadeFrom(cards, log[n], c);
    EditDates(d, log[n], c);
    hide Folded, ScopesAfter, HasScope, EditOf, EditOne, IsDated, DatedBy, First, Never;
    if d in cards {
      ScopesDated(log[..n], d);
      DatesOf(log[..n], d);
      OpenedStays(log, d);
    } else {
      RecordedScopes(log[..n], c.id);
      FirstHere(log, Openings(c.id));
      NewlyDated(log, c.id);
    }
    FinallyDated(log, d, c);
  }

  lemma EditDates(d: ScopeCard, e: Event, c: ScopeCard)
    requires c == match EditOf(e) case Some((s, edit)) => EditOne(d, s, edit) case None => d
    ensures c.id == d.id && c.openedAt == d.openedAt
    ensures c.closedAt == if Closers(d.id)(e) then Some(e.runSeq) else d.closedAt
    ensures c.passedAt == if PassesOf(d.id)(e) then Some(e.runSeq) else d.passedAt
  {
  }

  lemma FinallyDated(log: Log, d: ScopeCard, c: ScopeCard)
    requires log != [] && c.id == d.id && exists i :: First(log, Openings(c.id), i) && c.openedAt == log[i].runSeq
    requires DatedBy(log[..|log| - 1], Closers(d.id), d.closedAt)
      && DatedBy(log[..|log| - 1], PassesOf(d.id), d.passedAt)
    requires var e := log[|log| - 1];
      && c.closedAt == (if Closers(d.id)(e) then Some(e.runSeq) else d.closedAt)
      && c.passedAt == (if PassesOf(d.id)(e) then Some(e.runSeq) else d.passedAt)
    ensures IsDated(log, c)
  {
    DatedStep(log, Closers(d.id), d.closedAt);
    DatedStep(log, PassesOf(d.id), d.passedAt);
    hide DatedBy, First, Closers, PassesOf, Openings;
  }

  lemma DatesOf(log: Log, d: ScopeCard)
    requires IsDated(log, d)
    ensures DatedBy(log, Closers(d.id), d.closedAt) && DatedBy(log, PassesOf(d.id), d.passedAt)
  {
  }

  lemma OpenedStays(log: Log, d: ScopeCard)
    requires log != [] && IsDated(log[..|log| - 1], d)
    ensures exists i :: First(log, Openings(d.id), i) && d.openedAt == log[i].runSeq
  {
    hide DatedBy;
    var n := |log| - 1;
    var i :| First(log[..n], Openings(d.id), i) && d.openedAt == log[..n][i].runSeq;
    assert log[..n][i] == log[i] && First(log, Openings(d.id), i);
  }

  lemma NewlyDated(log: Log, s: Id)
    requires log != [] && Never(log[..|log| - 1], Openings(s))
    ensures DatedBy(log[..|log| - 1], Closers(s), None) && DatedBy(log[..|log| - 1], PassesOf(s), None)
  {
    var pre := log[..|log| - 1];
    forall i | 0 <= i < |pre| ensures !Closers(s)(pre[i]) && !PassesOf(s)(pre[i]) {
      assert !Openings(s)(pre[i]);
    }
  }
}
