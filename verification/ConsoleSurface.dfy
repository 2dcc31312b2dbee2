/**
 The console's projection against the planner's surface: they must agree about which vertices
 are there, and about which of them a planner's prompt shows.
 */
module ConsoleSurface {
  import opened EventLog
  import opened CausalGraph
  import opened RecoveryLadder
  import opened LadderFacts
  import opened RunProtocol
  import opened RunInvariant
  import opened RecoverySafety
  import opened RunSafety
  import ForkSlice
  import ConsoleFold
  import D = DeterministicBranches
  import W = RecoveryWitnesses
  import ConsoleScopes

  const Blank := ConsoleFold.Board(map[], map[], [], [], [])

  /** The console's cards of a whole log. */
  function CardsOf(log: Log): (cards: ConsoleFold.Cards) { ConsoleFold.Folded(Blank, log).cards }

  /** The vertex was discarded after it was last created. */
  function ShadowedSince(log: Log, v: Id): (r: bool) {
    if log == [] then false
    else
      var b := log[|log| - 1].body;
      if b.Created? && b.vertex == v then false
      else
        ShadowedSince(log[..|log| - 1], v)
        || (b.Shadowed? && v in b.hidden && ForkSlice.ViewOf(log[..|log| - 1], v).Some?)
  }

  /** The fields both projections keep. */
  ghost predicate SameFields(c: ConsoleFold.Card, w: ForkSlice.View) {
    c.parents == w.parents && c.role == w.role && c.createdSeq == w.createdSeq && c.status == w.status
  }

  lemma {:induction false} CardIs(log: Log, v: Id)
    ensures v in CardsOf(log) <==> ForkSlice.ViewOf(log, v).Some?
    ensures v in CardsOf(log) ==> SameFields(CardsOf(log)[v], ForkSlice.ViewOf(log, v).value)
    ensures v in CardsOf(log) ==> (CardsOf(log)[v].shadowedAt.Some? <==> ShadowedSince(log, v))
  {
    if log != [] {
      var n := |log| - 1;
      CardIs(log[..n], v);
      var b := ConsoleFold.Folded(Blank, log[..n]);
      CardStep(b, log[n], v);
      hide ConsoleFold.Applied, Plain;
      if v in b.cards && !(log[n].body.Created? && log[n].body.vertex == v) {
        PlainFields(CardsOf(log)[v], CardAfter(b.cards[v], log[n], v));
      }
    }
  }

  /** What an event that creates nothing does to a card, but for its bracket. */
  function CardAfter(c: ConsoleFold.Card, e: Event, v: Id): (r: ConsoleFold.Card) {
    if e.body.Shadowed? && v in e.body.hidden then ConsoleFold.Shade(c, e.runSeq)
    else if ForkSlice.IsExecution(e.body) && e.body.vertex == v then ConsoleFold.Executed(c, e.body)
    else c
  }

  /** A card without what it shows of the transaction its vertex takes part in. */
  function Plain(c: ConsoleFold.Card): (r: ConsoleFold.Card) {
    c.(bracket := ConsoleFold.NoBracket, pivotPassed := false)
  }

  lemma CardStep(b: ConsoleFold.Board, e: Event, v: Id)
    ensures var cards := ConsoleFold.Applied(b, e).cards;
      if e.body.Created? && e.body.vertex == v then v in cards && cards[v] == ConsoleFold.NewCard(b, e)
      else if v !in b.cards then v !in cards
      else v in cards && Plain(cards[v]) == Plain(CardAfter(b.cards[v], e, v))
  {
    hide ConsoleScopes.ScopesAfter, ConsoleScopes.InScope, ConsoleFold.BracketAfter, ConsoleFold.NewCard,
      ConsoleFold.Replanned, ConsoleFold.Announced, ConsoleFold.Closed, ConsoleFold.Shade, ConsoleFold.Executed;
    if v in b.cards { PlainBracket(b.cards[v], v, b.scopes, e.body); }
  }

  lemma PlainBracket(c: ConsoleFold.Card, v: Id, scopes: ConsoleScopes.ScopeCards, b: Body)
    ensures Plain(ConsoleFold.BracketAfter(c, v, scopes, b)) == Plain(c)
  {
    hide ConsoleScopes.InScope;
  }

  /** Cards alike but for their brackets agree about everything else. */
  lemma PlainFields(c: ConsoleFold.Card, d: ConsoleFold.Card)
    requires Plain(c) == Plain(d)
    ensures c.parents == d.parents && c.role == d.role && c.createdSeq == d.createdSeq && c.status == d.status
    ensures c.shadowedAt == d.shadowedAt && c.inPrompt == d.inPrompt
  {
    assert Plain(c).parents == c.parents && Plain(d).parents == d.parents;
  }

  lemma {:induction false} ShadowedIsHidden(log: Log, v: Id)
    requires ShadowedSince(log, v)
    ensures v in Hidden(log)
  {
    if !(log[|log| - 1].body.Shadowed? && v in log[|log| - 1].body.hidden) { ShadowedIsHidden(log[..|log| - 1], v); }
  }

  /** The undiscarded cards are the surface. */
  ghost predicate SameVertices(log: Log, surface: map<Id, ForkSlice.View>) {
    forall v :: v in surface <==> v in CardsOf(log) && CardsOf(log)[v].shadowedAt.None?
  }

  /**
   The two projections agree about membership, field by field, exactly where no vertex was created
   after the last time it was discarded.
   */
  lemma {:induction false} SurfaceAgreesExactly(log: Log, surface: map<Id, ForkSlice.View>)
    requires ForkSlice.IsSurface(log, surface)
    ensures SameVertices(log, surface) <==> forall v :: v in CardsOf(log) && v in Hidden(log) ==> ShadowedSince(log, v)
    ensures forall v :: v in surface ==> v in CardsOf(log) && SameFields(CardsOf(log)[v], surface[v])
  {
    var cards := CardsOf(log);
    forall v ensures (v in cards <==> ForkSlice.ViewOf(log, v).Some?)
      && (v in cards ==> (cards[v].shadowedAt.Some? <==> ShadowedSince(log, v)))
      && (v in cards ==> SameFields(cards[v], ForkSlice.ViewOf(log, v).value))
      && (ShadowedSince(log, v) ==> v in Hidden(log))
    {
      CardIs(log, v);
      if ShadowedSince(log, v) { ShadowedIsHidden(log, v); }
    }
    if SameVertices(log, surface) {
      forall v | v in cards && v in Hidden(log) ensures ShadowedSince(log, v) { assert v !in surface; }
    }
  }

  /* ---------------------------------------------------------------- in every run */

  /** Whatever is discarded had been created. */
  ghost predicate ShadowsCreated(log: Log) {
    forall k :: 0 <= k < |log| && log[k].body.Shadowed? ==> log[k].body.hidden <= CreatedIds(log[..k])
  }

  lemma ShadowsGrow(log: Log, next: Log, bodies: seq<Body>)
    requires ShadowsCreated(log) && Appended(log, next, bodies)
    requires forall k :: 0 <= k < |bodies| && bodies[k].Shadowed? ==> bodies[k].hidden <= CreatedIds(log)
    ensures ShadowsCreated(next)
  {
    forall k | 0 <= k < |next| && next[k].body.Shadowed? ensures next[k].body.hidden <= CreatedIds(next[..k]) {
      if k < |log| {
        assert next[..k] == log[..k] && next[k] == log[k];
      } else {
        assert next[k].body == bodies[k - |log|];
        assert forall i :: 0 <= i < |log| ==> next[..k][i] == log[i];
      }
    }
  }

  lemma StepShadowsCreated(policy: Policy, price: Pricing, a: Run, step: Step, b: Run)
    requires Inv(a) && ShadowsCreated(a.log) && Takes(policy, price, a, step, b)
    ensures ShadowsCreated(b.log)
  {
    hide SelectBoundary, Coherent, Sound, WorkIsCreated, CreatedOnce, NeverDeclaredCancelled, Outstanding, View,
      ShadowsCreated, IsOpenRequest, IsFinalEscalation, IsLegalSelection, Disagreeing, Numbered, CreatedIds;
    if step.Recover? {
      var locked := Some(View(a.rows, step.tries));
      var d := SelectBoundary(a.log, step.v, policy, price, locked);
      DecisionFacts(a.log, step.v, policy, price, locked);
      if d.action == Record && d.selected.Some? { DiscardsCreated(a.log, policy, locked, d); }
      ShadowsGrow(a.log, b.log, Drafts(d));
    } else {
      OrdinaryBodies(policy, price, a, step, b);
      OrdinaryAppended(policy, price, a, step, b);
      ShadowsGrow(a.log, b.log, StepBodies(a, step));
    }
  }

  lemma DiscardsCreated(log: Log, policy: Policy, locked: Option<Locked>, d: Decision)
    requires IsLegalSelection(log, policy, locked, d)
    ensures d.shadowed <= CreatedIds(log)
  {
  }

  lemma {:induction false} RunShadowsCreated(policy: Policy, price: Pricing, run: seq<Run>, steps: seq<Step>, k: nat)
    requires IsRun(policy, price, run, steps) && k < |run|
    ensures ShadowsCreated(run[k].log)
  {
    hide Takes, Inv;
    if k > 0 {
      RunShadowsCreated(policy, price, run, steps, k - 1);
      RunInv(policy, price, run, steps, k - 1);
      StepShadowsCreated(policy, price, run[k - 1], steps[k - 1], run[k]);
    }
  }

  lemma {:induction false} HiddenStays(log: Log, v: Id)
    requires CreatedOnce(log) && ShadowsCreated(log) && v in Hidden(log)
    ensures ShadowedSince(log, v) && ForkSlice.ViewOf(log, v).Some?
  {
    var n := |log| - 1;
    var before := log[..n];
    assert forall i :: 0 <= i < n ==> before[i] == log[i] && before[..i] == log[..i];
    if v in Hidden(before) { HiddenStays(before, v); }
    if log[n].body.Shadowed? && v in log[n].body.hidden { CreatedIsViewed(before, v); }
    if v in Hidden(before) { ViewedIsCreated(before, v); }
  }

  lemma {:induction false} CreatedIsViewed(log: Log, v: Id)
    requires v in CreatedIds(log)
    ensures ForkSlice.ViewOf(log, v).Some?
  {
    var n := |log| - 1;
    if !(log[n].body.Created? && log[n].body.vertex == v) {
      var i :| 0 <= i < |log| && log[i].body.Created? && log[i].body.vertex == v;
      assert log[..n][i] == log[i];
      CreatedIsViewed(log[..n], v);
    }
  }

  lemma {:induction false} ViewedIsCreated(log: Log, v: Id)
    requires ForkSlice.ViewOf(log, v).Some?
    ensures exists i :: 0 <= i < |log| && log[i].body.Created? && log[i].body.vertex == v
  {
    var n := |log| - 1;
    if !(log[n].body.Created? && log[n].body.vertex == v) {
      ViewedIsCreated(log[..n], v);
      var i :| 0 <= i < n && log[..n][i].body.Created? && log[..n][i].body.vertex == v;
      assert log[i].body.Created? && log[i].body.vertex == v;
    }
  }

  /** In every run the cards the console shows as live are the planner's surface. */
  lemma SurfaceAgreesInRuns(policy: Policy, price: Pricing, run: seq<Run>, steps: seq<Step>, k: nat, surface: map<Id,
      ForkSlice.View>)
    requires IsRun(policy, price, run, steps) && k < |run| && ForkSlice.IsSurface(run[k].log, surface)
    ensures SameVertices(run[k].log, surface)
  {
    hide IsRun, SameVertices, ForkSlice.IsSurface;
    RunInv(policy, price, run, steps, k);
    RunShadowsCreated(policy, price, run, steps, k);
    SurfaceAgreesExactly(run[k].log, surface);
    forall v | v in Hidden(run[k].log) ensures ShadowedSince(run[k].log, v) { HiddenStays(run[k].log, v); }
  }

  /* ---------------------------------------------------------------- what a prompt shows */

  /** The vertex reports the condition it matched. */
  predicate Matches(b: Body, v: Id) { b.Succeeded? && b.vertex == v && b.told.Matched? }

  /** What makes the surface look afresh at a router's condition: a success that speaks of it, or another creation. */
  predicate Speaks(b: Body, v: Id) {
    (b.Succeeded? && b.vertex == v && !b.told.Unsaid?) || (b.Created? && b.vertex == v)
  }

  predicate Ends(b: Body, v: Id) { ConsoleFold.IsTerminal(b) && b.vertex == v }

  /** The match at `m` is the last thing said about this router's condition. */
  ghost predicate StillMatched(log: Log, m: nat, v: Id) {
    m < |log| && Matches(log[m].body, v) && forall k :: m < k < |log| ==> !Speaks(log[k].body, v)
  }

  /** The router's last word about its condition was a match, and it then ended again without a word about it. */
  ghost predicate ForgetsMatch(log: Log, v: Id) {
    exists m: nat, l :: StillMatched(log, m, v) && m < l < |log| && Ends(log[l].body, v)
  }

  /** The router's last end was the match itself. */
  ghost predicate EndedMatched(log: Log, v: Id) {
    exists m: nat :: StillMatched(log, m, v) && forall l :: m < l < |log| ==> !Ends(log[l].body, v)
  }

  lemma StillMatchedGrows(log: Log, m: nat, v: Id)
    requires log != [] && m < |log| - 1
    ensures StillMatched(log, m, v) <==> StillMatched(log[..|log| - 1], m, v) && !Speaks(log[|log| - 1].body, v)
  {
    var before := log[..|log| - 1];
    assert forall k :: 0 <= k < |before| ==> before[k] == log[k];
    if StillMatched(log, m, v) {
      forall k | m < k < |before| ensures !Speaks(before[k].body, v) { assert !Speaks(log[k].body, v); }
    }
    if StillMatched(before, m, v) && !Speaks(log[|log| - 1].body, v) {
      forall k | m < k < |log| ensures !Speaks(log[k].body, v) {
        if k < |before| { assert !Speaks(before[k].body, v); }
      }
    }
  }

  /** The surface keeps a condition exactly while the last thing said about it was a match. */
  lemma {:induction false} MatchedIs(log: Log, v: Id)
    requires ForkSlice.ViewOf(log, v).Some?
    ensures ForkSlice.ViewOf(log, v).value.matched.Some? <==> exists m: nat :: StillMatched(log, m, v)
  {
    var n := |log| - 1;
    var b := log[n].body;
    forall m: nat | m < n ensures StillMatched(log, m, v) <==> StillMatched(log[..n], m, v) && !Speaks(b, v) {
      StillMatchedGrows(log, m, v);
    }
    assert StillMatched(log, n, v) <==> Matches(b, v);
    if !Speaks(b, v) {
      MatchedIs(log[..n], v);
      if m: nat :| StillMatched(log[..n], m, v) { assert StillMatched(log, m, v); }
      if m: nat :| StillMatched(log, m, v) { assert m < n && StillMatched(log[..n], m, v); }
    } else if m: nat :| StillMatched(log, m, v) {
      assert m == n;
    }
  }

  /** The console shows a router exactly while its last end was a match. */
  lemma {:induction false} PromptIs(log: Log, v: Id)
    requires v in CardsOf(log)
    ensures var c := CardsOf(log)[v]; c.inPrompt <==> c.role != Router || EndedMatched(log, v)
  {
    var n := |log| - 1;
    var b := ConsoleFold.Folded(Blank, log[..n]);
    CardStep(b, log[n], v);
    EndedStep(log, v);
    hide ConsoleFold.Applied, EndedMatched, Plain;
    if !(log[n].body.Created? && log[n].body.vertex == v) {
      PlainFields(CardsOf(log)[v], CardAfter(b.cards[v], log[n], v));
      PromptIs(log[..n], v);
    }
  }

  lemma EndedStep(log: Log, v: Id)
    requires log != []
    ensures var b := log[|log| - 1].body; EndedMatched(log, v) <==>
      if Ends(b, v) then Matches(b, v) else !Speaks(b, v) && EndedMatched(log[..|log| - 1], v)
  {
    var n := |log| - 1;
    var b, before := log[n].body, log[..n];
    assert forall k :: 0 <= k < n ==> before[k] == log[k];
    forall m: nat | m < n ensures StillMatched(log, m, v) <==> StillMatched(before, m, v) && !Speaks(b, v) {
      StillMatchedGrows(log, m, v);
    }
    if Matches(b, v) {
      assert StillMatched(log, n, v);
    }
    if m: nat :| StillMatched(log, m, v) && forall l :: m < l < |log| ==> !Ends(log[l].body, v) {
      if m < n {
        assert !Ends(log[n].body, v);
        assert forall l :: m < l < n ==> !Ends(before[l].body, v);
      }
    }
    if !Ends(b, v) && !Speaks(b, v) {
      if m: nat :| StillMatched(before, m, v) && forall l :: m < l < n ==> !Ends(before[l].body, v) {
        assert StillMatched(log, m, v);
        assert forall l :: m < l < |log| ==> !Ends(log[l].body, v);
      }
    }
  }

  lemma OneMatchStands(log: Log, m: nat, l: nat, v: Id)
    requires StillMatched(log, m, v) && StillMatched(log, l, v)
    ensures m == l
  {
    assert Speaks(log[m].body, v) && Speaks(log[l].body, v);
  }

  /** What the console says of a prompt is what the planner's prompt shows. */
  ghost predicate SamePrompt(log: Log, surface: map<Id, ForkSlice.View>) {
    forall v :: v in surface && v in CardsOf(log)
      ==> (CardsOf(log)[v].inPrompt <==> ConsoleFold.Renders(surface[v].role, surface[v].matched))
  }

  lemma {:induction false} PromptOf(log: Log, v: Id)
    requires v in CardsOf(log) && ForkSlice.ViewOf(log, v).Some?
    ensures var w := ForkSlice.ViewOf(log, v).value;
      (CardsOf(log)[v].inPrompt <==> ConsoleFold.Renders(w.role, w.matched)) <==>
        !(w.role == Router && ForgetsMatch(log, v))
  {
    CardIs(log, v);
    PromptIs(log, v);
    MatchedIs(log, v);
    hide CardsOf, StillMatched;
    if EndedMatched(log, v) {
      var m: nat :| StillMatched(log, m, v) && forall l :: m < l < |log| ==> !Ends(log[l].body, v);
      forall i: nat | StillMatched(log, i, v) ensures i == m { OneMatchStands(log, m, i, v); }
    }
  }

  /**
   The console and the planner's prompt agree about every router exactly where none that last spoke
   of its condition by matching it has since failed, or succeeded without a word about it: the
   surface remembers the match, the console takes the last end.
   */
  lemma PromptAgreesExactly(log: Log, surface: map<Id, ForkSlice.View>)
    requires ForkSlice.IsSurface(log, surface)
    ensures SamePrompt(log, surface) <==> forall v :: v in surface && surface[v].role == Router ==>
      !ForgetsMatch(log, v)
  {
    hide CardsOf, ForgetsMatch, ConsoleFold.Renders;
    forall v | v in surface
      ensures v in CardsOf(log)
      ensures (CardsOf(log)[v].inPrompt <==> ConsoleFold.Renders(surface[v].role, surface[v].matched))
        <==> !(surface[v].role == Router && ForgetsMatch(log, v))
    {
      CardIs(log, v);
      PromptOf(log, v);
    }
  }

  /** A router ends at most once after each creation. */
  ghost predicate EndsOnce(log: Log, v: Id) {
    forall i, j :: 0 <= i < j < |log| && Ends(log[i].body, v) && Ends(log[j].body, v) ==> exists k ::
      i < k < j && log[k].body.Created? && log[k].body.vertex == v
  }

  /** So routers that end once are shown alike by both. */
  lemma PromptAgreesWhenRoutersEndOnce(log: Log, surface: map<Id, ForkSlice.View>)
    requires ForkSlice.IsSurface(log, surface)
    requires forall v :: v in surface && surface[v].role == Router ==> EndsOnce(log, v)
    ensures SamePrompt(log, surface)
  {
    hide ForkSlice.IsSurface, CardsOf;
    PromptAgreesExactly(log, surface);
    forall v | v in surface && surface[v].role == Router ensures !ForgetsMatch(log, v) { EndsOnceRemembers(log, v); }
  }

  lemma EndsOnceRemembers(log: Log, v: Id)
    requires EndsOnce(log, v)
    ensures !ForgetsMatch(log, v)
  {
    forall m: nat, l | StillMatched(log, m, v) && m < l < |log| ensures !Ends(log[l].body, v) {
      assert Ends(log[m].body, v);
      assert forall k :: m < k < l ==> !Speaks(log[k].body, v);
    }
  }

  /** A router that matched and then failed. */
  function Matching(): (b: seq<Body>) { [Frozen(0), Created(1, [], None, Router), Succeeded(1, None, Matched(0))] }
  function Relapse(): (b: seq<Body>) { Matching() + [Failed(1, None, false)] }

  lemma RelapseRun(policy: Policy, price: Pricing) returns (run: seq<Run>, steps: seq<Step>)
    ensures IsRun(policy, price, run, steps) && |run| > 0 && run[|run| - 1] == D.Bare(Relapse())
  {
    hide Takes, IsRun, CreatedOnce, W.Written, D.Bare;
    var two := [Frozen(0), Created(1, [], None, Router)];
    run, steps := D.Began(policy, price);
    D.FreezeTakes(policy, price, [], 0, Created(1, [], None, Router));
    assert [] + two == two;
    run, steps := W.Then(policy, price, run, steps, Freeze(0, [Created(1, [], None, Router)]), D.Bare(two));
    W.FewCreated(two);
    D.ReportTakes(policy, price, two, 1, Succeeded(1, None, Matched(0)));
    assert two + [Succeeded(1, None, Matched(0))] == Matching();
    run, steps := W.Then(policy, price, run, steps, Report(Succeeded(1, None, Matched(0))), D.Bare(Matching()));
    W.FewCreated(Matching());
    D.ReportTakes(policy, price, Matching(), 1, Failed(1, None, false));
    run, steps := W.Then(policy, price, run, steps, Report(Failed(1, None, false)), D.Bare(Relapse()));
  }

  lemma RelapseView()
    ensures var w := ForkSlice.ViewOf(W.Written(Relapse()), 1);
      w.Some? && w.value.matched == Some(0) && w.value.role == Router
    ensures Hidden(W.Written(Relapse())) == {}
  {
    var log := W.Written(Relapse());
    assert log[..3][..2][..1][..0] == [];
    assert log[..3][..2][..1][0] == Event(1, Frozen(0)) && log[..3][..2][1] == Event(2, Created(1, [], None, Router));
    assert log[..3][2] == Event(3, Succeeded(1, None, Matched(0))) && log[3] == Event(4, Failed(1, None, false));
    assert ForkSlice.ViewOf(log[..3][..2], 1) == Some(ForkSlice.View([], Router, 2, ForkSlice.NotRun, None));
    assert ForkSlice.ViewOf(log[..3], 1).value.matched == Some(0);
    assert Hidden(log[..3][..2][..1]) == {};
    assert Hidden(log[..3][..2]) == {};
    assert Hidden(log[..3]) == {};
  }

  lemma RelapseForgets()
    ensures ForgetsMatch(W.Written(Relapse()), 1)
  {
    var log := W.Written(Relapse());
    assert log[2] == Event(3, Succeeded(1, None, Matched(0))) && log[3] == Event(4, Failed(1, None, false));
    assert StillMatched(log, 2, 1) && Ends(log[3].body, 1);
  }

  /** A run after which a router that matched and then failed is in the planner's prompt and not in the console's. */
  lemma PromptDisagrees(policy: Policy, price: Pricing, surface: map<Id, ForkSlice.View>)
      returns (run: seq<Run>, steps: seq<Step>)
    requires ForkSlice.IsSurface(W.Written(Relapse()), surface)
    ensures IsRun(policy, price, run, steps) && |run| > 0 && run[|run| - 1].log == W.Written(Relapse())
    ensures var log := run[|run| - 1].log;
      && !SamePrompt(log, surface)
      && 1 in surface && surface[1].matched == Some(0) && 1 in CardsOf(log) && !CardsOf(log)[1].inPrompt
  {
    hide IsRun, CardsOf, ForgetsMatch, ForkSlice.ViewOf, Hidden, W.Written, Relapse;
    run, steps := RelapseRun(policy, price);
    RelapseView();
    RelapseForgets();
    CardIs(W.Written(Relapse()), 1);
    PromptOf(W.Written(Relapse()), 1);
  }
}
