/** What the console shows of a scope, against the ladder's reading of the log and the scope's row. */
module ConsoleScopeRows {
  import opened EventLog
  import opened ScopePhases
  import opened RecoveryLadder
  import opened LadderFacts
  import opened RunProtocol
  import opened RunInvariant
  import opened RecoverySafety
  import opened RunSafety
  import opened ConsoleScopes
  import ConsoleFold
  import ConsoleSurface

  /** The console's scope records of a whole log. */
  function ScopeCardsOf(log: Log): (cards: ScopeCards) { ConsoleFold.Folded(ConsoleSurface.Blank, log).scopes }

  /** What the last `txn/scope` or `txn/cancel` of a scope says of it; open before there is one. */
  function ShownAfter(before: Shown, b: Body, s: Id): (r: Shown) {
    if b.ScopeState? && b.txn == s then ShownFor(b.declared)
    else if b.Cancel? && b.txn == s then (if b.completed then ShownCancelled else ShownCancelling)
    else before
  }

  function ShownOf(log: Log, s: Id): (r: Shown) {
    if log == [] then ShownOpen else ShownAfter(ShownOf(log[..|log| - 1], s), log[|log| - 1].body, s)
  }

  /**
   Every record of this scope shows this state and these members, and where there is none the scope was never heard
   of.
   */
  ghost predicate Tells(cards: ScopeCards, s: Id, shown: Shown, members: set<Id>) {
    && (forall c :: c in cards && c.id == s ==> TellsOne(c, shown, members))
    && (!HasScope(cards, s) ==> shown == ShownOpen && members == {})
  }

  lemma EnsuredTells(cards: ScopeCards, r: Id, at: nat, s: Id, shown: Shown, members: set<Id>)
    requires Tells(cards, s, shown, members)
    ensures Tells(Ensured(cards, r, at), s, shown, members)
    ensures HasScope(Ensured(cards, r, at), r)
  {
    var now := Ensured(cards, r, at);
    if !HasScope(cards, r) {
      assert now[|cards|].id == r;
      forall i | 0 <= i < |cards| ensures now[i] == cards[i] {}
      if i :| 0 <= i < |cards| && cards[i].id == s { assert now[i].id == s; }
    }
  }

  lemma {:induction false} AllEnsuredTells(cards: ScopeCards, ids: seq<Id>, at: nat, s: Id, shown: Shown,
      members: set<Id>)
    requires Tells(cards, s, shown, members)
    ensures Tells(EnsuredAll(cards, ids, at), s, shown, members)
  {
    hide Ensured, Tells;
    if ids != [] {
      AllEnsuredTells(cards, ids[..|ids| - 1], at, s, shown, members);
      EnsuredTells(EnsuredAll(cards, ids[..|ids| - 1], at), ids[|ids| - 1], at, s, shown, members);
    }
  }

  /** One record tells this. */
  ghost predicate TellsOne(c: ScopeCard, shown: Shown, members: set<Id>) {
    c.shown == shown && forall v :: v in c.members <==> v in members
  }

  function ShownBy(shown: Shown, edit: Edit): (r: Shown) { if edit.Shows? then edit.shown else shown }

  function JoinedBy(members: set<Id>, edit: Edit): (r: set<Id>) { if edit.Joins? then members + {edit.v} else members }

  lemma EditTellsOne(c: ScopeCard, edit: Edit, shown: Shown, members: set<Id>)
    requires TellsOne(c, shown, members)
    ensures TellsOne(Edited(c, edit), ShownBy(shown, edit), JoinedBy(members, edit))
  {
  }

  lemma {:induction false} EditTells(cards: ScopeCards, r: Id, edit: Edit, s: Id, shown: Shown, members: set<Id>)
    requires Tells(cards, s, shown, members) && HasScope(cards, r)
    ensures r != s ==> Tells(EditAt(cards, r, edit), s, shown, members)
    ensures r == s ==> Tells(EditAt(cards, r, edit), s, ShownBy(shown, edit), JoinedBy(members, edit))
  {
    var now := EditAt(cards, r, edit);
    hide EditAt, Edited, ShownBy, JoinedBy, TellsOne, HasScope;
    EditHas(cards, r, edit, s);
    forall c | c in now && c.id == s
      ensures if r == s then TellsOne(c, ShownBy(shown, edit), JoinedBy(members, edit)) else TellsOne(c, shown, members)
    {
      var d := EditedFrom(cards, r, edit, c);
      EditTellsOne(d, edit, shown, members);
    }
  }

  lemma EditedFrom(cards: ScopeCards, r: Id, edit: Edit, c: ScopeCard) returns (d: ScopeCard)
    requires c in EditAt(cards, r, edit)
    ensures d in cards && d.id == c.id && c == EditOne(d, r, edit)
  {
    var now := EditAt(cards, r, edit);
    var i :| 0 <= i < |now| && now[i] == c;
    d := cards[i];
  }

  lemma {:induction false} EditHas(cards: ScopeCards, r: Id, edit: Edit, s: Id)
    ensures HasScope(EditAt(cards, r, edit), s) <==> HasScope(cards, s)
  {
    var now := EditAt(cards, r, edit);
    hide Edited;
    if i :| 0 <= i < |cards| && cards[i].id == s { assert now[i].id == s; }
    if i :| 0 <= i < |now| && now[i].id == s { assert cards[i].id == s; }
  }

  /** The console's members are the ladder's, and its state is what was last said of the scope. */
  lemma {:induction false} ScopeCardIs(log: Log, s: Id)
    ensures Tells(ScopeCardsOf(log), s, ShownOf(log, s), MembersOf(log, s))
  {
    hide Tells, ConsoleFold.AppliedTo;
    if log == [] {
      NothingTold(s);
    } else {
      var n := |log| - 1;
      ScopeCardIs(log[..n], s);
      TellsStep(ScopeCardsOf(log[..n]), log[n], s, ShownOf(log[..n], s), MembersOf(log[..n], s));
      MembersStep(log, s);
    }
  }

  lemma NothingTold(s: Id)
    ensures Tells([], s, ShownOpen, {})
  {
  }

  function Joined(members: set<Id>, b: Body, s: Id): (r: set<Id>) {
    if b.Created? && b.scope == Some(s) then members + {b.vertex} else members
  }

  lemma MembersStep(log: Log, s: Id)
    requires log != []
    ensures MembersOf(log, s) == Joined(MembersOf(log[..|log| - 1], s), log[|log| - 1].body, s)
  {
  }

  lemma TellsStep(cards: ScopeCards, e: Event, s: Id, shown: Shown, members: set<Id>)
    requires Tells(cards, s, shown, members)
    ensures Tells(ScopesAfter(cards, e), s, ShownAfter(shown, e.body, s), Joined(members, e.body, s))
  {
    hide Tells, Ensured, EnsuredAll, EditAt, HasScope;
    if e.body.Frozen? {
      AllEnsuredTells(cards, e.body.scopes, e.runSeq, s, shown, members);
    } else if EditOf(e).Some? {
      var (r, edit) := EditOf(e).value;
      EnsuredTells(cards, r, e.runSeq, s, shown, members);
      EditTells(Ensured(cards, r, e.runSeq), r, edit, s, shown, members);
    }
  }

  /* ---------------------------------------------------------------- in every run */

  /** The state the console gives a row: until it ends or cancels, a scope is open. */
  function ShownRow(state: RowState): (s: Shown) {
    match state
    case RowCommitted => ShownCommitted
    case RowCancelling => ShownCancelling
    case RowCancelled => ShownCancelled
    case RowSuspended => ShownSuspended
    case _ => ShownOpen
  }

  function RowShown(rows: map<Id, Row>, s: Id): (r: Shown) { if s in rows then ShownRow(rows[s].state) else ShownOpen }

  ghost predicate RowsShown(a: Run) { forall s :: ShownOf(a.log, s) == RowShown(a.rows, s) }

  predicate Declares(b: Body) { b.ScopeState? || b.Cancel? }

  lemma {:induction false} ShownGrows(log: Log, next: Log, s: Id)
    requires |log| <= |next| && next[..|log|] == log && forall k :: |log| <= k < |next| - 1 ==> !Declares(next[k].body)
    ensures |log| < |next| ==> ShownOf(next, s) == ShownAfter(ShownOf(log, s), next[|next| - 1].body, s)
    ensures |log| == |next| ==> ShownOf(next, s) == ShownOf(log, s)
    decreases |next|
  {
    assert next[..|next|] == next;
    if |log| < |next| {
      var n := |next| - 1;
      assert next[..n][..|log|] == log;
      ShownGrows(log, next[..n], s);
    }
  }

  /** Only the last event of a step declares anything. */
  lemma LastDeclares(policy: Policy, price: Pricing, a: Run, step: Step, b: Run)
    requires !step.Recover? && Takes(policy, price, a, step, b) && (step.FailAbsent? ==> step.s in a.absent)
    ensures var bodies := StepBodies(a, step); forall k :: 0 <= k < |bodies| - 1 ==> !Declares(bodies[k])
  {
    hide SelectBoundary, Appended, Outstanding, CreatedOf, Recovers, FenceOn;
  }

  /** What the last event of a step declares is what its row becomes. */
  lemma DeclaresRow(policy: Policy, price: Pricing, a: Run, step: Step, b: Run, s: Id)
    requires !step.Recover? && Takes(policy, price, a, step, b) && (step.FailAbsent? ==> step.s in a.absent)
    ensures var bodies := StepBodies(a, step);
      RowShown(b.rows, s) == if bodies == [] then RowShown(a.rows, s) else ShownAfter(RowShown(a.rows, s),
        bodies[|bodies| - 1], s)
  {
    hide SelectBoundary, Appended, Outstanding, CreatedOf, Recovers;
  }

  lemma OrdinaryShown(policy: Policy, price: Pricing, a: Run, step: Step, b: Run)
    requires Inv(a) && RowsShown(a) && !step.Recover? && Takes(policy, price, a, step, b)
    ensures RowsShown(b)
  {
    hide Takes, StepBodies, Coherent, Sound, WorkIsCreated, CreatedOnce, NeverDeclaredCancelled, Numbered, ShownOf,
      RowShown, ShownAfter, Declares;
    OrdinaryAppended(policy, price, a, step, b);
    LastDeclares(policy, price, a, step, b);
    var bodies := StepBodies(a, step);
    assert forall k :: |a.log| <= k < |b.log| ==> b.log[k].body == bodies[k - |a.log|];
    forall s ensures ShownOf(b.log, s) == RowShown(b.rows, s) {
      ShownGrows(a.log, b.log, s);
      DeclaresRow(policy, price, a, step, b, s);
    }
  }

  lemma DraftsDeclareNothing(d: Decision)
    ensures forall k :: 0 <= k < |Drafts(d)| ==> !Declares(Drafts(d)[k])
  {
  }

  lemma RecoverShown(policy: Policy, price: Pricing, a: Run, v: Id, tries: Tries, b: Run)
    requires RowsShown(a) && Takes(policy, price, a, Recover(v, tries), b)
    ensures RowsShown(b)
  {
    hide SelectBoundary, Outstanding, View, ShownOf, Drafts, Numbered;
    var d := SelectBoundary(a.log, v, policy, price, Some(View(a.rows, tries)));
    DraftsDeclareNothing(d);
    assert forall k :: |a.log| <= k < |b.log| ==> b.log[k].body == Drafts(d)[k - |a.log|];
    forall s ensures ShownOf(b.log, s) == RowShown(b.rows, s) { ShownGrows(a.log, b.log, s); }
  }

  lemma {:induction false} RunShown(policy: Policy, price: Pricing, run: seq<Run>, steps: seq<Step>, k: nat)
    requires IsRun(policy, price, run, steps) && k < |run|
    ensures RowsShown(run[k])
  {
    hide Takes, Inv;
    if k > 0 {
      RunShown(policy, price, run, steps, k - 1);
      RunInv(policy, price, run, steps, k - 1);
      hide RowsShown;
      if steps[k - 1].Recover? {
        RecoverShown(policy, price, run[k - 1], steps[k - 1].v, steps[k - 1].tries, run[k]);
      } else {
        OrdinaryShown(policy, price, run[k - 1], steps[k - 1], run[k]);
      }
    }
  }

  /** Some `txn/scope` event declares this scope. */
  ghost predicate IsDeclared(log: Log, s: Id) {
    exists i :: 0 <= i < |log| && log[i].body.ScopeState? && log[i].body.txn == s
  }

  lemma DeclaredGrows(log: Log, next: Log, s: Id)
    requires |log| <= |next| && next[..|log|] == log && IsDeclared(log, s)
    ensures IsDeclared(next, s)
  {
    var i :| 0 <= i < |log| && log[i].body.ScopeState? && log[i].body.txn == s;
    assert next[i] == log[i];
  }

  lemma NewRowIsDeclared(policy: Policy, price: Pricing, a: Run, step: Step, b: Run)
    requires Takes(policy, price, a, step, b)
    ensures forall s :: s in b.rows && s !in a.rows ==>
      step == EnsureScope(s) && |a.log| < |b.log| && b.log[|a.log|].body == ScopeState(s, DeclaredOpen)
    ensures |a.log| <= |b.log| && b.log[..|a.log|] == a.log
  {
    hide SelectBoundary, Outstanding, CreatedOf, Numbered;
    assert a.log[..|a.log|] == a.log;
  }

  lemma {:induction false} RunDeclares(policy: Policy, price: Pricing, run: seq<Run>, steps: seq<Step>, k: nat)
    requires IsRun(policy, price, run, steps) && k < |run|
    ensures forall s :: s in run[k].rows ==> IsDeclared(run[k].log, s)
  {
    hide Takes;
    if k > 0 {
      RunDeclares(policy, price, run, steps, k - 1);
      var a, b := run[k - 1], run[k];
      NewRowIsDeclared(policy, price, a, steps[k - 1], b);
      forall s | s in b.rows ensures IsDeclared(b.log, s) {
        if s in a.rows { DeclaredGrows(a.log, b.log, s); } else { assert b.log[|a.log|].body.txn == s; }
      }
    }
  }

  lemma EnsuredKeeps(cards: ScopeCards, r: Id, at: nat, s: Id)
    ensures HasScope(cards, s) || r == s ==> HasScope(Ensured(cards, r, at), s)
  {
    var now := Ensured(cards, r, at);
    assert forall i :: 0 <= i < |cards| ==> now[i] == cards[i];
    if !HasScope(cards, r) { assert now[|cards|].id == r; }
  }

  lemma {:induction false} AllEnsuredKeeps(cards: ScopeCards, ids: seq<Id>, at: nat, s: Id)
    requires HasScope(cards, s)
    ensures HasScope(EnsuredAll(cards, ids, at), s)
  {
    hide Ensured, HasScope;
    if ids != [] {
      AllEnsuredKeeps(cards, ids[..|ids| - 1], at, s);
      EnsuredKeeps(EnsuredAll(cards, ids[..|ids| - 1], at), ids[|ids| - 1], at, s);
    }
  }

  lemma AfterKeeps(cards: ScopeCards, e: Event, s: Id)
    ensures HasScope(cards, s) || (e.body.ScopeState? && e.body.txn == s) ==> HasScope(ScopesAfter(cards, e), s)
  {
    hide Ensured, EnsuredAll, Edited;
    if e.body.Frozen? {
      if HasScope(cards, s) { AllEnsuredKeeps(cards, e.body.scopes, e.runSeq, s); }
    } else if EditOf(e).Some? {
      var (r, edit) := EditOf(e).value;
      EnsuredKeeps(cards, r, e.runSeq, s);
      var mid := Ensured(cards, r, e.runSeq);
      if HasScope(mid, s) {
        var i :| 0 <= i < |mid| && mid[i].id == s;
        assert EditAt(mid, r, edit)[i].id == s;
      }
    }
  }

  lemma {:induction false} DeclaredHasCard(log: Log, s: Id)
    requires IsDeclared(log, s)
    ensures HasScope(ScopeCardsOf(log), s)
  {
    hide ConsoleFold.AppliedTo, ScopesAfter, HasScope;
    var n := |log| - 1;
    var i :| 0 <= i < |log| && log[i].body.ScopeState? && log[i].body.txn == s;
    if i < n {
      assert log[..n][i] == log[i];
      DeclaredHasCard(log[..n], s);
    }
    AfterKeeps(ScopeCardsOf(log[..n]), log[n], s);
  }

  /**
   In every run the console's record of a scope shows the state of its row, or open while it has none, and exactly the
   members the ladder counts.
   */
  lemma ConsoleShowsRows(policy: Policy, price: Pricing, run: seq<Run>, steps: seq<Step>, k: nat, s: Id)
    requires IsRun(policy, price, run, steps) && k < |run|
    ensures forall c :: c in ScopeCardsOf(run[k].log) && c.id == s ==>
      c.shown == RowShown(run[k].rows, s) && forall v :: v in c.members <==> v in MembersOf(run[k].log, s)
    ensures s in run[k].rows ==> HasScope(ScopeCardsOf(run[k].log), s)
  {
    hide IsRun, ScopeCardsOf, MembersOf, ShownOf, RowShown;
    RunShown(policy, price, run, steps, k);
    ScopeCardIs(run[k].log, s);
    if s in run[k].rows {
      RunDeclares(policy, price, run, steps, k);
      DeclaredHasCard(run[k].log, s);
    }
  }
}
