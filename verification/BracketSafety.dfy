/**
 The bracket table against the log: in every execution each bracket is what the log says happened to
 its try, and a scope that is suspended after its pivot passed still had something to confirm.
 */
module BracketSafety {
  import opened EventLog
  import opened LogPositions
  import opened LogReaders
  import opened RecoveryLadder
  import opened ScopePhases
  import opened PhaseMeaning
  import opened RunProtocol
  import opened RunInvariant
  import opened RunSafety
  import opened Coordinator
  import opened CoordinatorSafety

  function TriesOf(key: Id): Kind { (e: Event) => e.body.Try? && e.body.key == key }

  function ConfirmsOf(key: Id): Kind { (e: Event) => e.body.Confirm? && e.body.key == key }

  function Completions(s: Id): Kind { (e: Event) => e.body == Cancel(s, true) }

  /** The bracket of the try at `i`: confirmed if its key was since, else released if its scope was, else sealed. */
  ghost predicate IsBracket(log: Log, key: Id, i: int, b: Bracket) {
    && 0 <= i < |log| && log[i].body == Try(b.vertex, b.scope, key)
    && b.state == if !QuietSince(log, ConfirmsOf(key), i) then Confirmed
                  else if !QuietSince(log, Completions(b.scope), i) then Released else Sealed
  }

  /** One bracket for each key tried, by the only event that tried it. */
  ghost predicate BracketsTold(c: Db) {
    && (forall i, j, key ::
      0 <= i < |c.run.log| && 0 <= j < |c.run.log| && TriesOf(key)(c.run.log[i]) && TriesOf(key)(c.run.log[j]) ==>
        i == j)
    && (forall key :: key in c.brackets ==> exists i :: IsBracket(c.run.log, key, i, c.brackets[key]))
    && (forall i, key :: 0 <= i < |c.run.log| && TriesOf(key)(c.run.log[i]) ==> key in c.brackets)
  }

  /** Nothing tried, confirmed or completed. */
  predicate Quiet(b: Body) { !b.Try? && !b.Confirm? && !(b.Cancel? && b.completed) }

  ghost predicate Grown(log: Log, next: Log) { |log| <= |next| && next[..|log|] == log }

  /** What a move does to the brackets and the events about them. */
  ghost predicate LeavesBrackets(c: Db, d: Db) {
    && d.brackets == c.brackets && Grown(c.run.log, d.run.log)
    && forall k :: |c.run.log| <= k < |d.run.log| ==> Quiet(d.run.log[k].body)
  }

  lemma EngineLeaves(policy: Policy, price: Pricing, c: Db, step: Step, d: Db)
    requires Inv(c.run) && Acts(policy, price, c, Engine(step), d)
    ensures LeavesBrackets(c, d)
  {
    hide Inv, Outstanding, SelectBoundary, Numbered, CreatedOf, IsPlanner;
    if step.Recover? {
      var e := SelectBoundary(c.run.log, step.v, policy, price, Some(View(c.run.rows, step.tries)));
      assert forall k :: |c.run.log| <= k < |d.run.log| ==> d.run.log[k].body == Drafts(e)[k - |c.run.log|];
    }
  }

  lemma OtherLeaves(policy: Policy, price: Pricing, c: Db, move: Move, d: Db)
    requires Acts(policy, price, c, move, d)
    requires !move.Engine? && !move.SealCall? && !move.ConfirmOne? && !move.FinishCancel?
    ensures LeavesBrackets(c, d)
  {
    hide Outstanding, SelectBoundary, Numbered, CreatedOf, Takes, FenceOn, AllDone, NewMembers, ToConfirm;
    assert c.run.log[..|c.run.log|] == c.run.log;
  }

  lemma QuietGrows(log: Log, next: Log, of: Kind, i: int)
    requires Grown(log, next) && 0 <= i < |log|
    ensures QuietSince(next, of, i) <==> QuietSince(log, of, i) && forall k :: |log| <= k < |next| ==> !of(next[k])
  {
    assert forall k :: 0 <= k < |log| ==> next[k] == log[k];
  }

  /** One bracket after events that add these confirms and completions. */
  lemma BracketGrows(log: Log, next: Log, key: Id, i: int, b: Bracket)
    requires Grown(log, next) && IsBracket(log, key, i, b)
    ensures (forall k :: |log| <= k < |next| ==> !ConfirmsOf(key)(next[k]) && !Completions(b.scope)(next[k])) ==>
      IsBracket(next, key, i, b)
    ensures (exists k :: |log| <= k < |next| && ConfirmsOf(key)(next[k])) ==>
      IsBracket(next, key, i, b.(state := Confirmed))
    ensures (exists k :: |log| <= k < |next| && Completions(b.scope)(next[k])) ==>
      (forall k :: |log| <= k < |next| ==> !ConfirmsOf(key)(next[k])) ==>
        IsBracket(next, key, i, if b.state == Sealed then b.(state := Released) else b)
  {
    assert next[i] == log[i];
    QuietGrows(log, next, ConfirmsOf(key), i);
    QuietGrows(log, next, Completions(b.scope), i);
    hide QuietSince;
  }

  /** Nothing new is tried. */
  ghost predicate TriesNothing(c: Db, d: Db) {
    Grown(c.run.log, d.run.log) && forall k :: |c.run.log| <= k < |d.run.log| ==> !d.run.log[k].body.Try?
  }

  lemma ToldFrom(c: Db, d: Db)
    requires BracketsTold(c) && TriesNothing(c, d) && d.brackets.Keys == c.brackets.Keys
    requires forall key, i :: key in c.brackets && IsBracket(c.run.log, key, i, c.brackets[key]) ==>
      IsBracket(d.run.log, key, i, d.brackets[key])
    ensures BracketsTold(d)
  {
    hide IsBracket;
    var log, next := c.run.log, d.run.log;
    assert forall k :: 0 <= k < |log| ==> next[k] == log[k];
    forall key | key in d.brackets ensures exists i :: IsBracket(next, key, i, d.brackets[key]) {
      var i :| IsBracket(log, key, i, c.brackets[key]);
      assert IsBracket(next, key, i, d.brackets[key]);
    }
    forall i, key: Id | 0 <= i < |next| && TriesOf(key)(next[i]) ensures i < |log| && key in d.brackets {
      assert i < |log|;
      assert TriesOf(key)(log[i]);
    }
  }

  lemma LeavesKeep(c: Db, d: Db)
    requires BracketsTold(c) && LeavesBrackets(c, d)
    ensures BracketsTold(d)
  {
    hide BracketsTold, IsBracket;
    forall key: Id, i | key in c.brackets && IsBracket(c.run.log, key, i, c.brackets[key])
      ensures IsBracket(d.run.log, key, i, d.brackets[key])
    {
      BracketGrows(c.run.log, d.run.log, key, i, c.brackets[key]);
    }
    ToldFrom(c, d);
  }

  lemma ConfirmKeeps(c: Db, w: Worker, d: Db)
    requires BracketsTold(c) && ConfirmsOne(c, w, d)
    ensures BracketsTold(d)
  {
    hide BracketsTold, IsBracket, Numbered;
    var n, key := |c.run.log|, Stands(c, w).left[0];
    assert d.run.log[n].body == Confirm(c.brackets[key].vertex, Stands(c, w).s, key);
    forall other: Id, i | other in c.brackets && IsBracket(c.run.log, other, i, c.brackets[other])
      ensures IsBracket(d.run.log, other, i, d.brackets[other])
    {
      BracketGrows(c.run.log, d.run.log, other, i, c.brackets[other]);
      if other == key { assert ConfirmsOf(key)(d.run.log[n]); }
    }
    ToldFrom(c, d);
  }

  lemma FinishKeeps(c: Db, w: Worker, d: Db)
    requires BracketsTold(c) && FinishesCancel(c, w, d)
    ensures BracketsTold(d)
  {
    hide BracketsTold, IsBracket, Numbered, AllDone;
    var n, s := |c.run.log|, Stands(c, w).s;
    assert d.run.log[n].body == Cancel(s, true);
    forall key: Id, i | key in c.brackets && IsBracket(c.run.log, key, i, c.brackets[key])
      ensures IsBracket(d.run.log, key, i, d.brackets[key])
    {
      BracketGrows(c.run.log, d.run.log, key, i, c.brackets[key]);
      if c.brackets[key].scope == s { assert Completions(s)(d.run.log[n]); }
    }
    ToldFrom(c, d);
  }

  lemma SealKeeps(c: Db, w: Worker, d: Db)
    requires BracketsTold(c) && SealsCall(c, w, d)
    ensures BracketsTold(d)
  {
    hide Numbered, IsBracket, BracketsTold;
    var n, p := |c.run.log|, Stands(c, w);
    assert d.run.log[n].body == Try(p.v, p.s, p.key) && d.run.log[n + 1].body == Succeeded(p.v, Some(p.s));
    SealedNew(d.run.log, n, p.key, d.brackets[p.key]);
    SealedTold(c, d, p.key);
  }

  lemma SealedTold(c: Db, d: Db, key: Id)
    requires BracketsTold(c) && Grown(c.run.log, d.run.log) && |d.run.log| == |c.run.log| + 2 && key !in c.brackets
    requires TriesOf(key)(d.run.log[|c.run.log|]) && d.run.log[|c.run.log| + 1].body.Succeeded?
    requires d.brackets.Keys == c.brackets.Keys + {key} && IsBracket(d.run.log, key, |c.run.log|, d.brackets[key])
    requires forall other :: other in c.brackets ==> d.brackets[other] == c.brackets[other]
    ensures BracketsTold(d)
  {
    hide IsBracket;
    var log, next, n := c.run.log, d.run.log, |c.run.log|;
    assert forall k :: 0 <= k < n ==> next[k] == log[k];
    forall other | other in d.brackets ensures exists i :: IsBracket(next, other, i, d.brackets[other]) {
      if other == key {
        assert IsBracket(next, key, n, d.brackets[key]);
      } else {
        var i :| IsBracket(log, other, i, c.brackets[other]);
        BracketGrows(log, next, other, i, c.brackets[other]);
      }
    }
    forall i, other: Id | 0 <= i < |next| && TriesOf(other)(next[i])
      ensures other in d.brackets && (i == n <==> other == key) && (i < n ==> TriesOf(other)(log[i])) && i <= n
    {
      if i < n { assert TriesOf(other)(log[i]); }
    }
  }

  lemma SealedNew(log: Log, n: nat, key: Id, b: Bracket)
    requires n + 2 == |log| && log[n].body == Try(b.vertex, b.scope, key) && log[n + 1].body.Succeeded?
      && b.state == Sealed
    ensures IsBracket(log, key, n, b)
  {
  }

  lemma MoveTold(policy: Policy, price: Pricing, c: Db, move: Move, d: Db)
    requires Inv(c.run) && BracketsTold(c) && Acts(policy, price, c, move, d)
    ensures BracketsTold(d)
  {
    hide Inv, BracketsTold, LeavesBrackets, SealsCall, ConfirmsOne, FinishesCancel;
    if move.Engine? {
      EngineLeaves(policy, price, c, move.step, d);
      LeavesKeep(c, d);
    } else if move.SealCall? {
      SealKeeps(c, move.w, d);
    } else if move.ConfirmOne? {
      ConfirmKeeps(c, move.w, d);
    } else if move.FinishCancel? {
      FinishKeeps(c, move.w, d);
    } else {
      OtherLeaves(policy, price, c, move, d);
      LeavesKeep(c, d);
    }
  }

  /** In every execution the bracket table is what the log says. */
  lemma {:induction false} BracketsAlwaysTold(policy: Policy, price: Pricing, states: seq<Db>, moves: seq<Move>, k: nat)
    requires IsExecution(policy, price, states, moves) && k < |states|
    ensures BracketsTold(states[k])
  {
    hide Acts, Safe;
    if k > 0 {
      BracketsAlwaysTold(policy, price, states, moves, k - 1);
      ExecutionSafe(policy, price, states, moves, k - 1);
      SafeParts(states[k - 1]);
      MoveTold(policy, price, states[k - 1], moves[k - 1], states[k]);
    }
  }

  /* ---------------------------------------------------------------- what is left to confirm */

  /** These keys are still to be confirmed, each once. */
  ghost predicate StillToConfirm(c: Db, s: Id, left: seq<Id>) {
    && (forall i, j :: 0 <= i < j < |left| ==> left[i] != left[j])
    && forall i :: 0 <= i < |left| ==> ToConfirm(c.brackets, s, left[i])
  }

  /** What a confirming worker still has before it is still to be confirmed. */
  ghost predicate ConfirmersKnow(c: Db) {
    forall w :: w in c.at && c.at[w].Confirming? ==> StillToConfirm(c, c.at[w].s, c.at[w].left)
  }

  lemma BracketMoves(policy: Policy, price: Pricing, c: Db, move: Move, d: Db, s: Id, key: Id)
    requires Inv(c.run) && Acts(policy, price, c, move, d) && ToConfirm(c.brackets, s, key)
    requires move.ConfirmOne? ==>
      Stands(c, move.w).Confirming? && Stands(c, move.w).left != [] && Stands(c, move.w).left[0] != key
    requires move.FinishCancel? ==> !InState(c.run, s, RowCancelling)
    ensures ToConfirm(d.brackets, s, key)
  {
    hide Inv, Takes, Appended, Outstanding, SelectBoundary, CreatedOf, AllDone, LeavesBrackets;
    if move.Engine? { EngineLeaves(policy, price, c, move.step, d); }
  }

  lemma AtMoves(policy: Policy, price: Pricing, c: Db, move: Move, d: Db, x: Worker)
    requires Acts(policy, price, c, move, d) && x in d.at && d.at[x].Confirming?
    ensures
      || (x in c.at && c.at[x] == d.at[x] && (move.ConfirmOne? ==> move.w != x))
      || (move.ReadSealed? && move.w == x)
      || (move.ConfirmOne? && move.w == x && x in c.at && c.at[x].Confirming? && c.at[x].left != []
          && d.at[x].s == c.at[x].s && d.at[x].left == c.at[x].left[1..])
  {
    hide Takes, Appended, Outstanding, SelectBoundary, CreatedOf, AllDone, FenceOn, NewMembers;
  }

  lemma MoveConfirmers(policy: Policy, price: Pricing, c: Db, move: Move, d: Db)
    requires Safe(c) && ConfirmersKnow(c) && Acts(policy, price, c, move, d)
    ensures ConfirmersKnow(d)
  {
    hide Safe, Acts;
    SafeParts(c);
    forall x | x in d.at && d.at[x].Confirming? ensures StillToConfirm(d, d.at[x].s, d.at[x].left) {
      AtMoves(policy, price, c, move, d, x);
      if move.ReadSealed? && move.w == x {
        ReadKnows(policy, price, c, move, d);
      } else {
        SafeWorker(c, x);
        ConfirmsPassed(c, x);
        hide WorkerOk;
        ConfirmerKnows(policy, price, c, move, d, x);
      }
    }
  }

  lemma ReadKnows(policy: Policy, price: Pricing, c: Db, move: Move, d: Db)
    requires Acts(policy, price, c, move, d) && move.ReadSealed?
    ensures move.w in d.at && d.at[move.w].Confirming? && StillToConfirm(d, d.at[move.w].s, d.at[move.w].left)
  {
  }

  lemma ConfirmerKnows(policy: Policy, price: Pricing, c: Db, move: Move, d: Db, x: Worker)
    requires Inv(c.run) && OneCarrier(c) && Acts(policy, price, c, move, d)
    requires x in c.at && c.at[x].Confirming? && StillToConfirm(c, c.at[x].s, c.at[x].left)
    requires !InState(c.run, c.at[x].s, RowCancelling)
    requires x in d.at && d.at[x].Confirming? && d.at[x].s == c.at[x].s
    requires if move.ConfirmOne? && move.w == x then c.at[x].left != [] && d.at[x].left == c.at[x].left[1..]
      else d.at[x] == c.at[x]
    ensures StillToConfirm(d, d.at[x].s, d.at[x].left)
  {
    hide Acts, Inv, OneCarrier, InState;
    var s := c.at[x].s;
    if move.ConfirmOne? {
      ConfirmingMover(policy, price, c, move, d);
      if move.w != x { OtherScope(c, move.w, x); }
    }
    forall i | 0 <= i < |d.at[x].left| ensures ToConfirm(d.brackets, s, d.at[x].left[i]) {
      assert ToConfirm(c.brackets, s, d.at[x].left[i]);
      BracketMoves(policy, price, c, move, d, s, d.at[x].left[i]);
    }
  }

  lemma ConfirmsPassed(c: Db, x: Worker)
    requires x in c.at && c.at[x].Confirming? && WorkerOk(c, c.at[x])
    ensures !InState(c.run, c.at[x].s, RowCancelling)
  {
  }

  lemma ConfirmingMover(policy: Policy, price: Pricing, c: Db, move: Move, d: Db)
    requires Acts(policy, price, c, move, d) && move.ConfirmOne?
    ensures move.w in c.at && c.at[move.w].Confirming? && c.at[move.w].left != []
    ensures c.at[move.w].left[0] in c.brackets && c.brackets[c.at[move.w].left[0]].scope == c.at[move.w].s
  {
  }

  lemma OtherScope(c: Db, w: Worker, x: Worker)
    requires OneCarrier(c) && w in c.at && x in c.at && w != x && c.at[w].Confirming? && c.at[x].Confirming?
    ensures c.at[w].s != c.at[x].s
  {
    assert Carries(c.at[w]) == Some(c.at[w].s) && Carries(c.at[x]) == Some(c.at[x].s);
  }

  /* ---------------------------------------------------------------- suspended after the pivot */

  /** The scope is suspended at `k`, the first thing declared of it after its pivot passed at `j`. */
  ghost predicate SuspendedAfterPivot(log: Log, s: Id, j: int, k: int) {
    && 0 <= j < k < |log| && log[j].body.PivotPassed? && log[j].body.txn == s
    && log[k].body == ScopeState(s, DeclaredSuspended)
    && forall i :: j < i < k ==> !(log[i].body.ScopeState? && log[i].body.txn == s)
  }

  /** Some try of the scope had to be confirmed and was not by then. */
  ghost predicate LeftUnconfirmed(c: Db, s: Id, k: int) {
    exists key, i :: UnconfirmedTry(c, s, key, i, k)
  }

  ghost predicate UnconfirmedTry(c: Db, s: Id, key: Id, i: int, k: int) {
    && key in c.brackets && c.brackets[key].scope == s && c.brackets[key].confirmable
    && 0 <= i < k <= |c.run.log| && TriesOf(key)(c.run.log[i])
    && forall m :: i < m < k ==> !ConfirmsOf(key)(c.run.log[m])
  }

  ghost predicate SuspensionsFit(c: Db) {
    forall s, j, k :: SuspendedAfterPivot(c.run.log, s, j, k) ==> LeftUnconfirmed(c, s, k)
  }

  lemma PassedRow(c: Db, s: Id, j: nat)
    requires Safe(c) && j < |c.run.log| && c.run.log[j].body.PivotPassed? && c.run.log[j].body.txn == s
    requires forall i :: j < i < |c.run.log| ==> !(c.run.log[i].body.ScopeState? && c.run.log[i].body.txn == s)
    ensures InState(c.run, s, RowPassed)
  {
    hide Safe, PhaseOf, StoryOf, Inv;
    var log := c.run.log;
    SafeScope(c, s);
    SafeParts(c);
    ToldPassed(log, s);
    PhaseIs(log, s);
    assert Decisive(s)(log[j]);
    NotDeclared(log, s, j, PhaseOf(log, s));
    RowMatches(c.run, s);
  }

  lemma NotDeclared(log: Log, s: Id, j: nat, p: Phase)
    requires j < |log| && Decisive(s)(log[j]) && !log[j].body.ScopeState? && IsPhase(log, s, p)
    requires forall i :: j < i < |log| ==> !(log[i].body.ScopeState? && log[i].body.txn == s)
    ensures p != Suspended && p != Committed
  {
    hide SinceOpened;
    assert !Never(log, Decisive(s));
    var d :| Last(log, Decisive(s), d) && SettledAs(log, s, d, p);
    assert d >= j && !log[d].body.ScopeState?;
  }

  lemma RowMatches(a: Run, s: Id)
    requires Inv(a)
    ensures s in a.rows && a.rows[s].state == RowSuspended ==> PhaseOf(a.log, s) == Suspended
    ensures s in a.rows && a.rows[s].state == RowCommitted ==> PhaseOf(a.log, s) == Committed
  {
    hide Scope;
    assert AgreesAt(a, s);
  }

  ghost predicate SameKinds(c: Db, d: Db) {
    forall key :: key in c.brackets ==>
      && key in d.brackets && d.brackets[key].scope == c.brackets[key].scope
      && d.brackets[key].confirmable == c.brackets[key].confirmable
  }

  /** What a bracket is of never changes. */
  lemma KeepsKinds(policy: Policy, price: Pricing, c: Db, move: Move, d: Db)
    requires Inv(c.run) && Acts(policy, price, c, move, d)
    ensures Grown(c.run.log, d.run.log)
    ensures SameKinds(c, d)
  {
    hide Inv, Takes, Outstanding, SelectBoundary, CreatedOf, AllDone, FenceOn, NewMembers, Numbered;
    if move.Engine? {
      EngineLeaves(policy, price, c, move.step, d);
    } else {
      assert c.run.log[..|c.run.log|] == c.run.log;
    }
  }

  /** The only move that suspends a scope whose pivot has passed is a confirm that failed. */
  lemma WhoSuspends(policy: Policy, price: Pricing, c: Db, move: Move, d: Db, s: Id, k: nat)
    requires Safe(c) && Acts(policy, price, c, move, d) && InState(c.run, s, RowPassed)
    requires |c.run.log| <= k < |d.run.log| && d.run.log[k].body == ScopeState(s, DeclaredSuspended)
    ensures move.ConfirmFails? && move.w in c.at && c.at[move.w].Confirming? && c.at[move.w].s == s
      && c.at[move.w].left != [] && k == |c.run.log|
  {
    hide Safe, Acts, Inv;
    SafeParts(c);
    if move.Engine? {
      EngineDeclaresNothing(policy, price, c, move.step, d, k);
    } else {
      WhoDeclares(policy, price, c, move, d, s, k);
      if move.PivotUnknown? || move.InverseFails? { SafeWorker(c, move.w); }
    }
  }

  /** Only a move that finds a pivot unknown, an inverse or confirm failing or too much to undo suspends a scope. */
  lemma WhoDeclares(policy: Policy, price: Pricing, c: Db, move: Move, d: Db, s: Id, k: nat)
    requires Acts(policy, price, c, move, d) && !move.Engine? && InState(c.run, s, RowPassed)
    requires |c.run.log| <= k < |d.run.log| && d.run.log[k].body == ScopeState(s, DeclaredSuspended)
    ensures move.w in c.at
    ensures
      || (move.ConfirmFails? && c.at[move.w].Confirming? && c.at[move.w].s == s && c.at[move.w].left != []
        && k == |c.run.log|)
      || (move.PivotUnknown? && c.at[move.w].PivotOut? && c.at[move.w].s == s)
      || (move.InverseFails? && c.at[move.w].Inverting? && c.at[move.w].s == s)
  {
    hide Outstanding, SelectBoundary, CreatedOf, AllDone, FenceOn, NewMembers, Numbered, Takes, StoryOf;
  }

  lemma EngineDeclaresNothing(policy: Policy, price: Pricing, c: Db, step: Step, d: Db, k: nat)
    requires Inv(c.run) && Acts(policy, price, c, Engine(step), d) && |c.run.log| <= k < |d.run.log|
    ensures !d.run.log[k].body.ScopeState?
  {
    hide Inv, Outstanding, SelectBoundary, Numbered, CreatedOf, IsPlanner;
    if step.Recover? {
      var e := SelectBoundary(c.run.log, step.v, policy, price, Some(View(c.run.rows, step.tries)));
      assert d.run.log[k].body == Drafts(e)[k - |c.run.log|];
    }
  }

  lemma OldSuspension(c: Db, d: Db, s: Id, j: int, k: int)
    requires SuspensionsFit(c) && Grown(c.run.log, d.run.log) && SuspendedAfterPivot(d.run.log, s, j, k)
      && k < |c.run.log|
    requires SameKinds(c, d)
    ensures LeftUnconfirmed(d, s, k)
  {
    assert forall i :: 0 <= i < |c.run.log| ==> d.run.log[i] == c.run.log[i];
    assert SuspendedAfterPivot(c.run.log, s, j, k);
    var key, i :| UnconfirmedTry(c, s, key, i, k);
    assert UnconfirmedTry(d, s, key, i, k);
  }

  lemma NewSuspension(policy: Policy, price: Pricing, c: Db, move: Move, d: Db, s: Id, j: int, k: int)
    requires Safe(c) && BracketsTold(c) && ConfirmersKnow(c) && Acts(policy, price, c, move, d)
    requires Grown(c.run.log, d.run.log) && SuspendedAfterPivot(d.run.log, s, j, k) && |c.run.log| <= k
    requires SameKinds(c, d)
    ensures LeftUnconfirmed(d, s, k)
  {
    hide Safe, Acts, IsBracket;
    var log := c.run.log;
    assert forall i :: 0 <= i < |log| ==> d.run.log[i] == log[i];
    PivotOld(policy, price, c, move, d, s, j, k);
    PassedRow(c, s, j);
    WhoSuspends(policy, price, c, move, d, s, k);
    var key := c.at[move.w].left[0];
    assert ToConfirm(c.brackets, s, key);
    var i :| IsBracket(log, key, i, c.brackets[key]);
    SealedIsUnconfirmed(log, key, i, c.brackets[key]);
    assert UnconfirmedTry(d, s, key, i, k);
  }

  lemma SealedIsUnconfirmed(log: Log, key: Id, i: int, b: Bracket)
    requires IsBracket(log, key, i, b) && b.state == Sealed
    ensures 0 <= i < |log| && TriesOf(key)(log[i]) && forall m :: i < m < |log| ==> !ConfirmsOf(key)(log[m])
  {
  }

  /** A move that suspends a scope does not pass its pivot too. */
  lemma PivotOld(policy: Policy, price: Pricing, c: Db, move: Move, d: Db, s: Id, j: int, k: int)
    requires Safe(c) && Acts(policy, price, c, move, d)
    requires SuspendedAfterPivot(d.run.log, s, j, k) && |c.run.log| <= k
    ensures j < |c.run.log|
  {
    hide Safe, Outstanding, SelectBoundary, CreatedOf, AllDone, FenceOn, NewMembers, Numbered, Takes, Inv;
    SafeParts(c);
    if move.Engine? { EngineDeclaresNothing(policy, price, c, move.step, d, k); }
  }

  lemma MoveSuspensions(policy: Policy, price: Pricing, c: Db, move: Move, d: Db)
    requires Safe(c) && BracketsTold(c) && ConfirmersKnow(c) && SuspensionsFit(c) && Acts(policy, price, c, move, d)
    ensures SuspensionsFit(d)
  {
    hide Safe, Acts, BracketsTold, ConfirmersKnow, SuspensionsFit, SuspendedAfterPivot, LeftUnconfirmed;
    SafeParts(c);
    KeepsKinds(policy, price, c, move, d);
    forall s: Id, j, k | SuspendedAfterPivot(d.run.log, s, j, k) ensures LeftUnconfirmed(d, s, k) {
      if k < |c.run.log| {
        OldSuspension(c, d, s, j, k);
      } else {
        NewSuspension(policy, price, c, move, d, s, j, k);
      }
    }
    FitFrom(d);
  }

  lemma FitFrom(c: Db)
    requires forall s: Id, j, k :: SuspendedAfterPivot(c.run.log, s, j, k) ==> LeftUnconfirmed(c, s, k)
    ensures SuspensionsFit(c)
  {
  }

  /** In every execution a scope suspended after its pivot passed still had something to confirm. */
  lemma {:induction false} SuspensionsAlwaysFit(policy: Policy, price: Pricing, states: seq<Db>, moves: seq<Move>,
      k: nat)
    requires IsExecution(policy, price, states, moves) && k < |states|
    ensures ConfirmersKnow(states[k]) && SuspensionsFit(states[k])
  {
    hide Acts, Safe, BracketsTold;
    if k > 0 {
      hide ConfirmersKnow, SuspensionsFit;
      SuspensionsAlwaysFit(policy, price, states, moves, k - 1);
      ExecutionSafe(policy, price, states, moves, k - 1);
      BracketsAlwaysTold(policy, price, states, moves, k - 1);
      MoveConfirmers(policy, price, states[k - 1], moves[k - 1], states[k]);
      MoveSuspensions(policy, price, states[k - 1], moves[k - 1], states[k]);
    }
  }

  /* ---------------------------------------------------------------- why a cancellation begins */

  /** Somebody had asked for the scope, or a try of it stood neither confirmed nor released. */
  ghost predicate HasCause(log: Log, s: Id, k: int)
    requires 0 <= k <= |log|
  {
    || (exists r :: 0 <= r < k && Requests(s)(log[r]))
    || exists i ::
      && 0 <= i < k && log[i].body.Try? && log[i].body.txn == s
      && forall m :: i < m < k ==> !ConfirmsOf(log[i].body.key)(log[m]) && !Completions(s)(log[m])
  }

  ghost predicate CausesKnown(log: Log) {
    forall k, s :: 0 <= k < |log| && log[k].body == Cancel(s, false) ==> HasCause(log, s, k)
  }

  lemma CauseGrows(log: Log, next: Log, s: Id, k: nat)
    requires Grown(log, next) && k <= |log| && HasCause(log, s, k)
    ensures HasCause(next, s, k)
  {
    assert forall i :: 0 <= i < |log| ==> next[i] == log[i];
  }

  lemma BeginsWithCause(c: Db, w: Worker, s: Id, d: Db)
    requires Inv(c.run) && BracketsTold(c) && BeginsCancel(c, w, s, d)
    ensures HasCause(c.run.log, s, |c.run.log|)
  {
    hide NewMembers, Appended, IsBracket, Inv;
    if c.run.rows[s].requested {
      RequestedIsAsked(c.run, s);
    } else {
      var key :| key in c.brackets && c.brackets[key].scope == s && c.brackets[key].state == Sealed;
      var i :| IsBracket(c.run.log, key, i, c.brackets[key]);
      SealedStands(c.run.log, key, i, c.brackets[key]);
    }
  }

  lemma SealedStands(log: Log, key: Id, i: int, b: Bracket)
    requires IsBracket(log, key, i, b) && b.state == Sealed
    ensures HasCause(log, b.scope, |log|)
  {
  }

  lemma RequestedIsAsked(a: Run, s: Id)
    requires Inv(a) && s in a.rows && a.rows[s].requested
    ensures exists r :: 0 <= r < |a.log| && Requests(s)(a.log[r])
  {
    hide Scope;
    assert AgreesAt(a, s);
    RequestedForIs(a.log, s);
  }

  lemma MoveCauses(policy: Policy, price: Pricing, c: Db, move: Move, d: Db)
    requires Inv(c.run) && BracketsTold(c) && CausesKnown(c.run.log) && Acts(policy, price, c, move, d)
    ensures CausesKnown(d.run.log)
  {
    KeepsKinds(policy, price, c, move, d);
    hide Inv, Acts, BracketsTold, HasCause;
    var log, next := c.run.log, d.run.log;
    assert forall i :: 0 <= i < |log| ==> next[i] == log[i];
    forall k, s: Id | 0 <= k < |next| && next[k].body == Cancel(s, false) ensures HasCause(next, s, k) {
      if k < |log| {
        CauseGrows(log, next, s, k);
      } else {
        OnlyBegins(policy, price, c, move, d, s, k);
        BeginsWithCause(c, move.w, s, d);
        CauseGrows(log, next, s, k);
      }
    }
  }

  lemma OnlyBegins(policy: Policy, price: Pricing, c: Db, move: Move, d: Db, s: Id, k: nat)
    requires Inv(c.run) && Acts(policy, price, c, move, d) && |c.run.log| <= k < |d.run.log|
    requires d.run.log[k].body == Cancel(s, false)
    ensures move.BeginCancel? && move.s == s && k == |c.run.log| && BeginsCancel(c, move.w, s, d)
  {
    hide Inv, Takes, Outstanding, SelectBoundary, CreatedOf, AllDone, FenceOn, NewMembers, Numbered;
    if move.Engine? { EngineCancelsNothing(policy, price, c, move.step, d, k); }
  }

  lemma EngineCancelsNothing(policy: Policy, price: Pricing, c: Db, step: Step, d: Db, k: nat)
    requires Inv(c.run) && Acts(policy, price, c, Engine(step), d) && |c.run.log| <= k < |d.run.log|
    ensures !d.run.log[k].body.Cancel?
  {
    hide Inv, Outstanding, SelectBoundary, Numbered, CreatedOf, IsPlanner;
    if step.Recover? {
      var e := SelectBoundary(c.run.log, step.v, policy, price, Some(View(c.run.rows, step.tries)));
      assert d.run.log[k].body == Drafts(e)[k - |c.run.log|];
    }
  }

  /** In every execution a cancellation begins only for a scope somebody asked for or whose tries stand. */
  lemma {:induction false} CancelsWithCause(policy: Policy, price: Pricing, states: seq<Db>, moves: seq<Move>, k: nat)
    requires IsExecution(policy, price, states, moves) && k < |states|
    ensures CausesKnown(states[k].run.log)
  {
    hide Acts, Safe, BracketsTold;
    if k > 0 {
      hide CausesKnown;
      CancelsWithCause(policy, price, states, moves, k - 1);
      ExecutionSafe(policy, price, states, moves, k - 1);
      SafeParts(states[k - 1]);
      BracketsAlwaysTold(policy, price, states, moves, k - 1);
      MoveCauses(policy, price, states[k - 1], moves[k - 1], states[k]);
    }
  }
}
