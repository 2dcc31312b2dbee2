/**
 The console's scope records: what each event does to them, and that writing them down in order
 between two batches, ties included, changes nothing a later event does.
 */
module ConsoleScopes {
  import opened EventLog
  import Sorting

  datatype Shown = ShownOpen | ShownCommitted | ShownCancelling | ShownCancelled | ShownSuspended

  datatype ScopeCard = ScopeCard(id: Id, shown: Shown, members: seq<Id>, passedAt: Option<nat>, openedAt: nat,
      closedAt: Option<nat>)

  /** The records in the order they were first heard of. */
  type ScopeCards = seq<ScopeCard>

  predicate HasScope(cards: ScopeCards, s: Id) { exists i :: 0 <= i < |cards| && cards[i].id == s }

  predicate InScope(cards: ScopeCards, s: Id, v: Id) {
    exists i :: 0 <= i < |cards| && cards[i].id == s && v in cards[i].members
  }

  /** The record of a scope, opened on its first mention. */
  function Ensured(cards: ScopeCards, s: Id, at: nat): (r: ScopeCards) {
    if HasScope(cards, s) then cards else cards + [ScopeCard(s, ShownOpen, [], None, at, None)]
  }

  function EnsuredAll(cards: ScopeCards, ids: seq<Id>, at: nat): (r: ScopeCards) {
    if ids == [] then cards else Ensured(EnsuredAll(cards, ids[..|ids| - 1], at), ids[|ids| - 1], at)
  }

  datatype Edit = Joins(v: Id) | Shows(shown: Shown, at: nat) | Passes(at: nat)

  /** One record edited; which scope it is of, and when that opened, never change. */
  function Edited(c: ScopeCard, edit: Edit): (r: ScopeCard)
    ensures r.id == c.id && r.openedAt == c.openedAt
  {
    match edit
    case Joins(v) => if v in c.members then c else c.(members := c.members + [v])
    case Shows(shown, at) =>
      if shown == ShownCommitted || shown == ShownCancelled then c.(shown := shown, closedAt := Some(at))
        else c.(shown := shown)
    case Passes(at) => c.(passedAt := Some(at))
  }

  function EditOne(c: ScopeCard, s: Id, edit: Edit): (r: ScopeCard) { if c.id == s then Edited(c, edit) else c }

  function EditAt(cards: ScopeCards, s: Id, edit: Edit): (r: ScopeCards)
    ensures |r| == |cards| && forall i :: 0 <= i < |r| ==> r[i] == EditOne(cards[i], s, edit)
  {
    if cards == [] then [] else [EditOne(cards[0], s, edit)] + EditAt(cards[1..], s, edit)
  }

  function ShownFor(d: Declared): (s: Shown) {
    match d
    case DeclaredOpen => ShownOpen
    case DeclaredSuspended => ShownSuspended
    case DeclaredCommitted => ShownCommitted
    case DeclaredCancelled => ShownCancelled
  }

  /** The edit an event makes, and to which scope. */
  function EditOf(e: Event): (r: Option<(Id, Edit)>) {
    match e.body
    case Created(v, _, Some(s), _) => Some((s, Joins(v)))
    case ScopeState(s, d) => Some((s, Shows(ShownFor(d), e.runSeq)))
    case Cancel(s, completed) => Some((s, Shows(if completed then ShownCancelled else ShownCancelling, e.runSeq)))
    case PivotPassed(_, s) => Some((s, Passes(e.runSeq)))
    case _ => None
  }

  function ScopesAfter(cards: ScopeCards, e: Event): (r: ScopeCards) {
    if e.body.Frozen? then EnsuredAll(cards, e.body.scopes, e.runSeq)
    else match EditOf(e)
      case Some((s, edit)) => EditAt(Ensured(cards, s, e.runSeq), s, edit)
      case None => cards
  }

  /* ---------------------------------------------------------------- in the order they opened */

  predicate OpenedBefore(a: ScopeCard, b: ScopeCard) { a.openedAt < b.openedAt }

  function Listed(cards: ScopeCards): (r: ScopeCards) { Sorting.Sort(cards, OpenedBefore) }

  lemma OpeningIsOrder()
    ensures Sorting.IsOrder(OpenedBefore)
  {
  }

  lemma ListedTwice(cards: ScopeCards)
    ensures Listed(Listed(cards)) == Listed(cards)
  {
    hide Sorting.Sort;
    OpeningIsOrder();
    Sorting.SortInOrder(cards, OpenedBefore);
    Sorting.SortFixes(Listed(cards), OpenedBefore);
  }

  lemma ListedHas(cards: ScopeCards, s: Id, v: Id)
    ensures HasScope(Listed(cards), s) <==> HasScope(cards, s)
    ensures InScope(Listed(cards), s, v) <==> InScope(cards, s, v)
  {
    hide Sorting.Sort;
    Sorting.SortMembers(cards, OpenedBefore);
    SameHas(cards, Listed(cards), s, v);
  }

  lemma SameHas(a: ScopeCards, b: ScopeCards, s: Id, v: Id)
    requires forall c :: c in a <==> c in b
    ensures HasScope(a, s) <==> HasScope(b, s)
    ensures InScope(a, s, v) <==> InScope(b, s, v)
  {
    forall c ensures (c in a ==> exists j :: 0 <= j < |b| && b[j] == c)
      && (c in b ==> exists j :: 0 <= j < |a| && a[j] == c) {}
    if i :| 0 <= i < |a| && a[i].id == s { assert a[i] in a; }
    if i :| 0 <= i < |b| && b[i].id == s { assert b[i] in b; }
    if i :| 0 <= i < |a| && a[i].id == s && v in a[i].members { assert a[i] in a; }
    if i :| 0 <= i < |b| && b[i].id == s && v in b[i].members { assert b[i] in b; }
  }

  lemma {:induction false} InsertEdits(c: ScopeCard, cards: ScopeCards, s: Id, edit: Edit)
    ensures EditAt(Sorting.Insert(c, cards, OpenedBefore), s, edit)
      == Sorting.Insert(EditOne(c, s, edit), EditAt(cards, s, edit), OpenedBefore)
  {
    hide Edited;
    if cards != [] && OpenedBefore(cards[0], c) {
      InsertEdits(c, cards[1..], s, edit);
      assert EditAt(cards, s, edit)[1..] == EditAt(cards[1..], s, edit);
    }
  }

  /** Editing a record does not move it. */
  lemma {:induction false} ListedEdits(cards: ScopeCards, s: Id, edit: Edit)
    ensures Listed(EditAt(cards, s, edit)) == EditAt(Listed(cards), s, edit)
  {
    hide EditOne, Sorting.Insert;
    if cards != [] {
      ListedEdits(cards[1..], s, edit);
      assert EditAt(cards, s, edit)[1..] == EditAt(cards[1..], s, edit);
      InsertEdits(cards[0], Listed(cards[1..]), s, edit);
    }
  }

  /** Two lists of records that will be written down alike. */
  ghost predicate Alike(a: ScopeCards, b: ScopeCards) { Listed(a) == Listed(b) }

  lemma AlikeHas(a: ScopeCards, b: ScopeCards, s: Id, v: Id)
    requires Alike(a, b)
    ensures (HasScope(a, s) <==> HasScope(b, s)) && (InScope(a, s, v) <==> InScope(b, s, v))
  {
    hide Listed, HasScope, InScope;
    ListedHas(a, s, v);
    ListedHas(b, s, v);
  }

  lemma EnsuredAlike(a: ScopeCards, b: ScopeCards, s: Id, at: nat)
    requires Alike(a, b)
    ensures Alike(Ensured(a, s, at), Ensured(b, s, at))
  {
    hide Sorting.Sort, HasScope, Sorting.InsertAfter;
    AlikeHas(a, b, s, 0);
    OpeningIsOrder();
    var c := ScopeCard(s, ShownOpen, [], None, at, None);
    Sorting.SortAppend(a, c, OpenedBefore);
    Sorting.SortAppend(b, c, OpenedBefore);
  }

  lemma {:induction false} AllEnsuredAlike(a: ScopeCards, b: ScopeCards, ids: seq<Id>, at: nat)
    requires Alike(a, b)
    ensures Alike(EnsuredAll(a, ids, at), EnsuredAll(b, ids, at))
  {
    hide Ensured, Alike;
    if ids != [] {
      AllEnsuredAlike(a, b, ids[..|ids| - 1], at);
      EnsuredAlike(EnsuredAll(a, ids[..|ids| - 1], at), EnsuredAll(b, ids[..|ids| - 1], at), ids[|ids| - 1], at);
    }
  }

  /** Lists that would be written down alike still would after any event. */
  lemma AfterAlike(a: ScopeCards, b: ScopeCards, e: Event)
    requires Alike(a, b)
    ensures Alike(ScopesAfter(a, e), ScopesAfter(b, e))
  {
    hide Listed, Ensured, EnsuredAll, EditAt;
    if e.body.Frozen? {
      AllEnsuredAlike(a, b, e.body.scopes, e.runSeq);
    } else if EditOf(e).Some? {
      var (s, edit) := EditOf(e).value;
      EnsuredAlike(a, b, s, e.runSeq);
      ListedEdits(Ensured(a, s, e.runSeq), s, edit);
      ListedEdits(Ensured(b, s, e.runSeq), s, edit);
    }
  }
}
