/**
 The console's projection: the same log the planner's surface reads, folded batch by batch into
 a model that keeps discarded vertices and shows them as discarded.
 */
module ConsoleFold {
  import opened EventLog
  import opened ConsoleScopes
  import ForkSlice
  import Sorting

  /** What the console keeps of a vertex; unlike the surface it never forgets one. */
  datatype Card = Card(createdSeq: nat, parents: seq<Id>, role: Role, status: ForkSlice.Status, shadowedAt: Option<nat>,
      depth: nat, frozenBy: Option<nat>, decidedBy: Source, inPrompt: bool, bracket: ShownBracket, pivotPassed: bool)

  /** What the console shows of a vertex's try. */
  datatype ShownBracket = NoBracket | ShownSealed | ShownConfirmed | ShownReleased

  type Cards = map<Id, Card>

  datatype Placed = Placed(id: Id, card: Card)

  /** A proposal, and whether a freeze has answered it. */
  datatype Proposal = Proposal(at: nat, source: Source, frozen: bool)

  /** A replan: where it was first heard of, the boundary it resumes at, and what it discarded. */
  datatype Replan = Replan(at: nat, resumes: Option<nat>, discarded: set<Id>)

  /** What a batch works on: everything carried from one batch to the next. */
  datatype Board = Board(cards: Cards, announced: map<Id, nat>, proposals: seq<Proposal>, replans: seq<Replan>,
      scopes: ScopeCards)

  /**
   A model between batches: its watermark, its vertices in creation order, then by identifier, its scopes in the order
   they opened, and what else is carried.
   */
  datatype Model = Model(at: nat, vertices: seq<Placed>, announced: map<Id, nat>, proposals: seq<Proposal>,
      replans: seq<Replan>, scopes: ScopeCards)

  const EmptyModel := Model(0, [], map[], [], [], [])

  /* ---------------------------------------------------------------- one event */

  function Depth(cards: Cards, parents: seq<Id>): (d: nat) {
    if parents == [] then 0
    else
      var rest := Depth(cards, parents[..|parents| - 1]);
      var p := parents[|parents| - 1];
      if p in cards && cards[p].depth + 1 > rest then cards[p].depth + 1 else rest
  }

  function Shade(c: Card, at: nat): (r: Card) { if c.shadowedAt.None? then c.(shadowedAt := Some(at)) else c }

  /** Whether a planner's prompt shows a vertex: a router only by the condition it matched. */
  predicate Renders(role: Role, matched: Option<nat>) { role != Router || matched.Some? }

  predicate IsTerminal(b: Body) { b.Succeeded? || b.Failed? }

  /** A router's outcome is taken afresh from every success or failure it reports. */
  function Executed(c: Card, b: Body): (r: Card) {
    var now := c.(status := ForkSlice.StatusOf(b));
    if c.role == Router && IsTerminal(b) then now.(inPrompt := Renders(Router, ForkSlice.MatchAfter(None, b))) else now
  }

  /** The first proposal recorded at this position, or the last one when there is none. */
  function Answered(proposals: seq<Proposal>, proposedSeq: nat, n: nat): (i: nat)
    requires n <= |proposals|
    ensures proposals != [] ==> i < |proposals|
    decreases |proposals| - n
  {
    if n < |proposals| then (if proposals[n].at == proposedSeq then n else Answered(proposals, proposedSeq, n + 1))
    else if n > 0 then n - 1 else 0
  }

  function Closed(proposals: seq<Proposal>, proposedSeq: nat): (r: seq<Proposal>) {
    if proposals == [] then []
    else var i := Answered(proposals, proposedSeq, 0); proposals[i := proposals[i].(frozen := true)]
  }

  function Announced(announced: map<Id, nat>, ids: seq<Id>, at: nat): (r: map<Id, nat>) {
    if ids == [] then announced else Announced(announced, ids[..|ids| - 1], at)[ids[|ids| - 1] := at]
  }

  /** Whether a rule or a planner decided that work created now exists: read off the last proposal. */
  function DecidedBy(proposals: seq<Proposal>): (s: Source) {
    if proposals != [] && proposals[|proposals| - 1].source == ByRouter && proposals[|proposals| - 1].frozen
      then ByRouter else Submitted
  }

  /** Where the record of this boundary is, or one past the end when it has none yet. */
  function ReplanAt(replans: seq<Replan>, resumes: Option<nat>, n: nat): (i: nat)
    requires n <= |replans|
    ensures i <= |replans|
    decreases |replans| - n
  {
    if n == |replans| || (resumes.Some? && replans[n].resumes == resumes) then n else ReplanAt(replans, resumes, n + 1)
  }

  /** A boundary and its discard share one record, whichever comes first. */
  function Replanned(replans: seq<Replan>, at: nat, resumes: Option<nat>, hidden: set<Id>): (r: seq<Replan>) {
    var i := ReplanAt(replans, resumes, 0);
    if i == |replans| then replans + [Replan(at, resumes, hidden)]
      else replans[i := replans[i].(discarded := replans[i].discarded + hidden)]
  }

  function NewCard(b: Board, e: Event): (c: Card)
    requires e.body.Created?
  {
    var frozenBy := if e.body.vertex in b.announced then Some(b.announced[e.body.vertex]) else None;
    Card(e.runSeq, e.body.parents, e.body.role, ForkSlice.NotRun, None, Depth(b.cards, e.body.parents), frozenBy,
      DecidedBy(b.proposals), Renders(e.body.role, None), NoBracket, false)
  }

  function Shaded(cards: Cards, hidden: set<Id>, at: nat): (r: Cards) {
    map v | v in cards :: if v in hidden then Shade(cards[v], at) else cards[v]
  }

  /** What a `txn` event does to one vertex: its try is sealed or confirmed, or released with its scope. */
  function BracketAfter(c: Card, v: Id, scopes: ScopeCards, b: Body): (r: Card) {
    match b
    case Try(u, _, _) => if u == v then c.(bracket := ShownSealed) else c
    case Confirm(u, _, _) => if u == v && c.bracket != NoBracket then c.(bracket := ShownConfirmed) else c
    case PivotPassed(u, _) => if u == v then c.(pivotPassed := true) else c
    case Cancel(s, completed) =>
      if completed && c.bracket == ShownSealed && InScope(scopes, s, v) then c.(bracket := ShownReleased) else c
    case _ => c
  }

  function Bracketed(cards: Cards, scopes: ScopeCards, b: Body): (r: Cards) {
    map v | v in cards :: BracketAfter(cards[v], v, scopes, b)
  }

  predicate IsBracketEvent(b: Body) { b.Try? || b.Confirm? || b.PivotPassed? || b.Cancel? }

  /** Everything an event changes but the scopes. */
  function AppliedTo(b: Board, e: Event): (r: Board) {
    match e.body
    case Proposed(source) => b.(proposals := b.proposals + [Proposal(e.runSeq, source, false)])
    case Frozen(proposedSeq, ids, _) =>
      b.(proposals := Closed(b.proposals, proposedSeq), announced := Announced(b.announced, ids, e.runSeq))
    case Created(v, _, _, _) => b.(cards := b.cards[v := NewCard(b, e)], announced := b.announced - {v})
    case Shadowed(hidden, resumes) =>
      b.(cards := Shaded(b.cards, hidden, e.runSeq), replans := Replanned(b.replans, e.runSeq, resumes, hidden))
    case Boundary(_, _, _, resumes) => b.(replans := Replanned(b.replans, e.runSeq, resumes, {}))
    case _ =>
      if IsBracketEvent(e.body) then b.(cards := Bracketed(b.cards, b.scopes, e.body))
      else if ForkSlice.IsExecution(e.body) && e.body.vertex in b.cards
      then b.(cards := b.cards[e.body.vertex := Executed(b.cards[e.body.vertex], e.body)]) else b
  }

  function Applied(b: Board, e: Event): (r: Board) { AppliedTo(b, e).(scopes := ScopesAfter(b.scopes, e)) }

  function Folded(b: Board, batch: Log): (r: Board) {
    if batch == [] then b else Applied(Folded(b, batch[..|batch| - 1]), batch[|batch| - 1])
  }

  function LastSeq(batch: Log): (n: nat) {
    if batch == [] then 0
    else
      var rest := LastSeq(batch[..|batch| - 1]);
      if batch[|batch| - 1].runSeq > rest then batch[|batch| - 1].runSeq else rest
  }

  /* ---------------------------------------------------------------- loading and listing */

  function Load(vertices: seq<Placed>): (cards: Cards) {
    if vertices == [] then map[]
      else Load(vertices[..|vertices| - 1])[vertices[|vertices| - 1].id := vertices[|vertices| - 1].card]
  }

  predicate Earlier(a: Placed, b: Placed) {
    a.card.createdSeq < b.card.createdSeq || (a.card.createdSeq == b.card.createdSeq && a.id < b.id)
  }

  lemma EarlierIsOrder()
    ensures Sorting.IsOrder(Earlier)
  {
  }

  ghost predicate InOrder(s: seq<Placed>) { Sorting.Ascending(s, Earlier) }

  /** Exactly these vertices, in the console's one order. */
  ghost predicate IsListing(cards: Cards, s: seq<Placed>) {
    InOrder(s) && forall p :: p in s <==> p.id in cards && cards[p.id] == p.card
  }

  lemma ListingUnique(cards: Cards, a: seq<Placed>, b: seq<Placed>)
    requires IsListing(cards, a) && IsListing(cards, b)
    ensures a == b
  {
    EarlierIsOrder();
    hide Earlier;
    Sorting.AscendingUnique(a, b, Earlier);
  }

  lemma {:induction false} LoadHas(s: seq<Placed>, cards: Cards)
    requires forall i :: 0 <= i < |s| ==> s[i].id in cards && cards[s[i].id] == s[i].card
    ensures forall v :: v in Load(s) ==> v in cards && cards[v] == Load(s)[v]
    ensures forall i :: 0 <= i < |s| ==> s[i].id in Load(s)
  {
    if s != [] {
      var n := |s| - 1;
      LoadHas(s[..n], cards);
      forall i | 0 <= i < |s| ensures s[i].id in Load(s) {
        if i < n { assert s[..n][i] == s[i]; }
      }
    }
  }

  /** Nothing is lost between batches: loading a listing gives back what was listed. */
  lemma {:induction false} LoadListing(cards: Cards, s: seq<Placed>)
    requires IsListing(cards, s)
    ensures Load(s) == cards
  {
    forall i | 0 <= i < |s| ensures s[i].id in cards && cards[s[i].id] == s[i].card { assert s[i] in s; }
    LoadHas(s, cards);
    forall v | v in cards ensures v in Load(s) {
      assert Placed(v, cards[v]) in s;
    }
  }

  /** The board a model stands for. */
  function Restored(m: Model): (b: Board) { Board(Load(m.vertices), m.announced, m.proposals, m.replans, m.scopes) }

  /* ---------------------------------------------------------------- the working set */

  /** A completed cancellation releases what its members still held. */
  method ReleaseMembers(cards: Cards, scopes: ScopeCards, b: Body) returns (r: Cards)
    requires b.Cancel?
    ensures r == Bracketed(cards, scopes, b)
  {
    hide InScope;
    r := cards;
    var left := cards.Keys;
    while left != {}
      invariant left <= cards.Keys && r.Keys == cards.Keys
      invariant forall v :: v in r && v in left ==> r[v] == cards[v]
      invariant forall v :: v in r && v !in left ==> r[v] == BracketAfter(cards[v], v, scopes, b)
      decreases left
    {
      var v :| v in left;
      left := left - {v};
      if b.completed && InScope(scopes, b.txn, v) && r[v].bracket == ShownSealed {
        r := r[v := r[v].(bracket := ShownReleased)];
      }
    }
  }

  class FoldState {
    var vertices: Cards
    var announced: map<Id, nat>
    var proposals: seq<Proposal>
    var replans: seq<Replan>
    var scopes: ScopeCards
    var at: nat
    var lastSeq: nat

    function Holds(): (b: Board)
      reads this
    {
      Board(vertices, announced, proposals, replans, scopes)
    }

    constructor (previous: Model)
      ensures Holds() == Restored(previous) && at == previous.at && lastSeq == 0
    {
      vertices, announced, proposals, replans := Load(previous.vertices), previous.announced, previous.proposals,
        previous.replans;
      scopes := previous.scopes;
      at, lastSeq := previous.at, 0;
    }

    /** Each event edits the records it concerns, in place. */
    method Apply(e: Event)
      modifies this
      ensures Holds() == Applied(old(Holds()), e) && at == old(at)
      ensures lastSeq == if e.runSeq > old(lastSeq) then e.runSeq else old(lastSeq)
    {
      if e.runSeq > lastSeq { lastSeq := e.runSeq; }
      EditVertices(e);
      EditScopes(e);
    }

    method EditVertices(e: Event)
      modifies this`vertices, this`announced, this`proposals, this`replans
      ensures Holds() == AppliedTo(old(Holds()), e)
    {
      if e.body.Proposed? {
        proposals := proposals + [Proposal(e.runSeq, e.body.source, false)];
      } else if e.body.Frozen? {
        Freeze(e);
      } else if e.body.Created? {
        var card := NewCard(Holds(), e);
        vertices := vertices[e.body.vertex := card];
        announced := announced - {e.body.vertex};
      } else if e.body.Shadowed? {
        Shadow(e);
        replans := Replanned(replans, e.runSeq, e.body.resumes, e.body.hidden);
      } else if e.body.Boundary? {
        replans := Replanned(replans, e.runSeq, e.body.resumes, {});
      } else if IsBracketEvent(e.body) {
        EditBrackets(e.body);
      } else if ForkSlice.IsExecution(e.body) {
        var v := e.body.vertex;
        if v in vertices { vertices := vertices[v := Executed(vertices[v], e.body)]; }
      }
    }

    /** A try or its confirmation concerns one vertex; a completed cancellation every member of its scope. */
    method EditBrackets(b: Body)
      requires IsBracketEvent(b)
      modifies this`vertices
      ensures vertices == Bracketed(old(vertices), scopes, b)
    {
      if b.Cancel? {
        vertices := ReleaseMembers(vertices, scopes, b);
      } else if b.vertex in vertices {
        vertices := vertices[b.vertex := BracketAfter(vertices[b.vertex], b.vertex, scopes, b)];
        assert vertices == Bracketed(old(vertices), scopes, b);
      } else {
        assert vertices == Bracketed(old(vertices), scopes, b);
      }
    }

    /** A freeze opens its scopes; any other scoped event opens its own if it is new, and edits it. */
    method EditScopes(e: Event)
      modifies this`scopes
      ensures scopes == ScopesAfter(old(scopes), e)
    {
      if e.body.Frozen? {
        for i := 0 to |e.body.scopes|
          invariant scopes == EnsuredAll(old(scopes), e.body.scopes[..i], e.runSeq)
        {
          assert e.body.scopes[..i + 1][..i] == e.body.scopes[..i];
          EnsureScope(e.body.scopes[i], e.runSeq);
        }
        assert e.body.scopes[..|e.body.scopes|] == e.body.scopes;
      } else if EditOf(e).Some? {
        var target := EditOf(e).value;
        EnsureScope(target.0, e.runSeq);
        EditScope(target.0, target.1);
      }
    }

    method EnsureScope(s: Id, at: nat)
      modifies this`scopes
      ensures scopes == Ensured(old(scopes), s, at)
    {
      for i := 0 to |scopes|
        invariant forall k :: 0 <= k < i ==> scopes[k].id != s
        invariant scopes == old(scopes)
      {
        if scopes[i].id == s { return; }
      }
      scopes := scopes + [ScopeCard(s, ShownOpen, [], None, at, None)];
    }

    method EditScope(s: Id, edit: Edit)
      modifies this`scopes
      ensures scopes == EditAt(old(scopes), s, edit)
    {
      for i := 0 to |scopes|
        invariant |scopes| == |old(scopes)|
        invariant forall k :: 0 <= k < |scopes| ==> scopes[k] == if k < i then EditOne(old(scopes)[k], s, edit)
          else old(scopes)[k]
      {
        if scopes[i].id == s { scopes := scopes[i := Edited(scopes[i], edit)]; }
      }
    }

    /** A freeze answers its proposal and announces the vertices it will create. */
    method Freeze(e: Event)
      requires e.body.Frozen?
      modifies this`announced, this`proposals
      ensures proposals == Closed(old(proposals), e.body.proposedSeq)
        && announced == Announced(old(announced), e.body.announced, e.runSeq)
    {
      var found := false;
      for i := 0 to |proposals|
        invariant !found ==> proposals == old(proposals)
        invariant !found && proposals != [] ==>
          Answered(proposals, e.body.proposedSeq, 0) == Answered(proposals, e.body.proposedSeq, i)
        invariant found ==> proposals == Closed(old(proposals), e.body.proposedSeq)
        invariant |proposals| == |old(proposals)| && announced == old(announced)
      {
        if !found && proposals[i].at == e.body.proposedSeq {
          proposals, found := proposals[i := proposals[i].(frozen := true)], true;
        }
      }
      if !found && |proposals| > 0 {
        var n := |proposals| - 1;
        proposals := proposals[n := proposals[n].(frozen := true)];
      }
      for i := 0 to |e.body.announced|
        invariant announced == Announced(old(announced), e.body.announced[..i], e.runSeq)
          && proposals == Closed(old(proposals), e.body.proposedSeq)
      {
        assert e.body.announced[..i + 1][..i] == e.body.announced[..i];
        announced := announced[e.body.announced[i] := e.runSeq];
      }
      assert e.body.announced[..|e.body.announced|] == e.body.announced;
    }

    /** Flagged, never deleted, and only the first time. */
    method Shadow(e: Event)
      requires e.body.Shadowed?
      modifies this`vertices
      ensures vertices == Shaded(old(vertices), e.body.hidden, e.runSeq)
    {
      var left := e.body.hidden;
      while left != {}
        invariant left <= e.body.hidden && vertices.Keys == old(vertices).Keys
        invariant forall v :: v in vertices ==> vertices[v] == if v in e.body.hidden - left
          then Shade(old(vertices)[v], e.runSeq) else old(vertices)[v]
        decreases left
      {
        var v :| v in left;
        left := left - {v};
        if v in vertices && vertices[v].shadowedAt.None? {
          vertices := vertices[v := vertices[v].(shadowedAt := Some(e.runSeq))];
        }
      }
    }

    /** The model the batch reached. */
    method Finish() returns (m: Model)
      ensures IsListing(vertices, m.vertices) && m.at == if lastSeq > at then lastSeq else at
      ensures m.announced == announced && m.proposals == proposals && m.replans == replans && m.scopes == Listed(scopes)
    {
      var ordered: seq<Placed> := [];
      var left := vertices.Keys;
      while left != {}
        invariant left <= vertices.Keys && InOrder(ordered)
        invariant forall p :: p in ordered <==> p.id in vertices && p.id !in left && vertices[p.id] == p.card
        decreases left
      {
        var v :| v in left;
        left := left - {v};
        InsertPlaced(Placed(v, vertices[v]), ordered);
        ordered := Sorting.Insert(Placed(v, vertices[v]), ordered, Earlier);
      }
      var listed: ScopeCards := [];
      for i := |scopes| downto 0
        invariant listed == Listed(scopes[i..])
      {
        assert scopes[i..][1..] == scopes[i + 1..];
        listed := Sorting.Insert(scopes[i], listed, OpenedBefore);
      }
      assert scopes[0..] == scopes;
      m := Model(if lastSeq > at then lastSeq else at, ordered, announced, proposals, replans, listed);
    }
  }

  lemma {:induction false} InsertPlaced(p: Placed, s: seq<Placed>)
    requires InOrder(s) && forall q :: q in s ==> q.id != p.id
    ensures InOrder(Sorting.Insert(p, s, Earlier))
    ensures forall q :: q in Sorting.Insert(p, s, Earlier) <==> q == p || q in s
  {
    EarlierIsOrder();
    hide Sorting.Insert;
    Sorting.InsertMembers(p, s, Earlier);
    forall q | q in s ensures Earlier(p, q) || Earlier(q, p) {}
    Sorting.InsertAscends(p, s, Earlier);
  }

  /** The model lists this board at this watermark. */
  ghost predicate Shows(m: Model, b: Board, at: nat) {
    IsListing(b.cards, m.vertices) && m.at == at && m.announced == b.announced && m.proposals == b.proposals
      && m.replans == b.replans && m.scopes == Listed(b.scopes)
  }

  ghost predicate IsAdvance(m: Model, batch: Log, r: Model) {
    Shows(r, Folded(Restored(m), batch), if LastSeq(batch) > m.at then LastSeq(batch) else m.at)
  }

  method AdvanceConsoleDag(m: Model, batch: Log) returns (r: Model)
    ensures IsAdvance(m, batch, r)
  {
    var state := new FoldState(m);
    for i := 0 to |batch|
      invariant state.Holds() == Folded(Restored(m), batch[..i]) && state.at == m.at
        && state.lastSeq == LastSeq(batch[..i])
    {
      assert batch[..i + 1][..i] == batch[..i];
      state.Apply(batch[i]);
    }
    assert batch[..|batch|] == batch;
    r := state.Finish();
  }

  /* ---------------------------------------------------------------- splitting does not show */

  lemma {:induction false} FoldedConcat(b: Board, first: Log, second: Log)
    ensures Folded(b, first + second) == Folded(Folded(b, first), second)
    ensures LastSeq(first + second) == if LastSeq(second) > LastSeq(first) then LastSeq(second) else LastSeq(first)
  {
    hide Applied;
    if second == [] {
      assert first + second == first;
    } else {
      assert (first + second)[..|first| + |second| - 1] == first + second[..|second| - 1];
      FoldedConcat(b, first, second[..|second| - 1]);
    }
  }

  /** Boards that differ at most in the order their scope records are held in, and are listed alike. */
  ghost predicate SameBoards(a: Board, b: Board) { a.(scopes := []) == b.(scopes := []) && Alike(a.scopes, b.scopes) }

  lemma AppliedSame(a: Board, b: Board, e: Event)
    requires SameBoards(a, b)
    ensures SameBoards(Applied(a, e), Applied(b, e))
  {
    hide Listed, ScopesAfter, InScope, Depth, Alike;
    AfterAlike(a.scopes, b.scopes, e);
    forall s, v ensures InScope(a.scopes, s, v) <==> InScope(b.scopes, s, v) { AlikeHas(a.scopes, b.scopes, s, v); }
    if IsBracketEvent(e.body) { assert Bracketed(a.cards, a.scopes, e.body) == Bracketed(b.cards, b.scopes, e.body); }
    if e.body.Created? { assert NewCard(a, e) == NewCard(b, e); }
  }

  lemma {:induction false} FoldedSame(a: Board, b: Board, batch: Log)
    requires SameBoards(a, b)
    ensures SameBoards(Folded(a, batch), Folded(b, batch))
  {
    hide Applied, SameBoards;
    if batch != [] {
      FoldedSame(a, b, batch[..|batch| - 1]);
      AppliedSame(Folded(a, batch[..|batch| - 1]), Folded(b, batch[..|batch| - 1]), batch[|batch| - 1]);
    }
  }

  /** Nothing a batch carried is lost or changed by writing it down, but for the order of the scope records. */
  lemma RestoredIs(m: Model, b: Board, at: nat)
    requires Shows(m, b, at)
    ensures SameBoards(Restored(m), b)
  {
    hide Listed;
    LoadListing(b.cards, m.vertices);
    ListedTwice(b.scopes);
  }

  lemma SameShown(m: Model, a: Board, b: Board, at: nat)
    requires SameBoards(a, b) && Shows(m, a, at)
    ensures Shows(m, b, at)
  {
    hide Listed, IsListing;
  }

  lemma ShownOnce(a: Model, b: Model, board: Board, at: nat)
    requires Shows(a, board, at) && Shows(b, board, at)
    ensures a == b
  {
    hide Listed;
    ListingUnique(board.cards, a.vertices, b.vertices);
  }

  /** Two batches one after the other reach the model one batch of both reaches, order included. */
  lemma SplitDoesNotShow(m: Model, first: Log, second: Log, m1: Model, m2: Model)
    requires IsAdvance(m, first, m1) && IsAdvance(m1, second, m2)
    ensures IsAdvance(m, first + second, m2)
  {
    hide Folded, LastSeq, Shows, SameBoards;
    var b := Folded(Restored(m), first);
    ShownAt(m1, b, if LastSeq(first) > m.at then LastSeq(first) else m.at);
    RestoredIs(m1, b, m1.at);
    FoldedSame(Restored(m1), b, second);
    FoldedConcat(Restored(m), first, second);
    SameShown(m2, Folded(Restored(m1), second), Folded(b, second), if LastSeq(second) > m1.at then LastSeq(second)
      else m1.at);
  }

  lemma ShownAt(m: Model, b: Board, at: nat)
    requires Shows(m, b, at)
    ensures m.at == at
  {
  }

  function Flatten(batches: seq<Log>): (log: Log) {
    if batches == [] then [] else Flatten(batches[..|batches| - 1]) + batches[|batches| - 1]
  }

  ghost predicate Reads(batches: seq<Log>, models: seq<Model>) {
    |models| == |batches| + 1 && models[0] == EmptyModel && forall k :: 0 <= k < |batches| ==>
      IsAdvance(models[k], batches[k], models[k + 1])
  }

  /** However a log is cut into batches, the reader ends with the model of the whole log. */
  lemma {:induction false} AnySplit(batches: seq<Log>, models: seq<Model>, whole: Model)
    requires Reads(batches, models) && IsAdvance(EmptyModel, Flatten(batches), whole)
    ensures models[|batches|] == whole
  {
    AnyPrefix(batches, models);
    hide Folded, LastSeq, IsListing;
    ShownOnce(models[|batches|], whole, Folded(Restored(EmptyModel), Flatten(batches)), whole.at);
  }

  lemma NothingRead()
    ensures IsAdvance(EmptyModel, [], EmptyModel)
  {
    assert IsListing(map[], []);
  }

  lemma {:induction false} AnyPrefix(batches: seq<Log>, models: seq<Model>)
    requires Reads(batches, models)
    ensures IsAdvance(EmptyModel, Flatten(batches), models[|batches|])
  {
    var n := |batches|;
    if n == 0 {
      NothingRead();
    } else {
      hide IsAdvance;
      AnyPrefix(batches[..n - 1], models[..n]);
      SplitDoesNotShow(EmptyModel, Flatten(batches[..n - 1]), batches[n - 1], models[n - 1], models[n]);
    }
  }
}
