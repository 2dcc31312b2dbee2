/** What a fork inherits and why one is refused, by position in the log it is cut from. */
module ForkMeaning {
  import opened EventLog
  import opened CausalGraph
  import opened LogPositions
  import F = ForkSlice

  /** The window is the log up to some event: everything numbered no later than asked. */
  lemma {:induction false} WindowIs(source: Log, upTo: nat) returns (k: nat)
    requires Numbered(source)
    ensures k <= |source| && F.Window(source, upTo) == source[..k]
    ensures forall i :: 0 <= i < |source| ==> (source[i].runSeq <= upTo <==> i < k)
  {
    hide Numbered;
    if source == [] {
      k := 0;
    } else if source[|source| - 1].runSeq <= upTo {
      NoneLater(source, upTo);
      WindowAll(source, upTo);
      k := |source|;
    } else {
      var n := |source| - 1;
      NumberedPrefix(source, n);
      k := WindowIs(source[..n], upTo);
      assert forall i :: 0 <= i < n ==> source[..n][i] == source[i];
      assert source[..n][..k] == source[..k];
    }
  }

  lemma NoneLater(source: Log, upTo: nat)
    requires Numbered(source) && source != [] && source[|source| - 1].runSeq <= upTo
    ensures forall i :: 0 <= i < |source| ==> source[i].runSeq <= upTo
  {
  }

  lemma {:induction false} WindowAll(source: Log, upTo: nat)
    requires forall i :: 0 <= i < |source| ==> source[i].runSeq <= upTo
    ensures F.Window(source, upTo) == source
  {
    if source != [] {
      WindowAll(source[..|source| - 1], upTo);
      assert source == source[..|source| - 1] + [source[|source| - 1]];
    }
  }

  lemma {:induction false} FirstCreatedIs(log: Log, v: Id, n: nat)
    requires n <= |log| && forall i :: 0 <= i < n ==> !Creations(v)(log[i])
    ensures Never(log, Creations(v)) ==> F.FirstCreated(log, v, n).None?
    ensures forall i :: First(log, Creations(v), i) ==> F.FirstCreated(log, v, n) == Some(log[i].runSeq)
    decreases |log| - n
  {
    if n < |log| && !Creations(v)(log[n]) { FirstCreatedIs(log, v, n + 1); }
  }

  /** The event is about this vertex: it creates it, runs it, or belongs to its transaction. */
  ghost predicate About(b: Body, v: Id) {
    (b.Created? || b.Started? || b.Succeeded? || b.Failed? || b.Retried? || b.Try? || b.Confirm? || b.PivotPassed?)
      && b.vertex == v
  }

  /** Its cause changed: it is about a vertex below the divergence vertex, or runs that vertex itself. */
  ghost predicate Changed(window: Log, at: Id, b: Body) {
    || (exists v :: v in Descendants(window, at) && About(b, v))
    || ((b.Started? || b.Succeeded? || b.Failed? || b.Retried?) && b.vertex == at)
  }

  lemma ChangedIs(window: Log, at: Id, i: nat)
    requires i < |window|
    ensures F.Caused(window[i], at, Descendants(window, at)) <==> Changed(window, at, window[i].body)
  {
    var e, below := window[i], Descendants(window, at);
    if p :| p in F.ParentRefs(e.body) && (p == at || p in below) {
      assert Edge(window, p, e.body.vertex);
      ChildIsBelow(window, at, p, e.body.vertex);
      hide Descendants;
      assert About(e.body, e.body.vertex);
    }
    hide Descendants;
    if F.VertexOf(e.body).Some? { assert About(e.body, F.VertexOf(e.body).value); }
  }

  /**
   What a cut slice holds: of the events up to the limit, those whose cause a substitution changed are left behind; of
   the others, the seed is what came no later than the divergence vertex's first creation, and the rest is independent.
   */
  lemma {:induction false} SliceExactly(source: Log, at: Id, substitutions: seq<nat>, upTo: nat, s: F.Slice)
    requires Numbered(source) && F.IsSlice(F.Window(source, upTo), at, substitutions, s)
    ensures exists d ::
      && First(source, Creations(at), d) && source[d].runSeq <= upTo && s.divergence == source[d].runSeq
      && forall i :: 0 <= i < |source| ==>
        var lost := substitutions != [] && Changed(F.Window(source, upTo), at, source[i].body);
        && (source[i] in s.invalidated <==> source[i].runSeq <= upTo && lost)
        && (source[i] in s.seed <==> source[i].runSeq <= upTo && !lost && i <= d)
        && (source[i] in s.independent <==> source[i].runSeq <= upTo && !lost && d < i)
  {
    var w := F.Window(source, upTo);
    var k, d := Divergence(source, at, substitutions, upTo, s);
    hide F.IsSlice, Descendants, Changed, F.Window, F.Lost, Numbered, First;
    forall i | 0 <= i < |source|
      ensures var gone := substitutions != [] && Changed(w, at, source[i].body);
        && (source[i] in s.invalidated <==> source[i].runSeq <= upTo && gone)
        && (source[i] in s.seed <==> source[i].runSeq <= upTo && !gone && i <= d)
        && (source[i] in s.independent <==> source[i].runSeq <= upTo && !gone && d < i)
    {
      SliceAt(source, at, substitutions, k, d, s, i);
    }
  }

  /** Where the window ends and the divergence vertex is first created in it. */
  lemma {:induction false} Divergence(source: Log, at: Id, substitutions: seq<nat>, upTo: nat, s: F.Slice)
    returns (k: nat, d: nat)
    requires Numbered(source) && F.IsSlice(F.Window(source, upTo), at, substitutions, s)
    ensures d < k <= |source| && F.Window(source, upTo) == source[..k]
    ensures forall i :: 0 <= i < |source| ==> (source[i].runSeq <= upTo <==> i < k)
    ensures First(source, Creations(at), d) && s.divergence == source[d].runSeq
  {
    var w := F.Window(source, upTo);
    k := WindowIs(source, upTo);
    FirstCreatedIs(w, at, 0);
    assert !Never(w, Creations(at));
    d := FirstOne(w, Creations(at));
    assert forall i :: 0 <= i < k ==> w[i] == source[i];
    hide F.IsSlice, Descendants, F.Window, F.Lost;
  }

  lemma SliceAt(source: Log, at: Id, substitutions: seq<nat>, k: nat, d: nat, s: F.Slice, i: nat)
    requires Numbered(source) && k <= |source| && d < k && i < |source|
    requires F.IsSlice(source[..k], at, substitutions, s) && s.divergence == source[d].runSeq
    ensures var gone := substitutions != [] && Changed(source[..k], at, source[i].body);
      && (source[i] in s.invalidated <==> i < k && gone)
      && (source[i] in s.seed <==> i < k && !gone && i <= d)
      && (source[i] in s.independent <==> i < k && !gone && d < i)
  {
    SliceMembers(source[..k], at, substitutions, s);
    InPrefix(source, k, i);
    if i < k { LostIs(source[..k], at, substitutions, i); }
    hide F.IsSlice, Descendants, Changed, F.Lost;
  }

  lemma LostIs(window: Log, at: Id, substitutions: seq<nat>, i: nat)
    requires i < |window|
    ensures F.Lost(window, at, substitutions)(window[i]) <==> substitutions != [] && Changed(window, at, window[i].body)
  {
    ChangedIs(window, at, i);
  }

  lemma SliceMembers(window: Log, at: Id, substitutions: seq<nat>, s: F.Slice)
    requires F.IsSlice(window, at, substitutions, s)
    ensures var lost := F.Lost(window, at, substitutions);
      && (forall e :: e in s.invalidated <==> e in window && lost(e))
      && (forall e :: e in s.seed <==> e in window && !lost(e) && e.runSeq <= s.divergence)
      && (forall e :: e in s.independent <==> e in window && !lost(e) && e.runSeq > s.divergence)
  {
    hide F.Kept, Descendants;
    var lost := F.Lost(window, at, substitutions);
    F.KeptIs(window, lost);
    F.KeptIs(window, e => !lost(e) && e.runSeq <= s.divergence);
    F.KeptIs(window, e => !lost(e) && e.runSeq > s.divergence);
  }

  lemma InPrefix(log: Log, k: nat, i: nat)
    requires Numbered(log) && k <= |log| && i < |log|
    ensures log[i] in log[..k] <==> i < k
  {
    if i < k { assert log[..k][i] == log[i]; }
  }

  /** Some event up to the limit with this number is a pinned one about the divergence vertex. */
  ghost predicate PinnedHere(source: Log, pinned: set<nat>, at: Id, upTo: nat, q: nat) {
    q in pinned && q <= upTo && exists i :: 0 <= i < |source| && source[i].runSeq == q && About(source[i].body, at)
  }

  ghost predicate NamesChanged(source: Log, window: Log, at: Id, substitutions: seq<nat>) {
    exists i :: 0 <= i < |source| && source[i].runSeq in substitutions && Changed(window, at, source[i].body)
  }

  /** Why a fork is refused, each reason only where none before it applies. */
  lemma {:induction false} RefusalExactly(source: Log, pinned: set<nat>, at: Id, substitutions: seq<nat>, upTo: nat)
    requires Numbered(source)
    ensures var why := F.Objection(F.Window(source, upTo), pinned, at, substitutions);
      if forall i :: 0 <= i < |source| && source[i].runSeq <= upTo ==> !Creations(at)(source[i])
        then why == Some(F.NotCreated)
      else if exists i, j :: 0 <= i < j < |substitutions| && substitutions[i] == substitutions[j]
        then why == Some(F.Repeated)
      else if exists q :: q in substitutions && !PinnedHere(source, pinned, at, upTo, q)
        then why == Some(F.NotPinnedHere)
      else if NamesChanged(source, F.Window(source, upTo), at, substitutions) then why == Some(F.NamesInvalidated)
      else why == None
  {
    var w := F.Window(source, upTo);
    var k := WindowIs(source, upTo);
    assert forall i :: 0 <= i < k ==> w[i] == source[i];
    FirstCreatedIs(w, at, 0);
    if !Never(w, Creations(at)) { var d := FirstOne(w, Creations(at)); }
    forall q ensures F.Substitutable(w, pinned, at, q) <==> PinnedHere(source, pinned, at, upTo, q) {
      PinnedIs(source, pinned, at, upTo, k, q);
    }
    hide F.Substitutable, PinnedHere, F.FirstCreated, Descendants, Changed, F.Caused;
    forall i | 0 <= i < k ensures F.Caused(w[i], at, Descendants(w, at)) <==> Changed(w, at, source[i].body) {
      ChangedIs(w, at, i);
    }
    if F.AllSubstitutable(w, pinned, at, substitutions) && substitutions != [] {
      forall i | 0 <= i < |source| && source[i].runSeq in substitutions ensures i < k {
        assert PinnedHere(source, pinned, at, upTo, source[i].runSeq);
        PinnedInside(source, pinned, at, upTo, source[i].runSeq);
      }
    }
  }

  lemma PinnedInside(source: Log, pinned: set<nat>, at: Id, upTo: nat, q: nat)
    requires PinnedHere(source, pinned, at, upTo, q)
    ensures q <= upTo
  {
  }

  lemma {:induction false} PinnedIs(source: Log, pinned: set<nat>, at: Id, upTo: nat, k: nat, q: nat)
    requires k <= |source| && F.Window(source, upTo) == source[..k]
    requires forall i :: 0 <= i < |source| ==> (source[i].runSeq <= upTo <==> i < k)
    ensures F.Substitutable(F.Window(source, upTo), pinned, at, q) <==> PinnedHere(source, pinned, at, upTo, q)
  {
    var w := F.Window(source, upTo);
    hide F.Window;
    if F.Substitutable(w, pinned, at, q) {
      var i :| 0 <= i < |w| && w[i].runSeq == q && F.VertexOf(w[i].body) == Some(at);
      assert source[i].runSeq == q && About(source[i].body, at);
    }
    if PinnedHere(source, pinned, at, upTo, q) {
      var i :| 0 <= i < |source| && source[i].runSeq == q && About(source[i].body, at);
      assert w[i].runSeq == q && F.VertexOf(w[i].body) == Some(at);
    }
  }
}
