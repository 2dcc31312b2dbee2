/**
 The console's delta stream: a bounded buffer of what one process emitted, the decision a
 reconnecting subscriber gets, and the fence a client applies to what it receives.
 */
module StreamResume {
  import opened EventLog

  /** A delta's place in the stream; what it carries does not matter here. */
  datatype Delta = Delta(runSeq: nat, ordinal: nat)

  /** A cursor as a client presents it. */
  datatype Cursor = Cursor(runSeq: int, ordinal: int)

  predicate Precedes(a: Cursor, b: Cursor) { a.runSeq < b.runSeq || (a.runSeq == b.runSeq && a.ordinal < b.ordinal) }

  function CursorOf(d: Delta): (c: Cursor) { Cursor(d.runSeq, d.ordinal) }

  ghost predicate Ascending(ds: seq<Delta>) {
    forall i, j :: 0 <= i < j < |ds| ==> Precedes(CursorOf(ds[i]), CursorOf(ds[j]))
  }

  /* ---------------------------------------------------------------- what is emitted */

  /** One poll's worth: the watermark it reached and how many deltas it produced. */
  datatype Batch = Batch(watermark: nat, count: nat)

  /** Every delta is fenced at the batch's watermark and numbered in send order. */
  function Deltas(b: Batch): (ds: seq<Delta>)
    ensures |ds| == b.count && forall i :: 0 <= i < |ds| ==> ds[i] == Delta(b.watermark, i)
  {
    seq(b.count, i requires 0 <= i < b.count => Delta(b.watermark, i))
  }

  function Emitted(history: seq<Batch>): (ds: seq<Delta>) {
    if history == [] then [] else Emitted(history[..|history| - 1]) + Deltas(history[|history| - 1])
  }

  /** Each poll reads past the last watermark. */
  ghost predicate Advances(history: seq<Batch>) {
    forall i, j :: 0 <= i < j < |history| ==> history[i].watermark < history[j].watermark
  }

  lemma {:induction false} EmittedAscends(history: seq<Batch>)
    requires Advances(history)
    ensures Ascending(Emitted(history))
    ensures forall d :: d in Emitted(history) ==> exists i :: 0 <= i < |history| && d.runSeq == history[i].watermark
  {
    if history != [] {
      var n := |history| - 1;
      EmittedAscends(history[..n]);
      var before := Emitted(history[..n]);
      forall d | d in before
        ensures d.runSeq < history[n].watermark && exists i :: 0 <= i < |history| && d.runSeq == history[i].watermark {
        var i :| 0 <= i < n && d.runSeq == history[..n][i].watermark;
        assert history[i].watermark == d.runSeq;
      }
      forall i, j | 0 <= i < j < |Emitted(history)|
        ensures Precedes(CursorOf(Emitted(history)[i]), CursorOf(Emitted(history)[j])) {
        if i < |before| { assert before[i] in before; }
      }
    }
  }

  /* ---------------------------------------------------------------- the buffer */

  class DeltaBuffer {
    var deltas: seq<Delta>
    var evicted: bool
    const capacity: nat
    ghost var emitted: seq<Delta>

    /** What is held is the end of what was emitted, and the flag says whether anything is missing. */
    ghost predicate Valid()
      reads this
    {
      && |deltas| <= capacity && IsEnd(deltas, emitted)
      && (evicted <==> |deltas| < |emitted|)
    }

    constructor (capacity: nat)
      ensures Valid() && emitted == [] && this.capacity == capacity
    {
      this.capacity := capacity;
      deltas, evicted, emitted := [], false, [];
    }

    method Push(more: seq<Delta>)
      requires Valid()
      modifies this
      ensures Valid()
      ensures emitted == old(emitted) + more
      ensures |deltas| == if |old(deltas)| + |more| <= capacity then |old(deltas)| + |more| else capacity
    {
      EndGrows(deltas, emitted, more);
      var all := deltas + more;
      emitted := emitted + more;
      if |all| <= capacity {
        deltas := all;
      } else {
        EndOfEnd(all, emitted, |all| - capacity);
        EndIsShorter(all, emitted);
        deltas := all[|all| - capacity..];
        evicted := true;
      }
    }
  }

  /** These are the last ones of those. */
  ghost predicate IsEnd(held: seq<Delta>, emitted: seq<Delta>) {
    |held| <= |emitted| && held == emitted[|emitted| - |held|..]
  }

  lemma EndIsShorter(held: seq<Delta>, emitted: seq<Delta>)
    requires IsEnd(held, emitted)
    ensures |held| <= |emitted|
  {
  }

  lemma EndGrows(held: seq<Delta>, emitted: seq<Delta>, more: seq<Delta>)
    requires IsEnd(held, emitted)
    ensures IsEnd(held + more, emitted + more) && |held| <= |emitted|
  {
  }

  lemma EndOfEnd(held: seq<Delta>, emitted: seq<Delta>, n: nat)
    requires IsEnd(held, emitted) && n <= |held|
    ensures IsEnd(held[n..], emitted)
  {
  }

  /* ---------------------------------------------------------------- resuming */

  datatype Refusal = FirstConnect | BelowBuffer | AheadOfWatermark

  datatype Decision = Replay(deltas: seq<Delta>) | Snapshot(reason: Refusal)

  function After(cursor: Cursor, ds: seq<Delta>): (r: seq<Delta>) {
    if ds == [] then []
    else After(cursor, ds[..|ds| - 1]) + if Precedes(cursor, CursorOf(ds[|ds| - 1])) then [ds[|ds| - 1]] else []
  }

  function ResolveResume(cursor: Option<Cursor>, entries: seq<Delta>, dropped: bool, watermark: nat): (r: Decision) {
    match cursor
    case None => Snapshot(FirstConnect)
    case Some(c) =>
      if c.runSeq > watermark then Snapshot(AheadOfWatermark)
      else if dropped && (entries == [] || Precedes(c, Cursor(entries[0].runSeq, entries[0].ordinal as int - 1)))
        then Snapshot(BelowBuffer)
      else Replay(After(c, entries))
  }

  lemma {:induction false} AfterAll(cursor: Cursor, ds: seq<Delta>)
    requires forall i :: 0 <= i < |ds| ==> Precedes(cursor, CursorOf(ds[i]))
    ensures After(cursor, ds) == ds
  {
    if ds != [] {
      AfterAll(cursor, ds[..|ds| - 1]);
      assert ds == ds[..|ds| - 1] + [ds[|ds| - 1]];
    }
  }

  lemma {:induction false} AfterNone(cursor: Cursor, ds: seq<Delta>)
    requires forall i :: 0 <= i < |ds| ==> !Precedes(cursor, CursorOf(ds[i]))
    ensures After(cursor, ds) == []
  {
    if ds != [] { AfterNone(cursor, ds[..|ds| - 1]); }
  }

  lemma {:induction false} AfterSplits(cursor: Cursor, a: seq<Delta>, b: seq<Delta>)
    ensures After(cursor, a + b) == After(cursor, a) + After(cursor, b)
  {
    if b == [] {
      assert a + b == a;
    } else {
      var n := |b| - 1;
      assert (a + b)[..|a| + n] == a + b[..n];
      AfterSplits(cursor, a, b[..n]);
    }
  }

  /**
   Gapless: for any cursor whatever and any buffer, a replay is exactly every delta emitted after
   that cursor; and for the cursor of an emitted delta, those are the ones that followed it.
   */
  lemma {:induction false} ReplayIsGapless(emitted: seq<Delta>, kept: nat, dropped: bool, cursor: Cursor,
      watermark: nat)
    requires Ascending(emitted) && kept <= |emitted| && (dropped <==> kept < |emitted|)
    ensures var r := ResolveResume(Some(cursor), emitted[|emitted| - kept..], dropped, watermark);
      && (r.Replay? ==> r.deltas == After(cursor, emitted))
      && (r.Replay? ==> forall i :: 0 <= i < |emitted| && cursor == CursorOf(emitted[i]) ==>
        r.deltas == emitted[i + 1..])
  {
    hide After;
    var m := |emitted| - kept;
    var r := ResolveResume(Some(cursor), emitted[m..], dropped, watermark);
    if r.Replay? {
      forall k | 0 <= k < m ensures !Precedes(cursor, CursorOf(emitted[..m][k])) {
        assert Precedes(CursorOf(emitted[k]), CursorOf(emitted[m]));
      }
      AfterNone(cursor, emitted[..m]);
      AfterSplits(cursor, emitted[..m], emitted[m..]);
      assert emitted == emitted[..m] + emitted[m..];
      forall i | 0 <= i < |emitted| && cursor == CursorOf(emitted[i])
        ensures After(cursor, emitted) == emitted[i + 1..] {
        AfterOwn(emitted, i);
      }
    }
  }

  lemma {:induction false} AfterOwn(emitted: seq<Delta>, i: nat)
    requires Ascending(emitted) && i < |emitted|
    ensures After(CursorOf(emitted[i]), emitted) == emitted[i + 1..]
  {
    hide After;
    var c := CursorOf(emitted[i]);
    var past := emitted[..i + 1];
    forall k | 0 <= k < |past| ensures !Precedes(c, CursorOf(past[k])) {
      if k < i { assert Precedes(CursorOf(emitted[k]), c); }
    }
    AfterNone(c, past);
    AfterAll(c, emitted[i + 1..]);
    AfterSplits(c, emitted[..i + 1], emitted[i + 1..]);
    assert emitted == emitted[..i + 1] + emitted[i + 1..];
  }

  /** What comes after a cursor is an end of what was emitted: everything from the first delta past it. */
  lemma {:induction false} AfterIsEnd(cursor: Cursor, emitted: seq<Delta>) returns (k: nat)
    requires Ascending(emitted)
    ensures k <= |emitted| && After(cursor, emitted) == emitted[k..]
    ensures forall j :: 0 <= j < |emitted| ==> (Precedes(cursor, CursorOf(emitted[j])) <==> k <= j)
  {
    if emitted == [] {
      k := 0;
    } else {
      var n := |emitted| - 1;
      k := AfterIsEnd(cursor, emitted[..n]);
      assert forall j :: 0 <= j < n ==> emitted[..n][j] == emitted[j];
      if k < n {
        assert Precedes(CursorOf(emitted[k]), CursorOf(emitted[n]));
        assert emitted[k..] == emitted[..n][k..] + [emitted[n]];
      } else if !Precedes(cursor, CursorOf(emitted[n])) {
        k := n + 1;
      }
    }
  }

  /** Ordinals run on within a batch and start again with the next. */
  lemma {:induction false} NextOrdinal(history: seq<Batch>, k: nat)
    requires Advances(history) && k < |Emitted(history)|
    ensures var ds := Emitted(history);
      if k > 0 && ds[k - 1].runSeq == ds[k].runSeq then ds[k].ordinal == ds[k - 1].ordinal + 1 else ds[k].ordinal == 0
  {
    var n := |history| - 1;
    var before := Emitted(history[..n]);
    if k < |before| {
      NextOrdinal(history[..n], k);
    } else if k == |before| && k > 0 {
      EmittedAscends(history[..n]);
      assert before[k - 1] in before;
      var i :| 0 <= i < n && before[k - 1].runSeq == history[..n][i].watermark;
      assert history[i].watermark < history[n].watermark;
    }
  }

  /**
   Who is replayed to: a client at an emitted delta, unless it is ahead of this process's watermark or something it
   has not seen may be gone. It may be gone unless the client's own delta is still held, or was the last one evicted
   and in the same batch as the first one held.
   */
  lemma {:induction false} ReplayedExactly(history: seq<Batch>, kept: nat, i: nat, watermark: nat)
    requires Advances(history) && kept <= |Emitted(history)| && i < |Emitted(history)|
    ensures var emitted := Emitted(history);
      var m := |emitted| - kept;
      var r := ResolveResume(Some(CursorOf(emitted[i])), emitted[m..], kept < |emitted|, watermark);
      && (r == Snapshot(AheadOfWatermark) <==> emitted[i].runSeq > watermark)
      && (r.Replay? <==>
        emitted[i].runSeq <= watermark && kept > 0
          && (m <= i || (m == i + 1 && emitted[i].runSeq == emitted[m].runSeq)))
  {
    EmittedAscends(history);
    var emitted := Emitted(history);
    var m := |emitted| - kept;
    hide Emitted, Deltas, After;
    if 0 < m < |emitted| {
      NextOrdinal(history, m);
      if i < m - 1 { assert Precedes(CursorOf(emitted[i]), CursorOf(emitted[m - 1])); }
      assert Precedes(CursorOf(emitted[m - 1]), CursorOf(emitted[m]));
      if m < i { assert Precedes(CursorOf(emitted[m]), CursorOf(emitted[i])); }
    }
  }

  /** A delta could have been sent between these two places. */
  ghost predicate RoomBetween(a: Cursor, b: Cursor) { exists q :: Precedes(a, q) && Precedes(q, b) }

  /**
   Of any cursor whatever: one that is not ahead is refused exactly when something was evicted, and nothing is left or
   there is room for a delta between the cursor and the first one held.
   */
  lemma RefusedExactly(cursor: Cursor, entries: seq<Delta>, dropped: bool, watermark: nat)
    ensures var r := ResolveResume(Some(cursor), entries, dropped, watermark);
      && (r == Snapshot(AheadOfWatermark) <==> cursor.runSeq > watermark)
      && (r == Snapshot(BelowBuffer) <==>
        cursor.runSeq <= watermark && dropped && (entries == [] || RoomBetween(cursor, CursorOf(entries[0]))))
      && r != Snapshot(FirstConnect)
    ensures ResolveResume(None, entries, dropped, watermark) == Snapshot(FirstConnect)
  {
    if entries != [] {
      var before := Cursor(entries[0].runSeq, entries[0].ordinal as int - 1);
      assert Precedes(before, CursorOf(entries[0]));
      assert Precedes(cursor, before) <==> RoomBetween(cursor, CursorOf(entries[0]));
    }
  }

  /* ---------------------------------------------------------------- the client's fence */

  /** Where a client stands and what it has applied since its snapshot. */
  datatype Client = Client(at: Cursor, applied: seq<Delta>)

  /** Behind or at the watermark is already seen. */
  function Receive(c: Client, d: Delta): (r: Client) {
    if d.runSeq < c.at.runSeq || (d.runSeq == c.at.runSeq && d.ordinal <= c.at.ordinal) then c
    else Client(CursorOf(d), c.applied + [d])
  }

  function ReceiveAll(c: Client, ds: seq<Delta>): (r: Client) {
    if ds == [] then c else Receive(ReceiveAll(c, ds[..|ds| - 1]), ds[|ds| - 1])
  }

  lemma {:induction false} Redelivered(c: Client, ds: seq<Delta>)
    requires forall i :: 0 <= i < |ds| ==> !Precedes(c.at, CursorOf(ds[i]))
    ensures ReceiveAll(c, ds) == c
  {
    if ds != [] { Redelivered(c, ds[..|ds| - 1]); }
  }

  lemma {:induction false} Delivered(c: Client, ds: seq<Delta>)
    requires Ascending(ds) && forall i :: 0 <= i < |ds| ==> Precedes(c.at, CursorOf(ds[i]))
    ensures ReceiveAll(c, ds).applied == c.applied + ds
    ensures ReceiveAll(c, ds).at == if ds == [] then c.at else CursorOf(ds[|ds| - 1])
  {
    if ds != [] {
      var n := |ds| - 1;
      Delivered(c, ds[..n]);
      assert ds == ds[..n] + [ds[n]];
      if n > 0 { assert Precedes(CursorOf(ds[n - 1]), CursorOf(ds[n])); }
    }
  }

  lemma {:induction false} ReceiveBoth(c: Client, a: seq<Delta>, b: seq<Delta>)
    ensures ReceiveAll(c, a + b) == ReceiveAll(ReceiveAll(c, a), b)
  {
    if b == [] {
      assert a + b == a;
    } else {
      assert (a + b)[..|a| + |b| - 1] == a + b[..|b| - 1];
      ReceiveBoth(c, a, b[..|b| - 1]);
    }
  }

  /**
   Exactly once: a client standing at an emitted delta that reconnects, is replayed to, and is
   redelivered any earlier deltas besides, has applied every emitted delta after that one, in order.
   */
  lemma ResumeIsExactlyOnce(history: seq<Batch>, kept: nat, dropped: bool, i: nat, watermark: nat, again: seq<Delta>,
      c: Client)
    requires Advances(history) && kept <= |Emitted(history)| && (dropped <==> kept < |Emitted(history)|)
    requires i < |Emitted(history)| && c.at == CursorOf(Emitted(history)[i])
    requires forall k :: 0 <= k < |again| ==> again[k] in Emitted(history)[..i + 1]
    ensures var emitted := Emitted(history);
      var r := ResolveResume(Some(c.at), emitted[|emitted| - kept..], dropped, watermark);
      r.Replay? ==>
        && ReceiveAll(c, again + r.deltas).applied == c.applied + emitted[i + 1..]
        && ReceiveAll(c, again + r.deltas).at == CursorOf(emitted[|emitted| - 1])
  {
    hide *;
    EmittedAscends(history);
    var emitted := Emitted(history);
    ReplayIsGapless(emitted, kept, dropped, c.at, watermark);
    CaughtUp(emitted, i, again, c);
  }

  lemma CaughtUp(emitted: seq<Delta>, i: nat, again: seq<Delta>, c: Client)
    requires Ascending(emitted) && i < |emitted| && c.at == CursorOf(emitted[i])
    requires forall k :: 0 <= k < |again| ==> again[k] in emitted[..i + 1]
    ensures ReceiveAll(c, again + emitted[i + 1..]).applied == c.applied + emitted[i + 1..]
    ensures ReceiveAll(c, again + emitted[i + 1..]).at == CursorOf(emitted[|emitted| - 1])
  {
    hide ReceiveAll;
    forall k | 0 <= k < |again| ensures !Precedes(c.at, CursorOf(again[k])) {
      var j :| 0 <= j < i + 1 && emitted[..i + 1][j] == again[k];
      if j < i { assert Precedes(CursorOf(emitted[j]), CursorOf(emitted[i])); }
    }
    Redelivered(c, again);
    ReceiveBoth(c, again, emitted[i + 1..]);
    Delivered(c, emitted[i + 1..]);
  }
}
