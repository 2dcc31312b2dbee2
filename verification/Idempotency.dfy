/**
 Idempotency generations: the key a call is frozen with, given the brackets already recorded
 under its business key, and what any interleaving of freezes, seals, confirms and cancels keeps.
 */
module Idempotency {
  import opened EventLog

  type Key = string

  const Separator: char := '#'

  /* ---------------------------------------------------------------- decimal numbers */

  function Digit(d: nat): (c: char)
    requires d < 10
    ensures IsDigit(c) && Value(c) == d
  {
    '0' + d as char
  }

  predicate IsDigit(c: char) { '0' <= c <= '9' }

  function Value(c: char): (d: nat)
    requires IsDigit(c)
  {
    (c - '0') as nat
  }

  function Print(n: nat): (s: string)
    ensures s != [] && (forall i :: 0 <= i < |s| ==> IsDigit(s[i])) && (n > 0 ==> s[0] != '0')
  {
    if n < 10 then [Digit(n)] else Print(n / 10) + [Digit(n % 10)]
  }

  /** The suffixes that count as a generation: digits with no leading zero. */
  predicate IsNumeral(s: string) { s != [] && s[0] != '0' && forall i :: 0 <= i < |s| ==> IsDigit(s[i]) }

  function Parse(s: string): (n: nat)
    requires forall i :: 0 <= i < |s| ==> IsDigit(s[i])
  {
    if s == [] then 0 else 10 * Parse(s[..|s| - 1]) + Value(s[|s| - 1])
  }

  lemma {:induction false} PrintParses(n: nat)
    ensures Parse(Print(n)) == n
  {
    if n >= 10 {
      var s := Print(n);
      assert s[..|s| - 1] == Print(n / 10);
      PrintParses(n / 10);
    } else {
      assert Print(n)[..0] == [];
    }
  }

  lemma {:induction false} ParsePrints(s: string)
    requires IsNumeral(s)
    ensures Parse(s) > 0 && Print(Parse(s)) == s
  {
    var n := |s| - 1;
    assert s == s[..n] + [s[n]];
    if n == 0 {
      assert s[..0] == [];
    } else {
      ParsePrints(s[..n]);
      PrintAppends(Parse(s[..n]), Value(s[n]));
    }
  }

  lemma PrintAppends(q: nat, d: nat)
    requires q > 0 && d < 10
    ensures Print(10 * q + d) == Print(q) + [Digit(d)]
  {
    assert (10 * q + d) / 10 == q && (10 * q + d) % 10 == d;
  }

  /* ---------------------------------------------------------------- generations */

  /** The key of generation `g`: the business key itself for the first. */
  function KeyOf(base: Key, g: nat): (key: Key) { if g <= 1 then base else base + [Separator] + Print(g) }

  function GenerationOf(base: Key, key: Key): (g: Option<nat>) {
    if key == base then Some(1)
    else if !(base + [Separator] <= key) then None
    else
      var suffix := key[|base| + 1..];
      if IsNumeral(suffix) then Some(Parse(suffix)) else None
  }

  predicate Free(base: Key) { Separator !in base }

  lemma GenerationRoundTrip(base: Key, g: nat)
    requires g >= 1
    ensures GenerationOf(base, KeyOf(base, g)) == Some(g)
  {
    if g > 1 {
      var key := KeyOf(base, g);
      assert base + [Separator] <= key;
      assert key[|base| + 1..] == Print(g);
      PrintParses(g);
    }
  }

  /** Business keys without the separator never claim one another's generations. */
  lemma GenerationsApart(base: Key, other: Key, g: nat)
    requires Free(base) && Free(other) && g >= 1 && GenerationOf(base, KeyOf(other, g)).Some?
    ensures base == other && GenerationOf(base, KeyOf(other, g)) == Some(g)
  {
    var key := KeyOf(other, g);
    SeparatorAt(other, g);
    if key != base {
      assert key[|base|] == (base + [Separator])[|base|];
      assert g > 1 && |base| == |other|;
      assert base == key[..|base|] && other == key[..|other|];
    }
    GenerationRoundTrip(other, g);
  }

  lemma SeparatorAt(base: Key, g: nat)
    requires Free(base)
    ensures forall i :: 0 <= i < |KeyOf(base, g)| ==> (KeyOf(base, g)[i] == Separator <==> g > 1 && i == |base|)
  {
  }

  /* ---------------------------------------------------------------- choosing a key */

  datatype State = Sealed | Confirmed | Cancelled

  datatype Record = Record(key: Key, state: State)

  /** Only the records that are generations of this business key. */
  function Relevant(base: Key, records: seq<Record>): (r: seq<Record>) {
    if records == [] then []
    else (if GenerationOf(base, records[0].key).Some? then [records[0]] else []) + Relevant(base, records[1..])
  }

  function FirstLive(records: seq<Record>): (r: Option<Record>) {
    if records == [] then None else if records[0].state != Cancelled then Some(records[0]) else FirstLive(records[1..])
  }

  function Latest(base: Key, records: seq<Record>): (g: nat) {
    if records == [] then 0
    else
      var rest := Latest(base, records[1..]);
      match GenerationOf(base, records[0].key)
      case Some(g) => if g > rest then g else rest
      case None => rest
  }

  function NextKey(base: Key, records: seq<Record>): (key: Key) {
    var relevant := Relevant(base, records);
    if relevant == [] then base
    else match FirstLive(relevant)
      case Some(r) => r.key
      case None => base + [Separator] + Print(Latest(base, relevant) + 1)
  }

  lemma {:induction false} RelevantIs(base: Key, records: seq<Record>)
    ensures forall r :: r in Relevant(base, records) <==> r in records && GenerationOf(base, r.key).Some?
  {
    if records != [] {
      RelevantIs(base, records[1..]);
      assert forall r :: r in records <==> r == records[0] || r in records[1..];
    }
  }

  lemma {:induction false} FirstLiveIs(records: seq<Record>)
    ensures FirstLive(records).Some? ==>
      FirstLive(records).value in records && FirstLive(records).value.state != Cancelled
    ensures FirstLive(records).None? ==> forall r :: r in records ==> r.state == Cancelled
  {
    if records != [] {
      FirstLiveIs(records[1..]);
      assert forall r :: r in records <==> r == records[0] || r in records[1..];
    }
  }

  lemma {:induction false} LatestIs(base: Key, records: seq<Record>)
    requires forall r :: r in records ==> GenerationOf(base, r.key).Some?
    ensures forall r :: r in records ==> GenerationOf(base, r.key).value <= Latest(base, records)
    ensures records != [] ==> exists r :: r in records && GenerationOf(base, r.key).value == Latest(base, records)
  {
    if records != [] {
      LatestIs(base, records[1..]);
      assert records[0] in records;
      assert forall r :: r in records[1..] ==> r in records;
      if |records| > 1 && Latest(base, records) == Latest(base, records[1..]) {
        var r :| r in records[1..] && GenerationOf(base, r.key).value == Latest(base, records[1..]);
        assert r in records;
      }
    }
  }

  /* ---------------------------------------------------------------- runs */

  /** The bracket table and the keys calls have been frozen with. */
  datatype Table = Table(brackets: map<Key, State>, frozen: set<Key>)

  datatype Step =
    | Freeze(base: Key, records: seq<Record>)   // `records` is what the query returned
    | Seal(key: Key)
    | Confirm(key: Key)
    | Cancel(key: Key)

  /** The query returns every bracket of the key's generations, truthfully, in any order. */
  ghost predicate Returns(t: Table, base: Key, records: seq<Record>) {
    && (forall r :: r in records ==> r.key in t.brackets && t.brackets[r.key] == r.state)
    && (forall key :: key in t.brackets && GenerationOf(base, key).Some? ==> Record(key, t.brackets[key]) in records)
  }

  ghost predicate Takes(t: Table, step: Step, u: Table) {
    match step
    case Freeze(base, records) => Free(base) && Returns(t, base, records)
      && u == t.(frozen := t.frozen + {NextKey(base, records)})
    case Seal(key) => key in t.frozen && key !in t.brackets && u == t.(brackets := t.brackets[key := Sealed])
    case Confirm(key) => key in t.brackets && t.brackets[key] == Sealed
      && u == t.(brackets := t.brackets[key := Confirmed])
    case Cancel(key) =>
      key in t.brackets && t.brackets[key] == Sealed && u == t.(brackets := t.brackets[key := Cancelled])
  }

  ghost predicate IsRun(run: seq<Table>, steps: seq<Step>) {
    && |run| == |steps| + 1 && run[0] == Table(map[], {})
    && forall k :: 0 <= k < |steps| ==> Takes(run[k], steps[k], run[k + 1])
  }

  /** Every generation below `g` was recorded and is cancelled. */
  ghost predicate DoneBelow(t: Table, base: Key, g: nat) {
    forall h: nat :: 1 <= h < g ==> KeyOf(base, h) in t.brackets && t.brackets[KeyOf(base, h)] == Cancelled
  }

  /** A key that stands for some generation whose predecessors are all done. */
  ghost predicate Proper(t: Table, key: Key) {
    exists base: Key, g: nat :: Free(base) && g >= 1 && key == KeyOf(base, g) && DoneBelow(t, base, g)
  }

  ghost predicate Orderly(t: Table) {
    (forall key :: key in t.brackets ==> Proper(t, key)) && (forall key :: key in t.frozen ==> Proper(t, key))
  }

  lemma ProperIs(t: Table, base: Key, key: Key) returns (g: nat)
    requires Free(base) && Proper(t, key) && GenerationOf(base, key).Some?
    ensures g >= 1 && key == KeyOf(base, g) && GenerationOf(base, key) == Some(g) && DoneBelow(t, base, g)
  {
    var b: Key, h: nat :| Free(b) && h >= 1 && key == KeyOf(b, h) && DoneBelow(t, b, h);
    GenerationsApart(base, b, h);
    g := h;
  }

  lemma ProperStays(t: Table, u: Table, key: Key)
    requires Proper(t, key) && forall k :: k in t.brackets && t.brackets[k] == Cancelled ==>
      k in u.brackets && u.brackets[k] == Cancelled
    ensures Proper(u, key)
  {
    var b: Key, h: nat :| Free(b) && h >= 1 && key == KeyOf(b, h) && DoneBelow(t, b, h);
    assert DoneBelow(u, b, h);
  }

  /** The chosen key is the business key, a live generation, or the first one never recorded. */
  lemma NextKeyIsProper(t: Table, base: Key, records: seq<Record>)
    requires Orderly(t) && Free(base) && Returns(t, base, records)
    ensures Proper(t, NextKey(base, records))
    ensures NextKey(base, records) in t.brackets ==> t.brackets[NextKey(base, records)] != Cancelled
  {
    hide Latest, FirstLive, Relevant, GenerationOf, Print, Proper;
    var relevant := Relevant(base, records);
    RelevantIs(base, records);
    FirstLiveIs(relevant);
    Listed(t, base, records);
    if relevant == [] {
      assert DoneBelow(t, base, 1) && KeyOf(base, 1) == base;
      ProperBy(t, base, 1);
      GenerationRoundTrip(base, 1);
    } else if FirstLive(relevant).None? {
      AllCancelled(t, base, records);
    }
  }

  /** When every generation is cancelled the next one follows the latest, and was never recorded. */
  lemma {:induction false} AllCancelled(t: Table, base: Key, records: seq<Record>)
    requires Orderly(t) && Free(base) && Returns(t, base, records)
    requires Relevant(base, records) != [] && forall r :: r in Relevant(base, records) ==> r.state == Cancelled
    ensures var key := base + [Separator] + Print(Latest(base, Relevant(base, records)) + 1);
      Proper(t, key) && key !in t.brackets
  {
    hide Latest, FirstLive, Relevant, GenerationOf, Print, DoneBelow, Proper, Orderly, Returns;
    var n := LatestIsDone(t, base, records);
    var key := KeyOf(base, n + 1);
    assert key == base + [Separator] + Print(n + 1);
    ProperBy(t, base, n + 1);
    Unrecorded(t, base, records, n + 1);
  }

  /** The latest generation is recorded and cancelled, and so is every one before it. */
  lemma LatestIsDone(t: Table, base: Key, records: seq<Record>) returns (n: nat)
    requires Orderly(t) && Free(base) && Returns(t, base, records)
    requires Relevant(base, records) != [] && forall r :: r in Relevant(base, records) ==> r.state == Cancelled
    ensures n == Latest(base, Relevant(base, records)) && n >= 1 && DoneBelow(t, base, n + 1)
  {
    hide Latest, FirstLive, Relevant, GenerationOf, Print, DoneBelow, Proper;
    var relevant := Relevant(base, records);
    RelevantIs(base, records);
    LatestIs(base, relevant);
    n := Latest(base, relevant);
    var r :| r in relevant && GenerationOf(base, r.key).value == n;
    var g := ProperIs(t, base, r.key);
    DoneNext(t, base, n);
  }

  /** A generation past the latest is not recorded. */
  lemma {:induction false} Unrecorded(t: Table, base: Key, records: seq<Record>, n: nat)
    requires Free(base) && Returns(t, base, records) && n > Latest(base, Relevant(base, records)) && n >= 1
    ensures KeyOf(base, n) !in t.brackets
  {
    hide Latest, Relevant, GenerationOf, Print;
    RelevantIs(base, records);
    LatestIs(base, Relevant(base, records));
    Listed(t, base, records);
    GenerationRoundTrip(base, n);
  }

  lemma {:induction false} Listed(t: Table, base: Key, records: seq<Record>)
    requires Returns(t, base, records)
    ensures forall key :: key in t.brackets && GenerationOf(base, key).Some? ==>
      Record(key, t.brackets[key]) in Relevant(base, records)
  {
    hide Relevant, GenerationOf;
    RelevantIs(base, records);
  }

  lemma DoneNext(t: Table, base: Key, n: nat)
    requires DoneBelow(t, base, n) && KeyOf(base, n) in t.brackets && t.brackets[KeyOf(base, n)] == Cancelled
    ensures DoneBelow(t, base, n + 1)
  {
  }

  lemma ProperBy(t: Table, base: Key, g: nat)
    requires Free(base) && g >= 1 && DoneBelow(t, base, g)
    ensures Proper(t, KeyOf(base, g))
  {
  }

  lemma StepOrderly(t: Table, step: Step, u: Table)
    requires Orderly(t) && Takes(t, step, u)
    ensures Orderly(u)
  {
    if step.Freeze? { NextKeyIsProper(t, step.base, step.records); }
    hide Proper;
    forall key | key in u.brackets ensures Proper(u, key) {
      assert Proper(t, key);
      ProperStays(t, u, key);
    }
    forall key | key in u.frozen ensures Proper(u, key) {
      assert Proper(t, key);
      ProperStays(t, u, key);
    }
  }

  lemma {:induction false} RunOrderly(run: seq<Table>, steps: seq<Step>, k: nat)
    requires IsRun(run, steps) && k < |run|
    ensures Orderly(run[k])
  {
    hide Takes;
    if k > 0 {
      RunOrderly(run, steps, k - 1);
      StepOrderly(run[k - 1], steps[k - 1], run[k]);
    }
  }

  /** A recorded generation of this business key that no cancellation has finished. */
  ghost predicate IsLive(t: Table, base: Key, key: Key) {
    key in t.brackets && GenerationOf(base, key).Some? && t.brackets[key] != Cancelled
  }

  /**
   In every run, of the generations of one business key at most one is not cancelled, those
   recorded are the first so many, and a key chosen while none is live has never been used.
   */
  lemma GenerationsKept(run: seq<Table>, steps: seq<Step>, k: nat, base: Key)
    requires IsRun(run, steps) && k < |run| && Free(base)
    ensures forall a, b :: IsLive(run[k], base, a) && IsLive(run[k], base, b) ==> a == b
    ensures forall a, h: nat ::
      a in run[k].brackets && GenerationOf(base, a).Some? && 1 <= h <= GenerationOf(base, a).value ==>
        KeyOf(base, h) in run[k].brackets
    ensures forall records :: Returns(run[k], base, records) ==>
      (NextKey(base, records) in run[k].brackets <==> exists a :: IsLive(run[k], base, a))
  {
    var t := run[k];
    RunOrderly(run, steps, k);
    forall a, b | IsLive(t, base, a) && IsLive(t, base, b) ensures a == b {
      var g := ProperIs(t, base, a);
      var h := ProperIs(t, base, b);
      assert a == KeyOf(base, g) && b == KeyOf(base, h);
    }
    forall a, h: nat | a in t.brackets && GenerationOf(base, a).Some? && 1 <= h <= GenerationOf(base, a).value
      ensures KeyOf(base, h) in t.brackets {
      var g := ProperIs(t, base, a);
    }
    forall records | Returns(t, base, records)
      ensures NextKey(base, records) in t.brackets <==> exists a :: IsLive(t, base, a)
    {
      FreshUnlessLive(t, base, records);
    }
  }

  lemma FreshUnlessLive(t: Table, base: Key, records: seq<Record>)
    requires Orderly(t) && Free(base) && Returns(t, base, records)
    ensures NextKey(base, records) in t.brackets <==> exists a :: IsLive(t, base, a)
  {
    NextKeyIsProper(t, base, records);
    RelevantIs(base, records);
    FirstLiveIs(Relevant(base, records));
    var key := NextKey(base, records);
    if a :| IsLive(t, base, a) {
      assert Record(a, t.brackets[a]) in records;
      assert Record(a, t.brackets[a]) in Relevant(base, records);
    }
    if key in t.brackets {
      NextKeyIsGeneration(base, records);
      assert IsLive(t, base, key);
    }
  }

  lemma NextKeyIsGeneration(base: Key, records: seq<Record>)
    ensures GenerationOf(base, NextKey(base, records)).Some?
  {
    RelevantIs(base, records);
    FirstLiveIs(Relevant(base, records));
    var n := Latest(base, Relevant(base, records));
    if n + 1 > 1 { GenerationRoundTrip(base, n + 1); }
    if Relevant(base, records) != [] && FirstLive(Relevant(base, records)).None? {
      var key := base + [Separator] + Print(n + 1);
      assert base + [Separator] <= key && key[|base| + 1..] == Print(n + 1);
    }
  }

  /* ---------------------------------------------------------------- every generation is reached */

  /** What the query returns once the first `g` generations were cancelled. */
  function AllDone(base: Key, g: nat): (records: seq<Record>) {
    if g == 0 then [] else AllDone(base, g - 1) + [Record(KeyOf(base, g), Cancelled)]
  }

  lemma {:induction false} AllDoneIs(base: Key, g: nat)
    ensures forall r :: r in AllDone(base, g) <==> exists h :: 1 <= h <= g && r == Record(KeyOf(base, h), Cancelled)
  {
    if g > 0 { AllDoneIs(base, g - 1); }
  }

  lemma {:induction false} NextAfter(base: Key, g: nat)
    ensures NextKey(base, AllDone(base, g)) == KeyOf(base, g + 1)
  {
    hide KeyOf, GenerationOf, Latest, FirstLive, Relevant, Print, AllDone;
    var records := AllDone(base, g);
    AllDoneIs(base, g);
    RelevantIs(base, records);
    forall h | 1 <= h <= g ensures GenerationOf(base, KeyOf(base, h)) == Some(h) { GenerationRoundTrip(base, h); }
    var relevant := Relevant(base, records);
    if g == 0 {
      NoMembers(relevant);
      FirstGeneration(base);
    } else {
      assert Record(KeyOf(base, g), Cancelled) in relevant;
      FirstLiveIs(relevant);
      LatestIs(base, relevant);
      LaterGeneration(base, g + 1);
    }
  }

  lemma NoMembers(records: seq<Record>)
    ensures records == [] || exists r :: r in records
  {
    if records != [] { assert records[0] in records; }
  }

  lemma FirstGeneration(base: Key)
    ensures KeyOf(base, 1) == base
  {
  }

  lemma {:induction false} LaterGeneration(base: Key, g: nat)
    requires g > 1
    ensures KeyOf(base, g) == base + [Separator] + Print(g)
  {
  }

  /** The first `g` generations are recorded, all cancelled but for the last, and nothing else is. */
  ghost predicate Reached(t: Table, base: Key, g: nat, last: State) {
    && (forall key :: key in t.brackets <==> exists h :: 1 <= h <= g && key == KeyOf(base, h))
    && (forall h :: 1 <= h < g ==> KeyOf(base, h) in t.brackets && t.brackets[KeyOf(base, h)] == Cancelled)
    && (g > 0 ==> KeyOf(base, g) in t.brackets && t.brackets[KeyOf(base, g)] == last)
  }

  lemma KeysDiffer(base: Key, g: nat, h: nat)
    requires g >= 1 && h >= 1 && KeyOf(base, g) == KeyOf(base, h)
    ensures g == h
  {
    hide KeyOf, GenerationOf;
    GenerationRoundTrip(base, g);
    GenerationRoundTrip(base, h);
  }

  lemma Extended(run: seq<Table>, steps: seq<Step>, step: Step, u: Table)
    requires IsRun(run, steps) && Takes(run[|run| - 1], step, u)
    ensures IsRun(run + [u], steps + [step])
  {
    hide Takes;
  }

  /** From every generation cancelled, the next one is frozen and sealed. */
  lemma NextIsSealed(run: seq<Table>, steps: seq<Step>, base: Key, g: nat) returns (run2: seq<Table>, steps2: seq<Step>)
    requires Free(base) && IsRun(run, steps) && Reached(run[|run| - 1], base, g, Cancelled)
    ensures IsRun(run2, steps2) && Reached(run2[|run2| - 1], base, g + 1, Sealed)
  {
    hide KeyOf, NextKey, IsRun;
    var t := RunEnd(run, steps);
    var key := KeyOf(base, g + 1);
    NextAfter(base, g);
    AllDoneIs(base, g);
    assert Returns(t, base, AllDone(base, g)) by { DoneReturned(t, base, g); }
    var u := t.(frozen := t.frozen + {key});
    Extended(run, steps, Freeze(base, AllDone(base, g)), u);
    forall h | 1 <= h <= g && key == KeyOf(base, h) ensures false { KeysDiffer(base, g + 1, h); }
    var w := u.(brackets := u.brackets[key := Sealed]);
    Extended(run + [u], steps + [Freeze(base, AllDone(base, g))], Seal(key), w);
    run2, steps2 := run + [u] + [w], steps + [Freeze(base, AllDone(base, g))] + [Seal(key)];
  }

  lemma RunEnd(run: seq<Table>, steps: seq<Step>) returns (t: Table)
    requires IsRun(run, steps)
    ensures |run| > 0 && t == run[|run| - 1]
  {
    t := run[|run| - 1];
  }

  lemma {:induction false} DoneReturned(t: Table, base: Key, g: nat)
    requires Reached(t, base, g, Cancelled)
    ensures Returns(t, base, AllDone(base, g))
  {
    hide KeyOf, GenerationOf;
    AllDoneIs(base, g);
    hide AllDone;
  }

  /** Every generation of every business key is reached by cancelling the ones before it, and can then be confirmed. */
  lemma {:induction false} EveryGeneration(base: Key, g: nat) returns (run: seq<Table>, steps: seq<Step>)
    requires Free(base) && g >= 1
    ensures IsRun(run, steps) && Reached(run[|run| - 1], base, g, Sealed)
  {
    hide IsRun, Reached;
    if g == 1 {
      FreshRun(base);
      run, steps := NextIsSealed([Table(map[], {})], [], base, 0);
    } else {
      run, steps := EveryGeneration(base, g - 1);
      run, steps := LastSettles(run, steps, base, g - 1, Step.Cancel(KeyOf(base, g - 1)), Cancelled);
      run, steps := NextIsSealed(run, steps, base, g - 1);
    }
  }

  lemma FreshRun(base: Key)
    ensures IsRun([Table(map[], {})], []) && Reached(Table(map[], {}), base, 0, Cancelled)
  {
  }

  /** The last generation, sealed, is confirmed or cancelled. */
  lemma LastSettles(run: seq<Table>, steps: seq<Step>, base: Key, g: nat, step: Step, how: State)
      returns (run2: seq<Table>, steps2: seq<Step>)
    requires g >= 1 && IsRun(run, steps) && Reached(run[|run| - 1], base, g, Sealed)
    requires (step == Step.Cancel(KeyOf(base, g)) && how == Cancelled)
      || (step == Step.Confirm(KeyOf(base, g)) && how == Confirmed)
    ensures IsRun(run2, steps2) && Reached(run2[|run2| - 1], base, g, how)
  {
    hide KeyOf, IsRun;
    var t := RunEnd(run, steps);
    var key := KeyOf(base, g);
    forall h | 1 <= h < g ensures KeyOf(base, h) != key {
      if KeyOf(base, h) == key { KeysDiffer(base, h, g); }
    }
    var u := t.(brackets := t.brackets[key := how]);
    Extended(run, steps, step, u);
    run2, steps2 := run + [u], steps + [step];
  }

  lemma EveryGenerationConfirms(base: Key, g: nat) returns (run: seq<Table>, steps: seq<Step>)
    requires Free(base) && g >= 1
    ensures IsRun(run, steps) && Reached(run[|run| - 1], base, g, Confirmed)
  {
    run, steps := EveryGeneration(base, g);
    run, steps := LastSettles(run, steps, base, g, Step.Confirm(KeyOf(base, g)), Confirmed);
  }
}
