/**
 What the canonical text is, beyond reading back: which order its keys are in, that no shorter
 literal reads as the same string, and what one document looks like.
 */
module CanonicalMeaning {
  import opened EventLog
  import opened CanonicalText
  import Idempotency
  import Sorting

  /* ---------------------------------------------------------------- the order of keys */

  /** `a` ends first while they agree, or has the smaller character where they first differ. */
  ghost predicate Precedes(a: string, b: string) {
    a < b || exists k :: 0 <= k < |a| && k < |b| && a[..k] == b[..k] && a[k] < b[k]
  }

  lemma {:induction false} BeforeExactly(a: string, b: string)
    ensures Before(a, b) <==> Precedes(a, b)
  {
    if a != [] && b != [] && a[0] == b[0] {
      BeforeExactly(a[1..], b[1..]);
      PrecedesLater(a, b);
    } else if a != [] && b != [] {
      DifferAtOnce(a, b);
    }
  }

  lemma DifferAtOnce(a: string, b: string)
    requires a != [] && b != [] && a[0] != b[0]
    ensures Precedes(a, b) <==> a[0] < b[0]
  {
    assert a[..0] == b[..0];
    forall k | 0 < k && k < |a| && k < |b| ensures a[..k] != b[..k] {
      assert a[..k][0] == a[0] && b[..k][0] == b[0];
    }
  }

  lemma PrecedesLater(a: string, b: string)
    requires a != [] && b != [] && a[0] == b[0]
    ensures Precedes(a, b) <==> Precedes(a[1..], b[1..])
  {
    if a < b { assert a[1..] == b[1..][..|a| - 1]; }
    if a[1..] < b[1..] { assert a == [a[0]] + a[1..] && b == [b[0]] + b[1..]; }
    if k :| 0 <= k < |a| && k < |b| && a[..k] == b[..k] && a[k] < b[k] {
      assert k > 0;
      assert a[1..][..k - 1] == a[..k][1..] && b[1..][..k - 1] == b[..k][1..];
      assert a[1..][k - 1] == a[k] && b[1..][k - 1] == b[k];
    }
    if k :| 0 <= k < |a[1..]| && k < |b[1..]| && a[1..][..k] == b[1..][..k] && a[1..][k] < b[1..][k] {
      assert a[..k + 1] == [a[0]] + a[1..][..k] && b[..k + 1] == [b[0]] + b[1..][..k];
      assert a[k + 1] == a[1..][k] && b[k + 1] == b[1..][k];
    }
  }

  /** Every object in a value has each key once. */
  predicate KeysOnce(v: Json) {
    match v
    case Array(items) => forall i :: 0 <= i < |items| ==> KeysOnce(items[i])
    case Object(entries) =>
      && (forall i, j :: 0 <= i < j < |entries| ==> entries[i].key != entries[j].key)
      && forall i :: 0 <= i < |entries| ==> KeysOnce(entries[i].value)
    case _ => true
  }

  /** Every object in a value has its keys in ascending order. */
  ghost predicate KeysAscend(v: Json) {
    match v
    case Array(items) => forall i :: 0 <= i < |items| ==> KeysAscend(items[i])
    case Object(entries) =>
      && (forall i, j :: 0 <= i < j < |entries| ==> Precedes(entries[i].key, entries[j].key))
      && forall i :: 0 <= i < |entries| ==> KeysAscend(entries[i].value)
    case _ => true
  }

  lemma {:induction false} NormalAscends(v: Json)
    requires KeysOnce(v)
    ensures KeysAscend(Normal(v))
    decreases v
  {
    match v
    case Array(items) =>
      forall i | 0 <= i < |items| ensures KeysAscend(Normal(items[i])) { NormalAscends(items[i]); }
    case Object(entries) =>
      var es := NormalEntries(entries);
      forall i | 0 <= i < |entries| ensures KeysAscend(es[i].value) { NormalAscends(entries[i].value); }
      SortedAscends(es);
    case _ =>
  }

  lemma SortedAscends(es: seq<Pair<Json>>)
    requires DistinctKeys(es) && forall i :: 0 <= i < |es| ==> KeysAscend(es[i].value)
    ensures KeysAscend(Object(Sort(es)))
  {
    hide Sorting.Sort, Sorting.IsOrder, Before, Precedes;
    var r := Sort(es);
    PairsAreOrdered<Json>();
    DistinctAreApart(es);
    Sorting.SortAscends(es, PairBefore);
    Sorting.SortMembers(es, PairBefore);
    forall i, j | 0 <= i < j < |r| ensures Precedes(r[i].key, r[j].key) { BeforeExactly(r[i].key, r[j].key); }
    forall i | 0 <= i < |r| ensures KeysAscend(r[i].value) {
      assert r[i] in r;
      var k :| 0 <= k < |es| && es[k] == r[i];
    }
  }

  /** What is read from the text of any value has the keys of every object in ascending order. */
  lemma {:induction false} TextAscends(v: Json)
    requires KeysOnce(v)
    ensures Decode(Encode(v)).Some? && KeysAscend(Decode(Encode(v)).value)
  {
    RoundTrip(v);
    NormalAscends(v);
  }

  /* ---------------------------------------------------------------- the shortest literal */

  /** Whatever else reads as this string and leaves as much unread is at least as long. */
  lemma {:induction false} ShortestLiteral(text: string)
    requires ParseChars(text).Some?
    ensures |EncodeChars(ParseChars(text).value.0)| + 1 + |ParseChars(text).value.1| <= |text|
  {
    hide EncodeChars;
    if text[0] == Quote {
      NoChars();
    } else if text[0] != Backslash {
      ShortestLiteral(text[1..]);
      OneMoreChar(text[0], ParseChars(text[1..]).value.0);
    } else if text[1] != 'u' {
      ShortestLiteral(text[2..]);
      OneMoreChar(Unescape(text[1]).value, ParseChars(text[2..]).value.0);
    } else {
      ShortestLiteral(text[6..]);
      OneMoreChar(ParseChars(text).value.0[0], ParseChars(text[6..]).value.0);
    }
  }

  lemma NoChars()
    ensures EncodeChars([]) == []
  {
  }

  lemma {:induction false} OneMoreChar(c: char, s: string)
    ensures |EncodeChars([c] + s)| == |EncodeChar(c)| + |EncodeChars(s)|
  {
    EncodeCharsFront([c] + s);
    assert ([c] + s)[1..] == s;
  }

  /** Control characters without an escape of their own are written with lower-case digits. */
  lemma HexIsLower(d: nat)
    requires d < 16
    ensures HexDigit(d) == "0123456789abcdef"[d]
  {
  }

  /* ---------------------------------------------------------------- numbers */

  /** A number has one text: whatever reads as it was written as it. */
  lemma NumberHasOneText(text: string)
    requires ParseNat(text).Some?
    ensures text == Idempotency.Print(ParseNat(text).value.0) + ParseNat(text).value.1
  {
    var n := DigitCount(text);
    hide DigitCount, Idempotency.Parse, Idempotency.Print;
    assert text == text[..n] + text[n..];
    if text[0] == '0' { ZeroPrints(text[..n]); } else { Idempotency.ParsePrints(text[..n]); }
  }

  lemma {:induction false} ZeroPrints(text: string)
    requires text == "0"
    ensures Idempotency.Print(Idempotency.Parse(text)) == text
  {
    assert text[..0] == [];
  }

  /* ---------------------------------------------------------------- one document */

  /** Two keys inserted in the wrong order, one of them holding an object. */
  function Example(): (v: Json) {
    Object([Pair("beta", Int(1)), Pair("alpha", Inner())])
  }

  predicate IsPlain(s: string) { forall i :: 0 <= i < |s| ==> s[i] >= ' ' && s[i] != Quote && s[i] != Backslash }

  lemma {:induction false} PlainIsItself(s: string)
    requires IsPlain(s)
    ensures EncodeChars(s) == s
  {
    hide EncodeChar;
    if s != [] {
      PlainChar(s[|s| - 1]);
      PlainIsItself(s[..|s| - 1]);
      assert s == s[..|s| - 1] + [s[|s| - 1]];
    }
  }

  lemma PlainChar(c: char)
    requires c >= ' ' && c != Quote && c != Backslash
    ensures EncodeChar(c) == [c]
  {
  }

  lemma MemberText(key: string, value: string)
    requires IsPlain(key)
    ensures Member(Pair(key, value)) == "\"" + key + "\":" + value
  {
    PlainIsItself(key);
  }

  /** Two entries given in the wrong order. */
  lemma TwoEntries(x: Pair<Json>, y: Pair<Json>)
    requires Before(y.key, x.key) && IsPlain(x.key) && IsPlain(y.key)
    ensures Encode(Object([x, y])) ==
      "{\"" + y.key + "\":" + Encode(y.value) + ",\"" + x.key + "\":" + Encode(x.value) + "}"
  {
    hide Encode, Before, Member;
    var a, b := Pair(x.key, Encode(x.value)), Pair(y.key, Encode(y.value));
    assert EncodeEntries([x, y]) == [a, b];
    SwapTwo(a, b);
    MemberText(x.key, Encode(x.value));
    MemberText(y.key, Encode(y.value));
    ObjectText([x, y]);
    JoinTwo(b, a);
  }

  lemma {:induction false} ObjectText(entries: seq<Pair<Json>>)
    ensures Encode(Object(entries)) == "{" + JoinedPairs(Sort(EncodeEntries(entries))) + "}"
  {
    hide JoinedPairs, Sort, EncodeEntries;
  }

  lemma JoinTwo(a: Pair<string>, b: Pair<string>)
    ensures JoinedPairs([a, b]) == Member(a) + "," + Member(b)
  {
    hide Member;
    assert [a, b][1..] == [b];
  }

  lemma SwapTwo(a: Pair<string>, b: Pair<string>)
    requires Before(b.key, a.key)
    ensures Sort([a, b]) == [b, a]
  {
    hide Before;
    SortStep([a, b]);
    SortStep([b]);
    SortStep<string>([]);
    assert [a, b][1..] == [b] && [b][1..] == [];
    InsertStep(b, []);
    InsertStep(a, [b]);
    InsertStep(a, []);
  }

  function Inner(): (v: Json) { Object([Pair("z", Bool(true)), Pair("a", Bool(false))]) }

  lemma InnerText()
    ensures Encode(Inner()) == "{\"a\":false,\"z\":true}"
  {
    Literals();
    KeysDiffer();
    hide Encode, Before;
    TwoEntries(Pair("z", Bool(true)), Pair("a", Bool(false)));
    assert "{\"" + "a" + "\":" + "false" + ",\"" + "z" + "\":" + "true" + "}" == "{\"a\":false,\"z\":true}";
  }

  lemma ExampleText()
    ensures Encode(Example()) == "{\"alpha\":" + Encode(Inner()) + ",\"beta\":1}"
    ensures Encode(Inner()) == "{\"a\":false,\"z\":true}"
  {
    Literals();
    KeysDiffer();
    InnerText();
    hide Encode, Before;
    TwoEntries(Pair("beta", Int(1)), Pair("alpha", Inner()));
    var t := Encode(Inner());
    hide *;
    assert "{\"" + "alpha" + "\":" == "{\"alpha\":";
    assert ",\"" + "beta" + "\":" + "1" + "}" == ",\"beta\":1}";
    assert "{\"" + "alpha" + "\":" + t + ",\"" + "beta" + "\":" + "1" + "}" ==
      ("{\"" + "alpha" + "\":") + t + (",\"" + "beta" + "\":" + "1" + "}");
  }

  lemma KeysDiffer()
    ensures Before("a", "z") && Before("alpha", "beta")
  {
  }

  lemma Literals()
    ensures Encode(Bool(true)) == "true" && Encode(Bool(false)) == "false" && Encode(Int(1)) == "1"
  {
  }
}
