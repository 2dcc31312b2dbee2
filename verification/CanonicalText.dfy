/**
 The canonical encoding a tool view's digest is taken over: object keys sorted, only the escapes
 JSON requires, integers only. A decoder reads back what was written, so two values have the
 same text exactly when they are the same up to the order their keys were inserted in.
 */
module CanonicalText {
  import opened EventLog
  import Idempotency
  import Sorting

  datatype Pair<T> = Pair(key: string, value: T)

  datatype Json =
    | Null
    | Bool(b: bool)
    | Int(n: int)
    | Text(s: string)
    | Array(items: seq<Json>)
    | Object(entries: seq<Pair<Json>>)

  const Quote: char := 34 as char
  const Backslash: char := 92 as char
  const Slash: char := 47 as char
  const OpenBrace: char := 123 as char
  const CloseBrace: char := 125 as char
  const OpenBracket: char := 91 as char
  const CloseBracket: char := 93 as char
  const Comma: char := 44 as char
  const Colon: char := 58 as char
  const Minus: char := 45 as char
  const Newline: char := 10 as char
  const Return: char := 13 as char
  const Tab: char := 9 as char
  const Backspace: char := 8 as char
  const FormFeed: char := 12 as char

  /* ---------------------------------------------------------------- sorting by key */

  /** Code point order, which is the byte order of UTF-8. */
  predicate Before(a: string, b: string) {
    if a == [] then b != [] else b != [] && (a[0] < b[0] || (a[0] == b[0] && Before(a[1..], b[1..])))
  }

  lemma {:induction false} BeforeTotal(a: string, b: string)
    ensures a == b || Before(a, b) || Before(b, a)
    ensures !(Before(a, b) && Before(b, a)) && !Before(a, a)
  {
    if a != [] && b != [] && a[0] == b[0] {
      BeforeTotal(a[1..], b[1..]);
      assert a == [a[0]] + a[1..] && b == [b[0]] + b[1..];
    }
    if a != [] { BeforeTotal(a[1..], a[1..]); }
  }

  lemma {:induction false} BeforeTrans(a: string, b: string, c: string)
    requires Before(a, b) && Before(b, c)
    ensures Before(a, c)
  {
    if a != [] && a[0] == b[0] && b[0] == c[0] { BeforeTrans(a[1..], b[1..], c[1..]); }
  }

  predicate PairBefore<T>(a: Pair<T>, b: Pair<T>) { Before(a.key, b.key) }

  function Insert<T>(x: Pair<T>, es: seq<Pair<T>>): (r: seq<Pair<T>>) { Sorting.Insert(x, es, PairBefore) }

  function Sort<T>(es: seq<Pair<T>>): (r: seq<Pair<T>>) { Sorting.Sort(es, PairBefore) }

  ghost predicate DistinctKeys<T>(es: seq<Pair<T>>) { forall i, j :: 0 <= i < j < |es| ==> es[i].key != es[j].key }

  lemma PairsAreOrdered<T(!new)>()
    ensures Sorting.IsOrder<Pair<T>>(PairBefore)
  {
    forall a, b: Pair<T> | PairBefore(a, b) ensures !PairBefore(b, a) {
      hide Before;
      BeforeTotal(a.key, b.key);
    }
    forall a, b, c: Pair<T> | PairBefore(a, c) ensures PairBefore(a, b) || PairBefore(b, c) {
      hide Before;
      BeforeTotal(a.key, b.key);
      BeforeTotal(b.key, c.key);
      if Before(b.key, a.key) { BeforeTrans(b.key, a.key, c.key); }
    }
  }

  lemma InsertStep<T(!new)>(x: Pair<T>, es: seq<Pair<T>>)
    ensures Insert(x, es) == if es == [] || !Before(es[0].key, x.key) then [x] + es else [es[0]] + Insert(x, es[1..])
  {
    hide Before;
  }

  lemma SortStep<T(!new)>(es: seq<Pair<T>>)
    ensures Sort(es) == if es == [] then [] else Insert(es[0], Sort(es[1..]))
  {
    hide Sorting.Insert;
  }

  lemma SortMembers<T(!new)>(es: seq<Pair<T>>)
    ensures forall p :: p in Sort(es) <==> p in es
  {
    Sorting.SortMembers(es, PairBefore);
  }

  lemma SortOfPermutation<T(!new)>(a: seq<Pair<T>>, b: seq<Pair<T>>)
    requires DistinctKeys(a) && DistinctKeys(b) && forall p :: p in a <==> p in b
    ensures Sort(a) == Sort(b)
  {
    hide Sorting.Sort, Sorting.IsOrder;
    PairsAreOrdered<T>();
    DistinctAreApart(a);
    DistinctAreApart(b);
    Sorting.SortOfPermutation(a, b, PairBefore);
  }

  lemma DistinctAreApart<T(!new)>(es: seq<Pair<T>>)
    requires DistinctKeys(es)
    ensures Sorting.Apart(es, PairBefore)
  {
    hide Before;
    forall i, j | 0 <= i < j < |es| ensures PairBefore(es[i], es[j]) || PairBefore(es[j], es[i]) {
      BeforeTotal(es[i].key, es[j].key);
    }
  }

  /* ---------------------------------------------------------------- encoding */

  function HexDigit(d: nat): (c: char)
    requires d < 16
  {
    if d < 10 then '0' + d as char else 'a' + (d - 10) as char
  }

  function EncodeChar(c: char): (t: string) {
    if c == Quote then [Backslash, Quote] else if c == Backslash then [Backslash, Backslash]
    else if c == Backspace then [Backslash, 'b'] else if c == FormFeed then [Backslash, 'f'] else if c == Newline
      then [Backslash, 'n']
    else if c == Return then [Backslash, 'r'] else if c == Tab then [Backslash, 't']
    else if c < ' ' then [Backslash, 'u', '0', '0', HexDigit(c as nat / 16), HexDigit(c as nat % 16)]
    else [c]
  }

  function EncodeChars(s: string): (t: string) {
    if s == [] then [] else EncodeChars(s[..|s| - 1]) + EncodeChar(s[|s| - 1])
  }

  function EncodeString(s: string): (t: string) { [Quote] + EncodeChars(s) + [Quote] }

  function EncodeInt(n: int): (t: string) { if n < 0 then [Minus] + Idempotency.Print(-n) else Idempotency.Print(n) }

  function Encode(v: Json): (t: string) {
    match v
    case Null => "null"
    case Bool(b) => if b then "true" else "false"
    case Int(n) => EncodeInt(n)
    case Text(s) => EncodeString(s)
    case Array(items) => [OpenBracket] + Joined(EncodeItems(items)) + [CloseBracket]
    case Object(entries) => [OpenBrace] + JoinedPairs(Sort(EncodeEntries(entries))) + [CloseBrace]
  }

  function EncodeItems(items: seq<Json>): (r: seq<string>)
    ensures |r| == |items| && forall i :: 0 <= i < |r| ==> r[i] == Encode(items[i])
  {
    if items == [] then [] else EncodeItems(items[..|items| - 1]) + [Encode(items[|items| - 1])]
  }

  function EncodeEntries(entries: seq<Pair<Json>>): (r: seq<Pair<string>>)
    ensures |r| == |entries| && forall i :: 0 <= i < |r| ==> r[i] == Pair(entries[i].key, Encode(entries[i].value))
  {
    if entries == [] then []
    else
      var n := |entries| - 1;
      EncodeEntries(entries[..n]) + [Pair(entries[n].key, Encode(entries[n].value))]
  }

  function Joined(ts: seq<string>): (t: string) {
    if ts == [] then [] else if |ts| == 1 then ts[0] else ts[0] + [Comma] + Joined(ts[1..])
  }

  function Member(p: Pair<string>): (t: string) { EncodeString(p.key) + [Colon] + p.value }

  function JoinedPairs(ps: seq<Pair<string>>): (t: string) {
    if ps == [] then [] else if |ps| == 1 then Member(ps[0]) else Member(ps[0]) + [Comma] + JoinedPairs(ps[1..])
  }

  /** The value with the keys of every object in order. */
  function Normal(v: Json): (r: Json) {
    match v
    case Array(items) => Array(NormalItems(items))
    case Object(entries) => Object(Sort(NormalEntries(entries)))
    case _ => v
  }

  function NormalItems(items: seq<Json>): (r: seq<Json>)
    ensures |r| == |items| && forall i :: 0 <= i < |r| ==> r[i] == Normal(items[i])
  {
    if items == [] then [] else NormalItems(items[..|items| - 1]) + [Normal(items[|items| - 1])]
  }

  function NormalEntries(entries: seq<Pair<Json>>): (r: seq<Pair<Json>>)
    ensures |r| == |entries| && forall i :: 0 <= i < |r| ==> r[i] == Pair(entries[i].key, Normal(entries[i].value))
  {
    if entries == [] then []
    else
      var n := |entries| - 1;
      NormalEntries(entries[..n]) + [Pair(entries[n].key, Normal(entries[n].value))]
  }

  /* ---------------------------------------------------------------- decoding */

  predicate IsHex(c: char) { '0' <= c <= '9' || 'a' <= c <= 'f' || 'A' <= c <= 'F' }

  function HexValue(c: char): (d: nat)
    requires IsHex(c)
    ensures d < 16
  {
    if '0' <= c <= '9' then (c - '0') as nat else if 'a' <= c <= 'f' then 10 + (c - 'a') as nat
      else 10 + (c - 'A') as nat
  }

  function Unescape(c: char): (r: Option<char>) {
    if c == Quote || c == Backslash || c == Slash then Some(c)
    else if c == 'b' then Some(Backspace) else if c == 'f' then Some(FormFeed) else if c == 'n' then Some(Newline)
    else if c == 'r' then Some(Return) else if c == 't' then Some(Tab) else None
  }

  function Prepend(c: char, r: Option<(string, string)>): (q: Option<(string, string)>) {
    if r.Some? then Some(([c] + r.value.0, r.value.1)) else None
  }

  /** The rest of a string literal, and what follows its closing quote. */
  function ParseChars(s: string): (r: Option<(string, string)>)
    ensures r.Some? ==> |r.value.1| < |s|
  {
    if s == [] then None
    else if s[0] == Quote then Some(([], s[1..]))
    else if s[0] < ' ' then None
    else if s[0] != Backslash then Prepend(s[0], ParseChars(s[1..]))
    else if |s| < 2 then None
    else if s[1] != 'u' then (if Unescape(s[1]).Some? then Prepend(Unescape(s[1]).value, ParseChars(s[2..])) else None)
    else if |s| < 6 || !IsHex(s[2]) || !IsHex(s[3]) || !IsHex(s[4]) || !IsHex(s[5]) then None
    else
      var code := HexValue(s[2]) * 4096 + HexValue(s[3]) * 256 + HexValue(s[4]) * 16 + HexValue(s[5]);
      if code < 0xD800 then Prepend(code as char, ParseChars(s[6..])) else None
  }

  function DigitCount(s: string): (n: nat)
    ensures n <= |s| && forall i :: 0 <= i < n ==> Idempotency.IsDigit(s[i])
  {
    if s != [] && Idempotency.IsDigit(s[0]) then 1 + DigitCount(s[1..]) else 0
  }

  function ParseNat(s: string): (r: Option<(nat, string)>)
    ensures r.Some? ==> |r.value.1| < |s|
  {
    var n := DigitCount(s);
    if n == 0 || (n > 1 && s[0] == '0') then None else Some((Idempotency.Parse(s[..n]), s[n..]))
  }

  function ParseValue(s: string): (r: Option<(Json, string)>)
    ensures r.Some? ==> |r.value.1| < |s|
    decreases |s|, 1
  {
    if "null" <= s then Some((Null, s[4..]))
    else if "true" <= s then Some((Bool(true), s[4..]))
    else if "false" <= s then Some((Bool(false), s[5..]))
    else if s == [] then None
    else if s[0] == Quote then
      (match ParseChars(s[1..])
       case Some(p) => Some((Text(p.0), p.1))
       case None => None)
    else if s[0] == OpenBracket then
      if |s| > 1 && s[1] == CloseBracket then Some((Array([]), s[2..]))
      else (match ParseItems(s[1..])
            case Some(p) => Some((Array(p.0), p.1))
            case None => None)
    else if s[0] == OpenBrace then
      if |s| > 1 && s[1] == CloseBrace then Some((Object([]), s[2..]))
      else (match ParseEntries(s[1..])
            case Some(p) => Some((Object(p.0), p.1))
            case None => None)
    else if s[0] == Minus then
      (match ParseNat(s[1..])
       case Some(p) => Some((Int(0 - (p.0 as int)), p.1))
       case None => None)
    else
      (match ParseNat(s)
       case Some(p) => Some((Int(p.0), p.1))
       case None => None)
  }

  function ParseItems(s: string): (r: Option<(seq<Json>, string)>)
    ensures r.Some? ==> |r.value.1| < |s|
    decreases |s|, 2
  {
    match ParseValue(s)
    case None => None
    case Some(p) =>
      if p.1 == [] then None
      else if p.1[0] == CloseBracket then Some(([p.0], p.1[1..]))
      else if p.1[0] != Comma then None
      else match ParseItems(p.1[1..])
        case Some(q) => Some(([p.0] + q.0, q.1))
        case None => None
  }

  function ParseEntry(s: string): (r: Option<(Pair<Json>, string)>)
    ensures r.Some? ==> |r.value.1| < |s|
    decreases |s|, 1
  {
    if s == [] || s[0] != Quote then None
    else match ParseChars(s[1..])
      case None => None
      case Some(k) =>
        if k.1 == [] || k.1[0] != Colon then None
        else match ParseValue(k.1[1..])
          case Some(p) => Some((Pair(k.0, p.0), p.1))
          case None => None
  }

  function ParseEntries(s: string): (r: Option<(seq<Pair<Json>>, string)>)
    ensures r.Some? ==> |r.value.1| < |s|
    decreases |s|, 2
  {
    match ParseEntry(s)
    case None => None
    case Some(p) =>
      if p.1 == [] then None
      else if p.1[0] == CloseBrace then Some(([p.0], p.1[1..]))
      else if p.1[0] != Comma then None
      else match ParseEntries(p.1[1..])
        case Some(q) => Some(([p.0] + q.0, q.1))
        case None => None
  }

  function Decode(t: string): (v: Option<Json>) {
    match ParseValue(t)
    case Some(p) => if p.1 == [] then Some(p.0) else None
    case None => None
  }

  /* ---------------------------------------------------------------- what is written reads back: strings and numbers */

  lemma {:induction false} EncodeCharsFront(s: string)
    requires s != []
    ensures EncodeChars(s) == EncodeChar(s[0]) + EncodeChars(s[1..])
  {
    hide EncodeChar;
    var n := |s| - 1;
    if n > 0 {
      EncodeCharsFront(s[..n]);
      assert s[1..][..n - 1] == s[..n][1..];
      assert s[1..][n - 1] == s[n];
    } else {
      assert s[..0] == [] && s[1..] == [];
    }
  }

  lemma HexReads(d: nat)
    requires d < 16
    ensures IsHex(HexDigit(d)) && HexValue(HexDigit(d)) == d
  {
  }

  lemma {:induction false} OneChar(c: char, t: string)
    ensures ParseChars(EncodeChar(c) + t) == Prepend(c, ParseChars(t))
  {
    var s := EncodeChar(c) + t;
    if |EncodeChar(c)| == 1 {
      assert s[1..] == t;
    } else if |EncodeChar(c)| == 2 {
      assert s[2..] == t;
    } else {
      var d := c as nat;
      HexReads(d / 16);
      HexReads(d % 16);
      assert s[6..] == t;
      assert s[2] == '0' && s[3] == '0' && s[4] == HexDigit(d / 16) && s[5] == HexDigit(d % 16);
      assert d / 16 * 16 + d % 16 == d;
    }
  }

  lemma {:induction false} ClosingQuote(rest: string)
    ensures ParseChars(EncodeChars([]) + [Quote] + rest) == Some(([], rest))
  {
    assert EncodeChars([]) + [Quote] + rest == [Quote] + rest;
  }

  lemma {:induction false} StringReads(s: string, rest: string)
    ensures ParseChars(EncodeChars(s) + [Quote] + rest) == Some((s, rest))
  {
    hide ParseChars, EncodeChars, EncodeChar;
    if s == [] {
      ClosingQuote(rest);
    } else {
      EncodeCharsFront(s);
      var t := EncodeChars(s[1..]) + [Quote] + rest;
      assert EncodeChars(s) + [Quote] + rest == EncodeChar(s[0]) + t;
      OneChar(s[0], t);
      StringReads(s[1..], rest);
      assert s == [s[0]] + s[1..];
    }
  }

  ghost predicate Ends(rest: string) { rest == [] || !Idempotency.IsDigit(rest[0]) }

  lemma {:induction false} DigitsCounted(d: string, rest: string)
    requires (forall i :: 0 <= i < |d| ==> Idempotency.IsDigit(d[i])) && Ends(rest)
    ensures DigitCount(d + rest) == |d|
  {
    if d == [] {
      assert d + rest == rest;
    } else {
      assert (d + rest)[1..] == d[1..] + rest;
      DigitsCounted(d[1..], rest);
    }
  }

  lemma {:induction false} NatReads(n: nat, rest: string)
    requires Ends(rest)
    ensures ParseNat(Idempotency.Print(n) + rest) == Some((n, rest))
  {
    var d := Idempotency.Print(n);
    DigitsCounted(d, rest);
    Idempotency.PrintParses(n);
    assert (d + rest)[..|d|] == d && (d + rest)[|d|..] == rest;
    if n == 0 { assert d == [Idempotency.Digit(0)]; }
  }

  /* ---------------------------------------------------------------- what is written reads back: values */

  /** This text reads as this value, whatever follows that is not one more digit. */
  ghost predicate Reads(t: string, v: Json) {
    forall rest: string :: Ends(rest) ==> ParseValue(t + rest) == Some((v, rest))
  }

  lemma {:induction false} ReadsThen(t: string, v: Json, rest: string)
    requires Reads(t, v) && Ends(rest)
    ensures ParseValue(t + rest) == Some((v, rest))
  {
    hide ParseValue;
  }

  lemma ReadsIsNotEmpty(t: string, v: Json)
    requires Reads(t, v)
    ensures t != [] && t[0] != CloseBracket
  {
    ReadsThen(t, v, []);
    assert t + [] == t;
    hide ParseItems, ParseEntries, ParseChars, Reads;
    assert t != [] && t[0] == CloseBracket ==> DigitCount(t) == 0;
  }

  function AsArray(p: Option<(seq<Json>, string)>): (r: Option<(Json, string)>) {
    if p.Some? then Some((Array(p.value.0), p.value.1)) else None
  }
  function AsObject(p: Option<(seq<Pair<Json>>, string)>): (r: Option<(Json, string)>) {
    if p.Some? then Some((Object(p.value.0), p.value.1)) else None
  }
  function AsText(p: Option<(string, string)>): (r: Option<(Json, string)>) {
    if p.Some? then Some((Text(p.value.0), p.value.1)) else None
  }
  function AsInt(p: Option<(nat, string)>, sign: int): (r: Option<(Json, string)>) {
    if p.Some? then Some((Int(sign * p.value.0), p.value.1)) else None
  }

  /** How a value is read from its first character. */
  lemma {:induction false} OpensWith(s: string)
    requires s != []
    ensures s[0] == OpenBracket ==> ParseValue(s) == if |s| > 1 && s[1] == CloseBracket then Some((Array([]), s[2..]))
      else AsArray(ParseItems(s[1..]))
    ensures s[0] == OpenBrace ==> ParseValue(s) == if |s| > 1 && s[1] == CloseBrace then Some((Object([]), s[2..]))
      else AsObject(ParseEntries(s[1..]))
    ensures s[0] == Quote ==> ParseValue(s) == AsText(ParseChars(s[1..]))
    ensures s[0] == Minus ==> ParseValue(s) == AsInt(ParseNat(s[1..]), -1)
    ensures Idempotency.IsDigit(s[0]) ==> ParseValue(s) == AsInt(ParseNat(s), 1)
  {
    hide ParseItems, ParseEntries, ParseChars, ParseNat;
    assert "null"[0] == 'n' && "true"[0] == 't' && "false"[0] == 'f';
  }

  lemma {:induction false} ItemsRead(ts: seq<string>, vs: seq<Json>, rest: string)
    requires |ts| == |vs| > 0 && forall i :: 0 <= i < |ts| ==> Reads(ts[i], vs[i])
    ensures ParseItems(Joined(ts) + [CloseBracket] + rest) == Some((vs, rest))
  {
    hide ParseValue, Reads;
    if |ts| == 1 {
      var tail := [CloseBracket] + rest;
      assert Joined(ts) + [CloseBracket] + rest == ts[0] + tail;
      ReadsThen(ts[0], vs[0], tail);
      assert tail[1..] == rest && vs == [vs[0]];
    } else {
      var more := Joined(ts[1..]) + [CloseBracket] + rest;
      var tail := [Comma] + more;
      assert Joined(ts) + [CloseBracket] + rest == ts[0] + tail;
      ReadsThen(ts[0], vs[0], tail);
      assert tail[1..] == more;
      ItemsRead(ts[1..], vs[1..], rest);
      assert vs == [vs[0]] + vs[1..];
    }
  }

  ghost predicate PairsRead(ps: seq<Pair<string>>, es: seq<Pair<Json>>) {
    |ps| == |es| && forall i :: 0 <= i < |ps| ==> ps[i].key == es[i].key && Reads(ps[i].value, es[i].value)
  }

  lemma {:induction false} MemberReads(p: Pair<string>, e: Pair<Json>, rest: string)
    requires p.key == e.key && Reads(p.value, e.value) && Ends(rest)
    ensures ParseEntry(Member(p) + rest) == Some((e, rest))
  {
    hide ParseValue, Reads, ParseChars, EncodeChars;
    var s := Member(p) + rest;
    var tail := [Colon] + p.value + rest;
    assert s[1..] == EncodeChars(p.key) + [Quote] + tail;
    StringReads(p.key, tail);
    assert tail[1..] == p.value + rest;
    ReadsThen(p.value, e.value, rest);
    assert s[0] == Quote && tail[0] == Colon;
  }

  lemma {:induction false} EntriesRead(ps: seq<Pair<string>>, es: seq<Pair<Json>>, rest: string)
    requires PairsRead(ps, es) && |ps| > 0
    ensures ParseEntries(JoinedPairs(ps) + [CloseBrace] + rest) == Some((es, rest))
  {
    hide ParseEntry, Reads, Member;
    if |ps| == 1 {
      var tail := [CloseBrace] + rest;
      assert JoinedPairs(ps) + [CloseBrace] + rest == Member(ps[0]) + tail;
      MemberReads(ps[0], es[0], tail);
      assert tail[1..] == rest && es == [es[0]];
    } else {
      var more := JoinedPairs(ps[1..]) + [CloseBrace] + rest;
      var tail := [Comma] + more;
      assert JoinedPairs(ps) + [CloseBrace] + rest == Member(ps[0]) + tail;
      MemberReads(ps[0], es[0], tail);
      assert tail[1..] == more;
      EntriesRead(ps[1..], es[1..], rest);
      assert es == [es[0]] + es[1..];
    }
  }

  lemma {:induction false} InsertReads(p: Pair<string>, e: Pair<Json>, ps: seq<Pair<string>>, es: seq<Pair<Json>>)
    requires PairsRead(ps, es) && p.key == e.key && Reads(p.value, e.value)
    ensures PairsRead(Insert(p, ps), Insert(e, es))
  {
    hide Reads, Before, Insert;
    InsertStep(p, ps);
    InsertStep(e, es);
    if ps != [] && Before(ps[0].key, p.key) { InsertReads(p, e, ps[1..], es[1..]); }
  }

  lemma {:induction false} SortReads(ps: seq<Pair<string>>, es: seq<Pair<Json>>)
    requires PairsRead(ps, es)
    ensures PairsRead(Sort(ps), Sort(es))
  {
    hide Reads, Insert, Sort;
    SortStep(ps);
    SortStep(es);
    if ps != [] {
      SortReads(ps[1..], es[1..]);
      InsertReads(ps[0], es[0], Sort(ps[1..]), Sort(es[1..]));
    }
  }

  /** The decoder recovers every value, with its keys in order. */
  lemma {:induction false} EncodingReads(v: Json)
    ensures Reads(Encode(v), Normal(v))
    decreases v
  {
    hide ParseValue, Sort;
    match v
    case Null => LiteralReads(v);
    case Bool(_) => LiteralReads(v);
    case Int(n) => IntReads(n);
    case Text(s) =>
      forall rest: string | Ends(rest) ensures ParseValue(EncodeString(s) + rest) == Some((v, rest)) {
        hide ParseChars, EncodeChars;
        OpensWith(EncodeString(s) + rest);
        assert (EncodeString(s) + rest)[1..] == EncodeChars(s) + [Quote] + rest;
        StringReads(s, rest);
      }
    case Array(items) =>
      forall i | 0 <= i < |items| ensures Reads(Encode(items[i]), Normal(items[i])) { EncodingReads(items[i]); }
      ArrayReads(items);
    case Object(entries) =>
      forall i | 0 <= i < |entries| ensures Reads(Encode(entries[i].value), Normal(entries[i].value)) {
        EncodingReads(entries[i].value);
      }
      ObjectReads(entries);
  }

  lemma {:induction false} LiteralReads(v: Json)
    requires v.Null? || v.Bool?
    ensures Reads(Encode(v), v)
  {
    forall rest: string | Ends(rest) ensures ParseValue(Encode(v) + rest) == Some((v, rest)) {
      var s := Encode(v) + rest;
      assert s[..|Encode(v)|] == Encode(v) && s[|Encode(v)|..] == rest;
      assert s[0] == Encode(v)[0];
    }
  }

  lemma IntReads(n: int)
    ensures Reads(EncodeInt(n), Int(n))
  {
    forall rest: string | Ends(rest) ensures ParseValue(EncodeInt(n) + rest) == Some((Int(n), rest)) {
      IntReadsThen(n, rest);
    }
  }

  lemma {:induction false} IntReadsThen(n: int, rest: string)
    requires Ends(rest)
    ensures ParseValue(EncodeInt(n) + rest) == Some((Int(n), rest))
  {
    hide ParseValue, ParseNat, Idempotency.Print;
    var s := EncodeInt(n) + rest;
    OpensWith(s);
    if n < 0 {
      assert s[1..] == Idempotency.Print(-n) + rest;
      NatReads(-n, rest);
    } else {
      NatReads(n, rest);
      assert Idempotency.IsDigit(s[0]);
    }
  }

  lemma ArrayReads(items: seq<Json>)
    requires forall i :: 0 <= i < |items| ==> Reads(Encode(items[i]), Normal(items[i]))
    ensures Reads(Encode(Array(items)), Normal(Array(items)))
  {
    var ts, vs := EncodeItems(items), NormalItems(items);
    assert forall i :: 0 <= i < |ts| ==> Reads(ts[i], vs[i]) by { hide Reads; }
    forall rest: string | Ends(rest) ensures ParseValue(Encode(Array(items)) + rest) == Some((Array(vs), rest)) {
      ItemsReadThen(ts, vs, rest);
    }
  }

  lemma {:induction false} ItemsReadThen(ts: seq<string>, vs: seq<Json>, rest: string)
    requires |ts| == |vs| && forall i :: 0 <= i < |ts| ==> Reads(ts[i], vs[i])
    ensures ParseValue([OpenBracket] + Joined(ts) + [CloseBracket] + rest) == Some((Array(vs), rest))
  {
    hide ParseValue, ParseItems, Reads;
    var s := [OpenBracket] + Joined(ts) + [CloseBracket] + rest;
    OpensWith(s);
    if ts == [] {
      assert s[2..] == rest && vs == [];
    } else {
      ItemsRead(ts, vs, rest);
      ReadsIsNotEmpty(ts[0], vs[0]);
      assert s[1..] == Joined(ts) + [CloseBracket] + rest;
      assert s[1] == ts[0][0];
    }
  }

  lemma ObjectReads(entries: seq<Pair<Json>>)
    requires forall i :: 0 <= i < |entries| ==> Reads(Encode(entries[i].value), Normal(entries[i].value))
    ensures Reads(Encode(Object(entries)), Normal(Object(entries)))
  {
    var ps, es := Sort(EncodeEntries(entries)), Sort(NormalEntries(entries));
    assert PairsRead(EncodeEntries(entries), NormalEntries(entries)) by { hide Reads; }
    SortReads(EncodeEntries(entries), NormalEntries(entries));
    forall rest: string | Ends(rest) ensures ParseValue(Encode(Object(entries)) + rest) == Some((Object(es), rest)) {
      PairsReadThen(ps, es, rest);
    }
  }

  lemma {:induction false} PairsReadThen(ps: seq<Pair<string>>, es: seq<Pair<Json>>, rest: string)
    requires PairsRead(ps, es)
    ensures ParseValue([OpenBrace] + JoinedPairs(ps) + [CloseBrace] + rest) == Some((Object(es), rest))
  {
    hide ParseValue, ParseEntries, Reads, EncodeChars;
    var s := [OpenBrace] + JoinedPairs(ps) + [CloseBrace] + rest;
    OpensWith(s);
    if ps == [] {
      assert s[2..] == rest && es == [];
    } else {
      EntriesRead(ps, es, rest);
      assert s[1..] == JoinedPairs(ps) + [CloseBrace] + rest;
      assert s[1] == Quote;
    }
  }

  /* ---------------------------------------------------------------- the theorems */

  lemma {:induction false} RoundTrip(v: Json)
    ensures Decode(Encode(v)) == Some(Normal(v))
  {
    EncodingReads(v);
    ReadsThen(Encode(v), Normal(v), []);
    assert Encode(v) + [] == Encode(v);
  }

  /** Values already in order encode to what they were put in order from. */
  lemma {:induction false} EncodeNormal(v: Json)
    ensures Encode(Normal(v)) == Encode(v)
    decreases v
  {
    match v
    case Array(items) =>
      forall i | 0 <= i < |items| ensures Encode(Normal(items[i])) == Encode(items[i]) { EncodeNormal(items[i]); }
      assert EncodeItems(NormalItems(items)) == EncodeItems(items);
    case Object(entries) =>
      forall i | 0 <= i < |entries| ensures Encode(Normal(entries[i].value)) == Encode(entries[i].value) {
        EncodeNormal(entries[i].value);
      }
      var es := NormalEntries(entries);
      assert EncodeEntries(es) == EncodeEntries(entries);
      EncodeSorts(es);
      SortTwice(EncodeEntries(es));
    case _ =>
  }

  lemma {:induction false} EncodeInsert(x: Pair<Json>, es: seq<Pair<Json>>)
    ensures EncodeEntries(Insert(x, es)) == Insert(Pair(x.key, Encode(x.value)), EncodeEntries(es))
  {
    hide Before, Encode, EncodeEntries, Insert;
    InsertStep(x, es);
    InsertStep(Pair(x.key, Encode(x.value)), EncodeEntries(es));
    if es != [] && Before(es[0].key, x.key) {
      EncodeInsert(x, es[1..]);
      assert EncodeEntries(es)[1..] == EncodeEntries(es[1..]);
    }
  }

  lemma {:induction false} EncodeSorts(es: seq<Pair<Json>>)
    ensures EncodeEntries(Sort(es)) == Sort(EncodeEntries(es))
  {
    hide Insert, Sort, Encode, EncodeEntries;
    SortStep(es);
    SortStep(EncodeEntries(es));
    if es != [] {
      EncodeSorts(es[1..]);
      EncodeInsert(es[0], Sort(es[1..]));
      assert EncodeEntries(es)[1..] == EncodeEntries(es[1..]);
    }
  }

  lemma SortTwice<T(!new)>(es: seq<Pair<T>>)
    ensures Sort(Sort(es)) == Sort(es)
  {
    hide Sorting.Sort, Sorting.IsOrder;
    PairsAreOrdered<T>();
    Sorting.SortInOrder(es, PairBefore);
    Sorting.SortFixes(Sort(es), PairBefore);
  }

  /** Injective: two values have the same text exactly when they are the same value up to key order. */
  lemma {:induction false} SameTextSameValue(v: Json, w: Json)
    ensures Encode(v) == Encode(w) <==> Normal(v) == Normal(w)
  {
    RoundTrip(v);
    RoundTrip(w);
    EncodeNormal(v);
    EncodeNormal(w);
  }

  /** The order an object's keys were inserted in does not show. */
  lemma InsertionOrderIsIrrelevant(a: seq<Pair<Json>>, b: seq<Pair<Json>>)
    requires DistinctKeys(a) && DistinctKeys(b) && forall p :: p in a <==> p in b
    ensures Encode(Object(a)) == Encode(Object(b))
  {
    hide Sort;
    SortOfPermutation(a, b);
    EncodeSorts(a);
    EncodeSorts(b);
  }

  /* ---------------------------------------------------------------- the writer */

  method WriteString(buffer: string, value: string) returns (out: string)
    ensures out == buffer + EncodeString(value)
  {
    hide EncodeChar;
    out := buffer + [Quote];
    for i := 0 to |value|
      invariant out == buffer + [Quote] + EncodeChars(value[..i])
    {
      assert value[..i + 1][..i] == value[..i];
      out := out + EncodeChar(value[i]);
    }
    assert value[..|value|] == value;
    out := out + [Quote];
  }

  lemma {:induction false} JoinedSnoc(ts: seq<string>, t: string)
    ensures Joined(ts + [t]) == if ts == [] then t else Joined(ts) + [Comma] + t
  {
    if |ts| > 1 {
      var rest := Joined(ts[1..]);
      assert (ts + [t])[1..] == ts[1..] + [t];
      JoinedSnoc(ts[1..], t);
      assert Joined(ts + [t]) == ts[0] + [Comma] + Joined(ts[1..] + [t]);
      assert Joined(ts) == ts[0] + [Comma] + rest;
      hide Joined;
      assert ts[0] + [Comma] + (rest + [Comma] + t) == (ts[0] + [Comma] + rest) + [Comma] + t;
    } else if |ts| == 1 {
      assert (ts + [t])[1..] == [t];
    }
  }

  lemma {:induction false} JoinedPairsSnoc(ps: seq<Pair<string>>, p: Pair<string>)
    ensures JoinedPairs(ps + [p]) == if ps == [] then Member(p) else JoinedPairs(ps) + [Comma] + Member(p)
  {
    hide Member;
    if |ps| > 1 {
      var first, rest := Member(ps[0]), JoinedPairs(ps[1..]);
      assert (ps + [p])[1..] == ps[1..] + [p];
      JoinedPairsSnoc(ps[1..], p);
      assert JoinedPairs(ps + [p]) == first + [Comma] + JoinedPairs(ps[1..] + [p]);
      assert JoinedPairs(ps) == first + [Comma] + rest;
      hide JoinedPairs;
      assert first + [Comma] + (rest + [Comma] + Member(p)) == (first + [Comma] + rest) + [Comma] + Member(p);
    } else if |ps| == 1 {
      assert (ps + [p])[1..] == [p];
    }
  }

  /** The recursive writer over one growing buffer. */
  method WriteCanonical(buffer: string, v: Json) returns (out: string)
    ensures out == buffer + Encode(v)
    decreases v
  {
    EncodeCases(v);
    hide Encode, EncodeString, EncodeInt, Sort, Joined, JoinedPairs;
    match v
    case Null => out := buffer + "null";
    case Bool(b) => out := buffer + if b then "true" else "false";
    case Int(n) => out := buffer + EncodeInt(n);
    case Text(s) => out := WriteString(buffer, s);
    case Array(items) =>
      out := WriteItems(buffer + [OpenBracket], items);
      Closed(buffer, OpenBracket, Joined(EncodeItems(items)), CloseBracket);
      out := out + [CloseBracket];
    case Object(entries) =>
      out := WriteEntries(buffer + [OpenBrace], entries);
      Closed(buffer, OpenBrace, JoinedPairs(EncodeEntries(Sort(entries))), CloseBrace);
      out := out + [CloseBrace];
  }

  lemma {:induction false} EncodeCases(v: Json)
    ensures v.Array? ==> Encode(v) == [OpenBracket] + Joined(EncodeItems(v.items)) + [CloseBracket]
    ensures v.Object? ==> Encode(v) == [OpenBrace] + JoinedPairs(EncodeEntries(Sort(v.entries))) + [CloseBrace]
    ensures v.Text? ==> Encode(v) == EncodeString(v.s)
    ensures v.Int? ==> Encode(v) == EncodeInt(v.n)
    ensures v.Bool? ==> Encode(v) == if v.b then "true" else "false"
    ensures v.Null? ==> Encode(v) == "null"
  {
    if v.Object? { EncodeSorts(v.entries); }
  }

  lemma Closed(buffer: string, open: char, t: string, close: char)
    ensures buffer + [open] + t + [close] == buffer + ([open] + t + [close])
  {
  }

  method WriteItems(buffer: string, items: seq<Json>) returns (out: string)
    ensures out == buffer + Joined(EncodeItems(items))
    decreases items
  {
    hide Encode, Joined;
    out := buffer;
    JoinedNothing();
    for i := 0 to |items|
      invariant out == buffer + Joined(EncodeItems(items[..i]))
    {
      assert items[..i + 1][..i] == items[..i];
      JoinedSnoc(EncodeItems(items[..i]), Encode(items[i]));
      if i > 0 { out := out + [Comma]; }
      out := WriteCanonical(out, items[i]);
    }
    assert items[..|items|] == items;
  }

  lemma JoinedNothing()
    ensures Joined([]) == [] && JoinedPairs([]) == []
  {
  }

  method WriteEntries(buffer: string, entries: seq<Pair<Json>>) returns (out: string)
    ensures out == buffer + JoinedPairs(EncodeEntries(Sort(entries)))
    decreases entries
  {
    hide Encode, JoinedPairs, EncodeString, Sort;
    var sorted := Sort(entries);
    SortMembers(entries);
    out := buffer;
    JoinedNothing();
    for i := 0 to |sorted|
      invariant out == buffer + JoinedPairs(EncodeEntries(sorted[..i]))
    {
      assert sorted[..i + 1][..i] == sorted[..i];
      JoinedPairsSnoc(EncodeEntries(sorted[..i]), Pair(sorted[i].key, Encode(sorted[i].value)));
      assert sorted[i] in sorted;
      assert sorted[i] in entries;
      if i > 0 { out := out + [Comma]; }
      out := WriteString(out, sorted[i].key);
      out := out + [Colon];
      out := WriteCanonical(out, sorted[i].value);
    }
    assert sorted[..|sorted|] == sorted;
  }
}
