/** The canonical plan encoding (scripts/bybit-probe/probe-plan.ts): JSON with sorted keys and no undefined ones. */
module Canonical {
  import opened Common
  import opened Orders
  import opened DecimalText

  /**
   * A JavaScript value: an object is its enumerable entries in insertion order; `Opaque` stands
   * for what is neither data nor undefined (functions, symbols, big integers).
   */
  datatype Json =
    | Null
    | Boolean(b: bool)
    | Number(n: int)
    | Text(t: string)
    | Array(items: seq<Json>)
    | Object(entries: seq<(string, Json)>)
    | Undefined
    | Opaque

  datatype CanonicalError = UnsupportedValue

  // ------------------------------------------------------- string escaping

  const QUOTE: char := '\"'
  const BACKSLASH: char := '\\'

  function HexDigit(n: int): char
    requires 0 <= n < 16
  {
    if n < 10 then '0' + n as char else 'a' + (n - 10) as char
  }

  /** The escapes of JSON.stringify: section 7 of RFC 8259. */
  function EscapeChar(c: char): string {
    if c == QUOTE then [BACKSLASH, QUOTE]
    else if c == BACKSLASH then [BACKSLASH, BACKSLASH]
    else if c == '\U{0008}' then [BACKSLASH, 'b']
    else if c == '\U{000C}' then [BACKSLASH, 'f']
    else if c == '\n' then [BACKSLASH, 'n']
    else if c == '\r' then [BACKSLASH, 'r']
    else if c == '\t' then [BACKSLASH, 't']
    else if c < ' ' then [BACKSLASH, 'u', '0', '0', HexDigit(c as int / 16), HexDigit(c as int % 16)]
    else [c]
  }

  function EscapeAll(s: string): string {
    if s == "" then "" else EscapeChar(s[0]) + EscapeAll(s[1..])
  }

  function Quote(s: string): string {
    [QUOTE] + EscapeAll(s) + [QUOTE]
  }

  function NumberText(n: int): string {
    if n < 0 then "-" + Digits(-n) else Digits(n)
  }

  function Join(parts: seq<string>): string {
    if |parts| == 0 then ""
    else if |parts| == 1 then parts[0]
    else parts[0] + "," + Join(parts[1..])
  }

  // ---------------------------------------------------------- the encoding

  function Keys(entries: seq<(string, Json)>): seq<string> {
    seq(|entries|, i requires 0 <= i < |entries| => entries[i].0)
  }

  /** The value of property `k`. */
  function Lookup(entries: seq<(string, Json)>, k: string): (v: Json)
    ensures v == Undefined || exists i :: 0 <= i < |entries| && entries[i] == (k, v)
  {
    if entries == [] then Undefined
    else if entries[0].0 == k then entries[0].1
    else Lookup(entries[1..], k)
  }

  /** The keys among `ks` whose property is not undefined. */
  function Defined(entries: seq<(string, Json)>, ks: seq<string>): (r: seq<string>)
    ensures forall k :: k in r <==> k in ks && Lookup(entries, k) != Undefined
  {
    if ks == [] then []
    else (if Lookup(entries, ks[0]) == Undefined then [] else [ks[0]]) + Defined(entries, ks[1..])
  }

  function DefinedKeys(entries: seq<(string, Json)>): seq<string> {
    Defined(entries, Keys(entries))
  }

  function SortedKeys(entries: seq<(string, Json)>): (r: seq<string>)
    ensures forall k :: k in r <==> k in DefinedKeys(entries)
  {
    StrLeIsTotalOrder();
    SortByIsSorted(DefinedKeys(entries), StrLe);
    SortBy(DefinedKeys(entries), StrLe)
  }

  function CanonicalValue(value: Json): Result<string, CanonicalError>
    decreases value, 1, 0
  {
    match value
    case Null => Ok("null")
    case Boolean(b) => Ok(if b then "true" else "false")
    case Number(n) => Ok(NumberText(n))
    case Text(t) => Ok(Quote(t))
    case Array(items) =>
      var parts :- CanonicalItems(value, items);
      Ok("[" + Join(parts) + "]")
    case Object(entries) =>
      var parts :- CanonicalEntries(value, SortedKeys(entries));
      Ok("{" + Join(parts) + "}")
    case Undefined => Err(UnsupportedValue)
    case Opaque => Err(UnsupportedValue)
  }

  function CanonicalItems(parent: Json, items: seq<Json>): Result<seq<string>, CanonicalError>
    requires forall i :: 0 <= i < |items| ==> items[i] < parent
    decreases parent, 0, |items|
  {
    if items == [] then Ok([])
    else
      var first :- CanonicalValue(items[0]);
      var rest :- CanonicalItems(parent, items[1..]);
      Ok([first] + rest)
  }

  function CanonicalEntries(parent: Json, keys: seq<string>): Result<seq<string>, CanonicalError>
    requires parent.Object? && forall k :: k in keys ==> Lookup(parent.entries, k) != Undefined
    decreases parent, 0, |keys|
  {
    if keys == [] then Ok([])
    else
      var first :- CanonicalValue(Lookup(parent.entries, keys[0]));
      var rest :- CanonicalEntries(parent, keys[1..]);
      Ok([Quote(keys[0]) + (":" + first)] + rest)
  }

  // --------------------------------------------------------------- meaning

  /** What a value says, apart from key order and undefined properties. */
  datatype Meaning =
    | MNull
    | MBoolean(b: bool)
    | MNumber(n: int)
    | MText(t: string)
    | MArray(items: seq<Meaning>)
    | MObject(properties: map<string, Meaning>)

  /** No object has a key twice. */
  ghost predicate DistinctKeys(value: Json) {
    match value
    case Array(items) => forall item :: item in items ==> DistinctKeys(item)
    case Object(entries) => Distinct(Keys(entries)) && forall e :: e in entries ==> DistinctKeys(e.1)
    case _ => true
  }

  /** Only data, with undefined nowhere but as a property. */
  ghost predicate Supported(value: Json) {
    match value
    case Array(items) => forall item :: item in items ==> Supported(item)
    case Object(entries) => forall k :: k in DefinedKeys(entries) ==> Supported(Lookup(entries, k))
    case Undefined => false
    case Opaque => false
    case _ => true
  }

  ghost function MeaningOf(value: Json): Meaning
    requires Supported(value)
  {
    match value
    case Null => MNull
    case Boolean(b) => MBoolean(b)
    case Number(n) => MNumber(n)
    case Text(t) => MText(t)
    case Array(items) => MArray(seq(|items|, i requires 0 <= i < |items| => MeaningOf(items[i])))
    case Object(entries) =>
      MObject(map k | k in DefinedKeys(entries) :: MeaningOf(Lookup(entries, k)))
  }

  ghost function Print(m: Meaning): string
    decreases m, 1, 0
  {
    match m
    case MNull => "null"
    case MBoolean(b) => if b then "true" else "false"
    case MNumber(n) => NumberText(n)
    case MText(t) => Quote(t)
    case MArray(items) => "[" + Join(PrintItems(m, items)) + "]"
    case MObject(properties) => "{" + Join(PrintEntries(m, OrderedWithin(properties.Keys))) + "}"
  }

  ghost function PrintItems(parent: Meaning, items: seq<Meaning>): (r: seq<string>)
    requires forall i :: 0 <= i < |items| ==> items[i] < parent
    ensures |r| == |items|
    decreases parent, 0, |items|
  {
    if items == [] then [] else [Print(items[0])] + PrintItems(parent, items[1..])
  }

  ghost function PrintEntries(parent: Meaning, keys: seq<string>): (r: seq<string>)
    requires parent.MObject? && forall k :: k in keys ==> k in parent.properties
    ensures |r| == |keys|
    decreases parent, 0, |keys|
  {
    if keys == [] then []
    else [Quote(keys[0]) + (":" + Print(parent.properties[keys[0]]))] + PrintEntries(parent, keys[1..])
  }

  lemma {:induction false} DefinedIsDistinct(entries: seq<(string, Json)>, ks: seq<string>)
    requires Distinct(ks)
    ensures Distinct(Defined(entries, ks))
  {
    if ks != [] {
      DefinedIsDistinct(entries, ks[1..]);
    }
  }

  /** Sorting the defined keys in place gives the ordered key set. */
  lemma SortedKeysAreOrdered(entries: seq<(string, Json)>)
    requires Distinct(Keys(entries))
    ensures SortedKeys(entries) == OrderedWithin(set k | k in DefinedKeys(entries))
  {
    DefinedIsDistinct(entries, Keys(entries));
    SortedStrings(DefinedKeys(entries));
  }

  /** The encoding depends on the meaning alone, and fails exactly on unsupported values. */
  lemma {:induction false} CanonicalIsPrint(value: Json)
    requires DistinctKeys(value)
    ensures CanonicalValue(value) == if Supported(value) then Ok(Print(MeaningOf(value))) else Err(UnsupportedValue)
    decreases value, 2, 0
  {
    match value
    case Array(items) =>
      ItemsArePrinted(value, 0);
      assert items[0..] == items;
      assert Supported(value) <==> forall j :: 0 <= j < |items| ==> Supported(items[j]);
      if Supported(value) {
        var m := MeaningOf(value);
        assert m.items[0..] == m.items;
      }
    case Object(entries) =>
      ObjectIsPrinted(value);
    case _ =>
  }

  lemma {:induction false} ObjectIsPrinted(value: Json)
    requires value.Object? && DistinctKeys(value)
    ensures CanonicalValue(value) == if Supported(value) then Ok(Print(MeaningOf(value))) else Err(UnsupportedValue)
    decreases value, 1, 0
  {
    hide SortBy, Distinct, SortedBy, Join, Defined, Ordered, Keys, Lookup, Quote;
    var keys := SortedKeys(value.entries);
    EntriesArePrinted(value, keys);
    if Supported(value) {
      SortedKeysAreOrdered(value.entries);
      assert MeaningOf(value).properties.Keys == set k | k in DefinedKeys(value.entries);
    }
  }

  lemma {:induction false} ItemsArePrinted(value: Json, i: nat)
    requires value.Array? && i <= |value.items| && DistinctKeys(value)
    ensures (forall j :: i <= j < |value.items| ==> Supported(value.items[j])) ==>
              CanonicalItems(value, value.items[i..]).Ok?
    ensures Supported(value) ==>
              CanonicalItems(value, value.items[i..]) == Ok(PrintItems(MeaningOf(value), MeaningOf(value).items[i..]))
    ensures !(forall j :: i <= j < |value.items| ==> Supported(value.items[j])) ==>
              CanonicalItems(value, value.items[i..]) == Err(UnsupportedValue)
    decreases value, 0, |value.items| - i
  {
    if i < |value.items| {
      assert value.items[i] in value.items;
      CanonicalIsPrint(value.items[i]);
      ItemsArePrinted(value, i + 1);
      assert value.items[i..][1..] == value.items[i + 1..];
      if Supported(value) {
        var items := MeaningOf(value).items;
        assert items[i..][1..] == items[i + 1..];
      }
    }
  }

  lemma {:induction false} EntriesArePrinted(value: Json, keys: seq<string>)
    requires value.Object? && DistinctKeys(value)
    requires forall k :: k in keys ==> k in DefinedKeys(value.entries) && Lookup(value.entries, k) != Undefined
    ensures if forall k :: k in keys ==> Supported(Lookup(value.entries, k)) then
              && CanonicalEntries(value, keys).Ok?
              && (Supported(value) ==> CanonicalEntries(value, keys) == Ok(PrintEntries(MeaningOf(value), keys)))
            else CanonicalEntries(value, keys) == Err(UnsupportedValue)
    decreases value, 0, |keys|
  {
    if keys != [] {
      var property := Lookup(value.entries, keys[0]);
      assert keys[0] in keys;
      assert property < value && DistinctKeys(property);
      CanonicalIsPrint(property);
      EntriesArePrinted(value, keys[1..]);
    }
  }

  // ------------------------------------------------------------ injectivity

  /** What may follow a value inside a canonical text. */
  ghost predicate Delimited(r: string) {
    r == "" || r[0] in {',', ']', '}'}
  }

  lemma EscapesDiffer(c: char, d: char, x: string, y: string)
    requires EscapeChar(c) + x == EscapeChar(d) + y
    ensures c == d && x == y
  {
    var u, v := EscapeChar(c) + x, EscapeChar(d) + y;
    assert u[0] == EscapeChar(c)[0] && v[0] == EscapeChar(d)[0];
    assert |EscapeChar(c)| > 1 && |EscapeChar(d)| > 1 ==> u[1] == EscapeChar(c)[1] && v[1] == EscapeChar(d)[1];
    if |EscapeChar(c)| == 6 && |EscapeChar(d)| == 6 {
      assert u[4] == EscapeChar(c)[4] && v[4] == EscapeChar(d)[4];
      assert u[5] == EscapeChar(c)[5] && v[5] == EscapeChar(d)[5];
    }
    assert c == d;
    assert u[|EscapeChar(c)|..] == x && v[|EscapeChar(c)|..] == y;
  }

  lemma {:induction false} EscapedIsInjective(a: string, b: string, r: string, s: string)
    requires EscapeAll(a) + [QUOTE] + r == EscapeAll(b) + [QUOTE] + s
    ensures a == b && r == s
    decreases |a| + |b|
  {
    hide EscapeChar;
    var u, v := EscapeAll(a) + [QUOTE] + r, EscapeAll(b) + [QUOTE] + s;
    EscapedStart(a, r);
    EscapedStart(b, s);
    if a == "" {
      assert u[1..] == r && v[1..] == s;
    } else {
      var x, y := EscapeAll(a[1..]) + [QUOTE] + r, EscapeAll(b[1..]) + [QUOTE] + s;
      assert u == EscapeChar(a[0]) + x && v == EscapeChar(b[0]) + y;
      EscapesDiffer(a[0], b[0], x, y);
      EscapedIsInjective(a[1..], b[1..], r, s);
      assert a == [a[0]] + a[1..] && b == [b[0]] + b[1..];
    }
  }

  /** A quote ends the string: escapes never start with one. */
  lemma EscapedStart(a: string, r: string)
    ensures (EscapeAll(a) + [QUOTE] + r)[0] == QUOTE <==> a == ""
  {
    if a != "" {
      assert (EscapeAll(a) + [QUOTE] + r)[0] == EscapeChar(a[0])[0];
    }
  }

  lemma QuoteIsInjective(a: string, b: string, r: string, s: string)
    requires Quote(a) + r == Quote(b) + s
    ensures a == b && r == s
  {
    var u, v := Quote(a) + r, Quote(b) + s;
    assert u[1..] == EscapeAll(a) + [QUOTE] + r && v[1..] == EscapeAll(b) + [QUOTE] + s;
    EscapedIsInjective(a, b, r, s);
  }

  lemma NumberTextIsInjective(m: int, n: int, r: string, s: string)
    requires NumberText(m) + r == NumberText(n) + s && Delimited(r) && Delimited(s)
    ensures m == n && r == s
  {
    hide Digits, Delimited, AllDigits;
    SameStart(NumberText(m), r, NumberText(n), s);
    NumberStart(m);
    NumberStart(n);
    if m < 0 {
      DropFirst('-', Digits(-m), r);
      DropFirst('-', Digits(-n), s);
      DigitsAreInjective(-m, -n, r, s);
    } else {
      DigitsAreInjective(m, n, r, s);
    }
  }

  lemma SameStart(x: string, r: string, y: string, s: string)
    requires x != "" && y != "" && x + r == y + s
    ensures x[0] == y[0]
  {
    assert (x + r)[0] == x[0] && (y + s)[0] == y[0];
  }

  lemma DropFirst(c: char, x: string, r: string)
    ensures ([c] + x + r)[1..] == x + r
  {
  }

  lemma NumberStart(n: int)
    ensures NumberText(n)[0] == '-' <==> n < 0
  {
    hide Digits;
    assert n >= 0 ==> IsDigit(Digits(n)[0]);
  }

  lemma DigitsAreInjective(m: nat, n: nat, r: string, s: string)
    requires Digits(m) + r == Digits(n) + s && Delimited(r) && Delimited(s)
    ensures m == n && r == s
  {
    hide Digits;
    RunOfDigits(Digits(m), r);
    RunOfDigits(Digits(n), s);
    var u, k := Digits(m) + r, |Digits(m)|;
    assert u[..k] == Digits(m) && u[..k] == Digits(n);
    NumberOfDigits(m);
    NumberOfDigits(n);
    assert u[k..] == r && u[k..] == s;
  }

  /** The first character of a printed value tells its kind. */
  lemma FirstCharacter(m: Meaning)
    ensures Print(m) != ""
    ensures var c := Print(m)[0];
            && (m.MNull? <==> c == 'n') && (m.MText? <==> c == QUOTE)
            && (m.MArray? <==> c == '[') && (m.MObject? <==> c == '{')
            && (m.MNumber? <==> c == '-' || IsDigit(c))
            && (m == MBoolean(true) <==> c == 't') && (m == MBoolean(false) <==> c == 'f')
            && c !in {',', ']', '}'}
  {
    hide Digits;
  }

  lemma {:induction false} PrintIsInjective(a: Meaning, b: Meaning, r: string, s: string)
    requires Print(a) + r == Print(b) + s && Delimited(r) && Delimited(s)
    ensures a == b && r == s
    decreases a, 2, 0
  {
    FirstCharacter(a);
    FirstCharacter(b);
    var u, v := Print(a) + r, Print(b) + s;
    assert u[0] == Print(a)[0] && v[0] == Print(b)[0];
    match a
    case MNumber(n) => NumberTextIsInjective(n, b.n, r, s);
    case MText(t) => QuoteIsInjective(t, b.t, r, s);
    case MArray(items) => ArrayIsInjective(a, b, r, s);
    case MObject(properties) => ObjectIsInjective(a, b, r, s);
    case _ =>
      assert Print(a) == Print(b);
      assert u[|Print(a)|..] == r && v[|Print(a)|..] == s;
  }

  lemma Unbracket(open: string, x: string, y: string, close: string, r: string, s: string)
    requires |open| == 1 && |close| == 1 && open + x + close + r == open + y + close + s
    ensures x + (close + r) == y + (close + s)
  {
    assert (open + x + close + r)[1..] == x + (close + r);
    assert (open + y + close + s)[1..] == y + (close + s);
  }

  lemma {:induction false} ArrayIsInjective(a: Meaning, b: Meaning, r: string, s: string)
    requires a.MArray? && b.MArray? && Print(a) + r == Print(b) + s
    ensures a == b && r == s
    decreases a, 1, 0
  {
    hide Join;
    var x, y := Join(PrintItems(a, a.items)), Join(PrintItems(b, b.items));
    Unbracket("[", x, y, "]", r, s);
    ItemsAreInjective(a, b, a.items, b.items, "]" + r, "]" + s);
    assert ("]" + r)[1..] == r && ("]" + s)[1..] == s;
  }

  lemma {:induction false} ItemsAreInjective(a: Meaning, b: Meaning, x: seq<Meaning>, y: seq<Meaning>, r: string, s: string)
    requires (forall i :: 0 <= i < |x| ==> x[i] < a) && (forall i :: 0 <= i < |y| ==> y[i] < b)
    requires r != "" && s != "" && r[0] == s[0] == ']'
    requires Join(PrintItems(a, x)) + r == Join(PrintItems(b, y)) + s
    ensures x == y && r == s
    decreases a, 0, |x|
  {
    ItemsStart(a, x, r);
    ItemsStart(b, y, s);
    if x == [] {
      assert "" + r == r && "" + s == s;
    } else {
      var xs, ys := x[1..], y[1..];
      var p := if xs == [] then r else "," + (Join(PrintItems(a, xs)) + r);
      var q := if ys == [] then s else "," + (Join(PrintItems(b, ys)) + s);
      JoinedFirst(PrintItems(a, x), r);
      JoinedFirst(PrintItems(b, y), s);
      PrintIsInjective(x[0], y[0], p, q);
      assert x == [x[0]] + xs && y == [y[0]] + ys;
      if xs != [] && ys != [] {
        assert p[1..] == Join(PrintItems(a, xs)) + r && q[1..] == Join(PrintItems(b, ys)) + s;
        ItemsAreInjective(a, b, xs, ys, r, s);
      }
    }
  }

  /** An empty list starts with its bracket, any other does not. */
  lemma ItemsStart(a: Meaning, x: seq<Meaning>, r: string)
    requires (forall i :: 0 <= i < |x| ==> x[i] < a) && r != "" && r[0] == ']'
    ensures Join(PrintItems(a, x)) + r != "" && ((Join(PrintItems(a, x)) + r)[0] == ']' <==> x == [])
  {
    if x != [] {
      FirstCharacter(x[0]);
      JoinedFirst(PrintItems(a, x), r);
    }
  }

  lemma EntriesStart(a: Meaning, ks: seq<string>, r: string)
    requires a.MObject? && (forall k :: k in ks ==> k in a.properties) && r != "" && r[0] == '}'
    ensures Join(PrintEntries(a, ks)) + r != "" && ((Join(PrintEntries(a, ks)) + r)[0] == '}' <==> ks == [])
  {
    if ks != [] {
      JoinedFirst(PrintEntries(a, ks), r);
    }
  }

  lemma JoinedFirst(parts: seq<string>, r: string)
    requires parts != []
    ensures Join(parts) + r == parts[0] + (if |parts| == 1 then r else "," + (Join(parts[1..]) + r))
  {
    if |parts| > 1 {
      assert Join(parts) + r == parts[0] + ("," + (Join(parts[1..]) + r));
    }
  }

  lemma {:induction false} ObjectIsInjective(a: Meaning, b: Meaning, r: string, s: string)
    requires a.MObject? && b.MObject? && Print(a) + r == Print(b) + s
    ensures a == b && r == s
    decreases a, 1, 0
  {
    hide Join, Ordered;
    var ks, ls := OrderedWithin(a.properties.Keys), OrderedWithin(b.properties.Keys);
    Unbracket("{", Join(PrintEntries(a, ks)), Join(PrintEntries(b, ls)), "}", r, s);
    EntriesAreInjective(a, b, ks, ls, "}" + r, "}" + s);
    assert ("}" + r)[1..] == r && ("}" + s)[1..] == s;
    SameProperties(a.properties, b.properties, ks);
  }

  lemma SameProperties(p: map<string, Meaning>, q: map<string, Meaning>, ks: seq<string>)
    requires forall k :: k in ks <==> k in p
    requires forall k :: k in ks <==> k in q
    requires forall k :: k in ks ==> p[k] == q[k]
    ensures p == q
  {
    assert p.Keys == q.Keys;
  }

  lemma {:induction false} EntriesAreInjective(a: Meaning, b: Meaning, ks: seq<string>, ls: seq<string>, r: string, s: string)
    requires a.MObject? && b.MObject?
    requires (forall k :: k in ks ==> k in a.properties) && (forall k :: k in ls ==> k in b.properties)
    requires r != "" && s != "" && r[0] == s[0] == '}'
    requires Join(PrintEntries(a, ks)) + r == Join(PrintEntries(b, ls)) + s
    ensures ks == ls && r == s
    ensures forall k :: k in ks ==> a.properties[k] == b.properties[k]
    decreases a, 0, |ks|
  {
    EntriesStart(a, ks, r);
    EntriesStart(b, ls, s);
    if ks == [] {
      assert "" + r == r && "" + s == s;
    } else {
      var xs, ys := ks[1..], ls[1..];
      var p := if xs == [] then r else "," + (Join(PrintEntries(a, xs)) + r);
      var q := if ys == [] then s else "," + (Join(PrintEntries(b, ys)) + s);
      var x, y := a.properties[ks[0]], b.properties[ls[0]];
      JoinedFirst(PrintEntries(a, ks), r);
      JoinedFirst(PrintEntries(b, ls), s);
      EntryIsInjective(ks[0], ls[0], Print(x), Print(y), p, q);
      PrintIsInjective(x, y, p, q);
      assert ks == [ks[0]] + xs && ls == [ls[0]] + ys;
      if xs != [] && ys != [] {
        assert p[1..] == Join(PrintEntries(a, xs)) + r && q[1..] == Join(PrintEntries(b, ys)) + s;
        EntriesAreInjective(a, b, xs, ys, r, s);
      }
    }
  }

  lemma EntryIsInjective(k: string, l: string, x: string, y: string, p: string, q: string)
    requires (Quote(k) + (":" + x)) + p == (Quote(l) + (":" + y)) + q
    ensures k == l && x + p == y + q
  {
    hide Quote;
    var u, v := ":" + (x + p), ":" + (y + q);
    assert (Quote(k) + (":" + x)) + p == Quote(k) + u && (Quote(l) + (":" + y)) + q == Quote(l) + v;
    QuoteIsInjective(k, l, u, v);
    assert u[1..] == x + p && v[1..] == y + q;
  }

  /**
   * Two values have the same canonical text exactly when they say the same: key order and
   * undefined properties never matter, and nothing else is lost.
   */
  lemma CanonicalDecidesMeaning(a: Json, b: Json)
    requires DistinctKeys(a) && DistinctKeys(b) && Supported(a) && Supported(b)
    ensures CanonicalValue(a).Ok? && CanonicalValue(b).Ok?
    ensures CanonicalValue(a) == CanonicalValue(b) <==> MeaningOf(a) == MeaningOf(b)
  {
    CanonicalIsPrint(a);
    CanonicalIsPrint(b);
    if CanonicalValue(a) == CanonicalValue(b) {
      assert Print(MeaningOf(a)) + "" == Print(MeaningOf(b)) + "";
      PrintIsInjective(MeaningOf(a), MeaningOf(b), "", "");
    }
  }

  lemma {:induction false} LookupAt(entries: seq<(string, Json)>, i: nat)
    requires i < |entries| && Distinct(Keys(entries))
    ensures Lookup(entries, entries[i].0) == entries[i].1
  {
    if i > 0 {
      assert Keys(entries)[0] == entries[0].0 && Keys(entries)[i] == entries[i].0;
      assert Keys(entries[1..]) == Keys(entries)[1..];
      LookupAt(entries[1..], i - 1);
    }
  }

  /** Every property is data. */
  ghost predicate AllSupported(entries: seq<(string, Json)>) {
    forall i :: 0 <= i < |entries| ==> Supported(entries[i].1)
  }

  lemma RecordLookups(entries: seq<(string, Json)>)
    requires Distinct(Keys(entries)) && AllSupported(entries)
    ensures forall i :: 0 <= i < |entries| ==> Lookup(entries, Keys(entries)[i]) == entries[i].1
    ensures forall k :: k in Keys(entries) ==> Supported(Lookup(entries, k))
  {
    hide Lookup, Defined, Distinct, Supported;
    forall i | 0 <= i < |entries|
      ensures Lookup(entries, Keys(entries)[i]) == entries[i].1
    {
      LookupAt(entries, i);
    }
    forall k | k in Keys(entries)
      ensures Supported(Lookup(entries, k))
    {
      var i :| 0 <= i < |entries| && Keys(entries)[i] == k;
    }
  }

  lemma RecordIsDefined(entries: seq<(string, Json)>)
    requires forall k :: k in Keys(entries) ==> Supported(Lookup(entries, k))
    ensures forall k :: k in DefinedKeys(entries) <==> k in Keys(entries)
    ensures Supported(Object(entries))
  {
    hide Lookup, Keys;
  }

  /** What an object with defined keys means, property by property. */
  lemma ObjectMeaning(entries: seq<(string, Json)>)
    requires Supported(Object(entries))
    ensures MeaningOf(Object(entries)).MObject?
    ensures forall k :: k in MeaningOf(Object(entries)).properties <==> k in DefinedKeys(entries)
    ensures forall k :: k in DefinedKeys(entries) ==>
              Supported(Lookup(entries, k)) && MeaningOf(Object(entries)).properties[k] == MeaningOf(Lookup(entries, k))
  {
    hide Lookup, Keys;
  }

  lemma RecordProperties(entries: seq<(string, Json)>)
    requires Distinct(Keys(entries)) && AllSupported(entries)
    ensures Supported(Object(entries))
    ensures MeaningOf(Object(entries)).properties.Keys == set k | k in Keys(entries)
    ensures forall i :: 0 <= i < |entries| ==>
              MeaningOf(Object(entries)).properties[Keys(entries)[i]] == MeaningOf(entries[i].1)
  {
    RecordLookups(entries);
    RecordIsDefined(entries);
    ObjectMeaning(entries);
    hide Lookup, Defined, Distinct, DefinedKeys, MeaningOf, Supported, Keys;
    assert |Keys(entries)| == |entries|;
    var p := MeaningOf(Object(entries)).properties;
    forall i | 0 <= i < |entries|
      ensures Keys(entries)[i] in p && p[Keys(entries)[i]] == MeaningOf(entries[i].1)
    {
      assert Keys(entries)[i] in Keys(entries);
    }
  }

  /** Records with the same keys mean the same when their properties do. */
  lemma RecordMeaning(a: seq<(string, Json)>, b: seq<(string, Json)>)
    requires Keys(a) == Keys(b) && Distinct(Keys(a)) && AllSupported(a) && AllSupported(b)
    ensures |a| == |b| && Supported(Object(a)) && Supported(Object(b))
    ensures MeaningOf(Object(a)) == MeaningOf(Object(b)) <==>
            forall i :: 0 <= i < |a| ==> MeaningOf(a[i].1) == MeaningOf(b[i].1)
  {
    hide Lookup, Defined, Distinct;
    RecordProperties(a);
    RecordProperties(b);
    assert |Keys(a)| == |a| && |Keys(b)| == |b|;
    KeyedMaps(MeaningOf(Object(a)).properties, MeaningOf(Object(b)).properties, Keys(a),
              seq(|a|, i requires 0 <= i < |a| => MeaningOf(a[i].1)), seq(|b|, i requires 0 <= i < |b| => MeaningOf(b[i].1)));
  }

  lemma KeyedMaps(p: map<string, Meaning>, q: map<string, Meaning>, ks: seq<string>, x: seq<Meaning>, y: seq<Meaning>)
    requires p.Keys == q.Keys == (set k | k in ks) && |ks| == |x| == |y|
    requires forall i :: 0 <= i < |ks| ==> p[ks[i]] == x[i] && q[ks[i]] == y[i]
    ensures p == q <==> forall i :: 0 <= i < |x| ==> x[i] == y[i]
  {
    if forall i :: 0 <= i < |x| ==> x[i] == y[i] {
      forall k | k in p
        ensures p[k] == q[k]
      {
        var i :| 0 <= i < |ks| && ks[i] == k;
      }
      assert p == q;
    } else {
      var i :| 0 <= i < |x| && x[i] != y[i];
      assert p[ks[i]] != q[ks[i]];
    }
  }
}
