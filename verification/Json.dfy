/** Compact JSON with sorted keys, as Go's encoding/json writes map[string]any with HTML escaping off
    (strings per section 7 of RFC 8259), and the proof that the text determines the value. */
module Json {
  import opened GoStrings

  datatype Value =
    | Null
    | Number(n: int)
    | String(s: string)
    | Array(items: seq<string>)
    | Object(fields: map<string, Value>)

  // ---- Sorted keys

  ghost predicate Sorted(keys: seq<string>)
  {
    forall i, j :: 0 <= i < j < |keys| ==> Compare(keys[i], keys[j]) < 0
  }

  ghost predicate IsSortingOf(keys: seq<string>, domain: set<string>)
  {
    Sorted(keys) && forall k :: k in keys <==> k in domain
  }

  lemma {:induction false} LeastExists(domain: set<string>) returns (least: string)
    requires domain != {}
    ensures least in domain && forall k :: k in domain ==> Compare(least, k) <= 0
  {
    least :| least in domain;
    CompareTotal(least, least);
    if domain != {least} {
      var other := LeastExists(domain - {least});
      CompareTotal(other, least);
      if Compare(other, least) < 0 {
        least := other;
      } else {
        forall k | k in domain ensures Compare(least, k) <= 0 {
          if k != least { CompareTransitive(least, other, k); }
        }
      }
    }
  }

  lemma LeastIsUnique(domain: set<string>, a: string, b: string)
    requires a in domain && forall k :: k in domain ==> Compare(a, k) <= 0
    requires b in domain && forall k :: k in domain ==> Compare(b, k) <= 0
    ensures a == b
  {
    CompareTotal(a, b);
  }

  ghost function Least(domain: set<string>): (least: string)
    requires domain != {}
    ensures least in domain && forall k :: k in domain ==> Compare(least, k) <= 0
  {
    assert exists least :: least in domain && forall k :: k in domain ==> Compare(least, k) <= 0 by {
      var least := LeastExists(domain);
    }
    var least :| least in domain && forall k :: k in domain ==> Compare(least, k) <= 0;
    least
  }

  ghost function SortedKeys(domain: set<string>): (keys: seq<string>)
    ensures forall k :: k in keys <==> k in domain
  {
    if domain == {} then []
    else
      var least := Least(domain);
      [least] + SortedKeys(domain - {least})
  }

  lemma {:induction false} SortedKeysSorts(domain: set<string>)
    ensures IsSortingOf(SortedKeys(domain), domain)
  {
    if domain != {} {
      var least := Least(domain);
      var rest := SortedKeys(domain - {least});
      SortedKeysSorts(domain - {least});
      forall k | k in rest ensures Compare(least, k) < 0 { CompareTotal(least, k); }
    }
  }

  /** There is one sorting of a key set, so whatever order a map gives its keys in, sorting them gives this one. */
  lemma {:induction false} SortingIsUnique(keys: seq<string>, domain: set<string>)
    requires IsSortingOf(keys, domain)
    ensures keys == SortedKeys(domain)
  {
    var canonical := SortedKeys(domain);
    SortedKeysSorts(domain);
    if keys == [] {
      assert domain == {} by { assert forall k :: k !in domain; }
    } else {
      var first, rest := keys[0], keys[1..];
      assert first in domain;
      assert canonical != [];
      LeastOfSorting(keys, domain);
      LeastOfSorting(canonical, domain);
      LeastIsUnique(domain, first, canonical[0]);
      CompareTotal(first, first);
      assert IsSortingOf(rest, domain - {first}) by { RestOfSorting(keys, domain); }
      assert IsSortingOf(canonical[1..], domain - {first}) by { RestOfSorting(canonical, domain); }
      SortingIsUnique(rest, domain - {first});
      SortingIsUnique(canonical[1..], domain - {first});
      assert keys == [first] + rest && canonical == [first] + canonical[1..];
    }
  }

  lemma LeastOfSorting(keys: seq<string>, domain: set<string>)
    requires IsSortingOf(keys, domain) && keys != []
    ensures keys[0] in domain && forall k :: k in domain ==> Compare(keys[0], k) <= 0
  {
    CompareTotal(keys[0], keys[0]);
  }

  lemma RestOfSorting(keys: seq<string>, domain: set<string>)
    requires IsSortingOf(keys, domain) && keys != []
    ensures IsSortingOf(keys[1..], domain - {keys[0]})
  {
    CompareTotal(keys[0], keys[0]);
    assert keys == [keys[0]] + keys[1..];
  }

  // ---- Strings

  function HexDigit(d: nat): (c: char)
    requires d < 16
    ensures c != '"'
  {
    "0123456789abcdef"[d]
  }

  function EscapeChar(c: char): (e: string)
    ensures e != [] && e[0] != '"'
  {
    if c == '"' || c == '\\' then ['\\', c]
    else if c == '\U{0008}' then "\\b"
    else if c == '\U{000C}' then "\\f"
    else if c == '\n' then "\\n"
    else if c == '\r' then "\\r"
    else if c == '\t' then "\\t"
    else if c < ' ' then ['\\', 'u', '0', '0', HexDigit(c as int / 16), HexDigit(c as int % 16)]
    else if c == '\U{2028}' then "\\u2028"
    else if c == '\U{2029}' then "\\u2029"
    else [c]
  }

  /** A character is escaped only if it must be, or would end a line of JavaScript, and then with two characters where
      there is such an escape, else with six, in lower-case hex. */
  lemma EscapesAreShort(c: char)
    ensures
      var e, code := EscapeChar(c), c as int;
      if c in {'"', '\\'} || code in {8, 9, 10, 12, 13} then |e| == 2
      else if code < 32 || code == 0x2028 || code == 0x2029 then
        |e| == 6 && forall k :: 2 <= k < 6 ==> IsDigit(e[k]) || 'a' <= e[k] <= 'f'
      else e == [c]
  {
  }

  /** The characters of a string and its closing quote. */
  function Escaped(s: string): string
  {
    if s == [] then "\"" else EscapeChar(s[0]) + Escaped(s[1..])
  }

  function Quoted(s: string): string { "\"" + Escaped(s) }

  lemma HexDigitInjective(a: nat, b: nat)
    requires a < 16 && b < 16 && HexDigit(a) == HexDigit(b)
    ensures a == b
  {
  }

  lemma EscapeCharPrefixFree(c: char, d: char, x: string, y: string)
    requires EscapeChar(c) + x == EscapeChar(d) + y
    ensures c == d && x == y
  {
    var e, f := EscapeChar(c), EscapeChar(d);
    assert (e + x)[0] == e[0] && (f + y)[0] == f[0];
    if |e| > 1 && |f| > 1 {
      assert (e + x)[1] == e[1] && (f + y)[1] == f[1];
      if |e| == 6 && |f| == 6 {
        assert (e + x)[2] == e[2] && (f + y)[2] == f[2];
        assert (e + x)[4] == e[4] && (f + y)[4] == f[4];
        assert (e + x)[5] == e[5] && (f + y)[5] == f[5];
        if c < ' ' && d < ' ' {
          HexDigitInjective(c as int / 16, d as int / 16);
          HexDigitInjective(c as int % 16, d as int % 16);
        }
      }
    }
    CancelPrefix(e, x, y);
  }

  lemma EscapedHead(s: string, x: string)
    ensures (Escaped(s) + x)[0] == '"' <==> s == []
  {
    if s != [] { assert (Escaped(s) + x)[0] == EscapeChar(s[0])[0]; }
  }

  lemma {:induction false} EscapedPrefixFree(s: string, t: string, x: string, y: string)
    requires Escaped(s) + x == Escaped(t) + y
    ensures s == t && x == y
  {
    EscapedHead(s, x);
    EscapedHead(t, y);
    if s == [] {
      CancelPrefix("\"", x, y);
    } else {
      Regroup(EscapeChar(s[0]), Escaped(s[1..]), x);
      Regroup(EscapeChar(t[0]), Escaped(t[1..]), y);
      EscapeCharPrefixFree(s[0], t[0], Escaped(s[1..]) + x, Escaped(t[1..]) + y);
      EscapedPrefixFree(s[1..], t[1..], x, y);
      assert s == [s[0]] + s[1..] && t == [t[0]] + t[1..];
    }
  }

  lemma QuotedPrefixFree(s: string, t: string, x: string, y: string)
    requires Quoted(s) + x == Quoted(t) + y
    ensures s == t && x == y
  {
    Regroup("\"", Escaped(s), x);
    Regroup("\"", Escaped(t), y);
    CancelPrefix("\"", Escaped(s) + x, Escaped(t) + y);
    EscapedPrefixFree(s, t, x, y);
  }

  // ---- Numbers

  function Integer(n: int): (s: string)
    ensures s != [] && (IsDigit(s[0]) || s[0] == '-')
  {
    if n < 0 then "-" + Decimal(-n) else Decimal(n)
  }

  /** What follows a number never continues it. */
  predicate NoDigitNext(rest: string) { rest == [] || !IsDigit(rest[0]) }

  lemma DigitsPrefixFree(a: string, b: string, x: string, y: string)
    requires AllDigits(a) && AllDigits(b) && a + x == b + y && NoDigitNext(x)
    ensures |b| <= |a|
  {
    assert x != [] ==> (a + x)[|a|] == x[0];
  }

  lemma DecimalPrefixFree(m: nat, n: nat, x: string, y: string)
    requires Decimal(m) + x == Decimal(n) + y && NoDigitNext(x) && NoDigitNext(y)
    ensures m == n && x == y
  {
    var a, b := Decimal(m), Decimal(n);
    DigitsPrefixFree(a, b, x, y);
    DigitsPrefixFree(b, a, y, x);
    assert a == (a + x)[..|a|] && b == (b + y)[..|b|];
    CancelPrefix(a, x, y);
    ValueOfDecimal(m);
    ValueOfDecimal(n);
  }

  lemma IntegerHead(n: int, x: string)
    ensures (Integer(n) + x)[0] == Integer(n)[0]
    ensures n < 0 <==> Integer(n)[0] == '-'
  {
  }

  lemma IntegerPrefixFree(m: int, n: int, x: string, y: string)
    requires Integer(m) + x == Integer(n) + y && NoDigitNext(x) && NoDigitNext(y)
    ensures m == n && x == y
  {
    IntegerHead(m, x);
    IntegerHead(n, y);
    if m < 0 {
      Regroup("-", Decimal(-m), x);
      Regroup("-", Decimal(-n), y);
      CancelPrefix("-", Decimal(-m) + x, Decimal(-n) + y);
      DecimalPrefixFree(-m, -n, x, y);
    } else {
      DecimalPrefixFree(m, n, x, y);
    }
  }

  // ---- Values

  /** Items `i` onward of an array of strings, and its closing bracket. */
  function ItemsFrom(items: seq<string>, i: nat): string
    decreases |items| - i
  {
    if i >= |items| then "]"
    else (if i == 0 then "" else ",") + Quoted(items[i]) + ItemsFrom(items, i + 1)
  }

  /** Fields `i` onward of an object whose keys are `keys`, and its closing brace. */
  ghost function FieldsFrom(v: Value, keys: seq<string>, i: nat): string
    requires v.Object? && forall k :: k in keys ==> k in v.fields
    decreases v, 0, |keys| - i
  {
    if i >= |keys| then "}"
    else (if i == 0 then "" else ",") + Quoted(keys[i]) + ":" + Encode(v.fields[keys[i]]) + FieldsFrom(v, keys, i + 1)
  }

  ghost function Encode(v: Value): (text: string)
    ensures text != []
    decreases v, 1
  {
    match v
    case Null => "null"
    case Number(n) => Integer(n)
    case String(s) => Quoted(s)
    case Array(items) => "[" + ItemsFrom(items, 0)
    case Object(fields) => "{" + FieldsFrom(v, SortedKeys(fields.Keys), 0)
  }

  // ---- The text determines the value

  lemma EncodeHead(v: Value, rest: string)
    ensures (Encode(v) + rest)[0] == Encode(v)[0]
    ensures var c := Encode(v)[0];
      match v
      case Null => c == 'n'
      case Number(_) => IsDigit(c) || c == '-'
      case String(_) => c == '"'
      case Array(_) => c == '['
      case Object(_) => c == '{'
  {
  }

  /** Either text continues with the next item or field, or it is the closing bracket: what follows tells which. */
  lemma ItemsHead(items: seq<string>, i: nat, rest: string)
    ensures (ItemsFrom(items, i) + rest)[0] == (if i >= |items| then ']' else if i == 0 then '"' else ',')
  {
    if i < |items| {
      var lead := (if i == 0 then "" else ",") + Quoted(items[i]);
      assert lead[0] == if i == 0 then '"' else ',';
    }
  }

  lemma ItemsUnfold(items: seq<string>, i: nat, rest: string)
    requires i < |items|
    ensures ItemsFrom(items, i) + rest ==
      (if i == 0 then "" else ",") + (Quoted(items[i]) + (ItemsFrom(items, i + 1) + rest))
  {
    var comma, item, tail := if i == 0 then "" else ",", Quoted(items[i]), ItemsFrom(items, i + 1);
    Regroup(comma + item, tail, rest);
    Regroup(comma, item, tail + rest);
  }

  lemma {:induction false} ItemsPrefixFree(a: seq<string>, b: seq<string>, i: nat, x: string, y: string)
    requires i <= |a| && i <= |b|
    requires ItemsFrom(a, i) + x == ItemsFrom(b, i) + y
    ensures |a| == |b| && x == y
    ensures forall j :: i <= j < |a| ==> a[j] == b[j]
    decreases |a| - i
  {
    ItemsHead(a, i, x);
    ItemsHead(b, i, y);
    if i == |a| {
      CancelPrefix("]", x, y);
    } else {
      var comma := if i == 0 then "" else ",";
      var restA, restB := ItemsFrom(a, i + 1) + x, ItemsFrom(b, i + 1) + y;
      ItemsUnfold(a, i, x);
      ItemsUnfold(b, i, y);
      CancelPrefix(comma, Quoted(a[i]) + restA, Quoted(b[i]) + restB);
      QuotedPrefixFree(a[i], b[i], restA, restB);
      ItemsPrefixFree(a, b, i + 1, x, y);
    }
  }

  lemma FieldsHead(v: Value, keys: seq<string>, i: nat, rest: string)
    requires v.Object? && forall k :: k in keys ==> k in v.fields
    ensures (FieldsFrom(v, keys, i) + rest)[0] == (if i >= |keys| then '}' else if i == 0 then '"' else ',')
  {
    if i < |keys| {
      var lead := (if i == 0 then "" else ",") + Quoted(keys[i]);
      assert lead[0] == if i == 0 then '"' else ',';
    }
  }

  /** How FieldsFrom starts: comma, key, colon, value, the rest. */
  lemma FieldsUnfold(v: Value, keys: seq<string>, i: nat, rest: string)
    requires v.Object? && (forall k :: k in keys ==> k in v.fields) && i < |keys|
    ensures FieldsFrom(v, keys, i) + rest ==
      (if i == 0 then "" else ",")
        + (Quoted(keys[i]) + (":" + (Encode(v.fields[keys[i]]) + (FieldsFrom(v, keys, i + 1) + rest))))
  {
    var comma, key := if i == 0 then "" else ",", Quoted(keys[i]);
    var value, tail := Encode(v.fields[keys[i]]), FieldsFrom(v, keys, i + 1);
    Regroup(comma + key + ":" + value, tail, rest);
    Regroup(comma + key + ":", value, tail + rest);
    Regroup(comma + key, ":", value + (tail + rest));
    Regroup(comma, key, ":" + (value + (tail + rest)));
  }

  lemma KeyPrefixFree(comma: string, k: string, l: string, x: string, y: string)
    requires comma + (Quoted(k) + (":" + x)) == comma + (Quoted(l) + (":" + y))
    ensures k == l && x == y
  {
    CancelPrefix(comma, Quoted(k) + (":" + x), Quoted(l) + (":" + y));
    QuotedPrefixFree(k, l, ":" + x, ":" + y);
    CancelPrefix(":", x, y);
  }

  lemma {:induction false} FirstFieldPrefixFree(
    v: Value, ks: seq<string>, w: Value, ls: seq<string>, i: nat, x: string, y: string)
    requires v.Object? && (forall k :: k in ks ==> k in v.fields) && i < |ks|
    requires w.Object? && (forall k :: k in ls ==> k in w.fields) && i < |ls|
    requires FieldsFrom(v, ks, i) + x == FieldsFrom(w, ls, i) + y
    ensures ks[i] == ls[i] && v.fields[ks[i]] == w.fields[ls[i]]
    ensures FieldsFrom(v, ks, i + 1) + x == FieldsFrom(w, ls, i + 1) + y
    decreases v, 0
  {
    FieldsUnfold(v, ks, i, x);
    FieldsUnfold(w, ls, i, y);
    var a, b := v.fields[ks[i]], w.fields[ls[i]];
    var tailV, tailW := FieldsFrom(v, ks, i + 1) + x, FieldsFrom(w, ls, i + 1) + y;
    KeyPrefixFree(if i == 0 then "" else ",", ks[i], ls[i], Encode(a) + tailV, Encode(b) + tailW);
    FieldsHead(v, ks, i + 1, x);
    FieldsHead(w, ls, i + 1, y);
    EncodePrefixFree(a, b, tailV, tailW);
  }

  lemma {:induction false} FieldsPrefixFree(
    v: Value, ks: seq<string>, w: Value, ls: seq<string>, i: nat, x: string, y: string)
    requires v.Object? && (forall k :: k in ks ==> k in v.fields)
    requires w.Object? && (forall k :: k in ls ==> k in w.fields)
    requires i <= |ks| && i <= |ls|
    requires FieldsFrom(v, ks, i) + x == FieldsFrom(w, ls, i) + y
    ensures |ks| == |ls| && x == y
    ensures forall j :: i <= j < |ks| ==> ks[j] == ls[j] && v.fields[ks[j]] == w.fields[ks[j]]
    decreases v, 1, |ks| - i
  {
    FieldsHead(v, ks, i, x);
    FieldsHead(w, ls, i, y);
    if i == |ks| {
      CancelPrefix("}", x, y);
    } else {
      FirstFieldPrefixFree(v, ks, w, ls, i, x, y);
      FieldsPrefixFree(v, ks, w, ls, i + 1, x, y);
    }
  }

  lemma ArrayPrefixFree(a: seq<string>, b: seq<string>, x: string, y: string)
    requires "[" + ItemsFrom(a, 0) + x == "[" + ItemsFrom(b, 0) + y
    ensures a == b && x == y
  {
    Regroup("[", ItemsFrom(a, 0), x);
    Regroup("[", ItemsFrom(b, 0), y);
    CancelPrefix("[", ItemsFrom(a, 0) + x, ItemsFrom(b, 0) + y);
    ItemsPrefixFree(a, b, 0, x, y);
    assert a == b;
  }

  lemma {:induction false} ObjectPrefixFree(v: Value, w: Value, x: string, y: string)
    requires v.Object? && w.Object? && Encode(v) + x == Encode(w) + y
    ensures v == w && x == y
    decreases v, 2
  {
    var ks, ls := SortedKeys(v.fields.Keys), SortedKeys(w.fields.Keys);
    Regroup("{", FieldsFrom(v, ks, 0), x);
    Regroup("{", FieldsFrom(w, ls, 0), y);
    CancelPrefix("{", FieldsFrom(v, ks, 0) + x, FieldsFrom(w, ls, 0) + y);
    FieldsPrefixFree(v, ks, w, ls, 0, x, y);
    assert ks == ls;
    SameFields(v.fields, w.fields, ks);
  }

  lemma SameFields(f: map<string, Value>, g: map<string, Value>, keys: seq<string>)
    requires forall k :: k in keys <==> k in f.Keys
    requires forall k :: k in keys <==> k in g.Keys
    requires forall j :: 0 <= j < |keys| ==> f[keys[j]] == g[keys[j]]
    ensures f == g
  {
    assert f.Keys == g.Keys;
    forall k | k in f ensures f[k] == g[k] {
      var j :| 0 <= j < |keys| && keys[j] == k;
    }
  }

  /** No value's text is another's, or the start of another's: reading the text back gives the value
      and what follows it. */
  lemma {:induction false} EncodePrefixFree(v: Value, w: Value, x: string, y: string)
    requires Encode(v) + x == Encode(w) + y && NoDigitNext(x) && NoDigitNext(y)
    ensures v == w && x == y
    decreases v, 3
  {
    EncodeHead(v, x);
    EncodeHead(w, y);
    match v {
      case Null =>
        CancelPrefix("null", x, y);
      case Number(n) =>
        IntegerPrefixFree(n, w.n, x, y);
      case String(s) =>
        QuotedPrefixFree(s, w.s, x, y);
      case Array(items) =>
        ArrayPrefixFree(items, w.items, x, y);
      case Object(fields) =>
        ObjectPrefixFree(v, w, x, y);
    }
  }
}
