/** Reading JSON text by the grammar of RFC 8259, with its white space and every escape, into the values `Json` writes;
    and the proof that what is written reads back as what it was written from. Fractions, exponents, booleans and arrays
    of anything but strings, which no payload has, read as nothing. */
module JsonReader {
  import opened GoStrings
  import opened Json

  // ---- The grammar

  /** Insignificant white space (section 2). */
  function SkipSpace(s: string): (r: string)
    ensures |r| <= |s|
  {
    if s != [] && s[0] in {' ', '\t', '\n', '\r'} then SkipSpace(s[1..]) else s
  }

  /** This character, after any white space: what follows it. */
  function Expect(s: string, c: char): (r: Option<string>)
    ensures r.Some? ==> |r.value| < |s|
  {
    var at := SkipSpace(s);
    if at != [] && at[0] == c then Some(at[1..]) else None
  }

  function HexValue(c: char): Option<nat>
  {
    if '0' <= c <= '9' then Some(c as int - '0' as int)
    else if 'a' <= c <= 'f' then Some(c as int - 'a' as int + 10)
    else if 'A' <= c <= 'F' then Some(c as int - 'A' as int + 10)
    else None
  }

  function Hex4(s: string): (n: Option<nat>)
    ensures n.Some? ==> |s| >= 4 && n.value < 0x1_0000
  {
    if |s| < 4 || HexValue(s[0]).None? || HexValue(s[1]).None? || HexValue(s[2]).None? || HexValue(s[3]).None? then None
    else
      Some(HexValue(s[0]).value * 4096 + HexValue(s[1]).value * 256 + HexValue(s[2]).value * 16 + HexValue(s[3]).value)
  }

  /** What follows \\u: one code unit, or a surrogate pair (section 7). */
  function ReadUnicode(s: string): (r: Option<(char, string)>)
    ensures r.Some? ==> |r.value.1| < |s|
  {
    var h := Hex4(s);
    if h.None? then None
    else if h.value < 0xD800 || 0xE000 <= h.value then Some((h.value as char, s[4..]))
    else if 0xDC00 <= h.value || |s| < 10 || s[4] != '\\' || s[5] != 'u' then None
    else
      var l := Hex4(s[6..]);
      if l.None? || l.value < 0xDC00 || 0xE000 <= l.value then None
      else Some(((0x1_0000 + (h.value - 0xD800) * 0x400 + (l.value - 0xDC00)) as char, s[10..]))
  }

  /** What follows a backslash. */
  function ReadEscape(s: string): (r: Option<(char, string)>)
    ensures r.Some? ==> |r.value.1| < |s|
  {
    if s == [] then None
    else
      match s[0]
      case '"' => Some(('"', s[1..]))
      case '\\' => Some(('\\', s[1..]))
      case '/' => Some(('/', s[1..]))
      case 'b' => Some(('\U{0008}', s[1..]))
      case 'f' => Some(('\U{000C}', s[1..]))
      case 'n' => Some(('\n', s[1..]))
      case 'r' => Some(('\r', s[1..]))
      case 't' => Some(('\t', s[1..]))
      case 'u' => ReadUnicode(s[1..])
      case _ => None
  }

  /** A string's first character, as written. */
  function ReadChar(s: string): (r: Option<(char, string)>)
    requires s != []
    ensures r.Some? ==> |r.value.1| < |s|
  {
    if s[0] == '\\' then ReadEscape(s[1..]) else if s[0] < ' ' then None else Some((s[0], s[1..]))
  }

  /** What follows an opening quote: the string, and what comes after the closing one. */
  function ReadQuoted(s: string): (r: Option<(string, string)>)
    ensures r.Some? ==> |r.value.1| < |s|
    decreases |s|
  {
    if s == [] then None
    else if s[0] == '"' then Some(("", s[1..]))
    else
      var first := ReadChar(s);
      if first.None? then None
      else
        var rest := ReadQuoted(first.value.1);
        if rest.None? then None else Some(([first.value.0] + rest.value.0, rest.value.1))
  }

  function ReadString(s: string): (r: Option<(string, string)>)
    ensures r.Some? ==> |r.value.1| < |s|
  {
    var quote := Expect(s, '"');
    if quote.None? then None else ReadQuoted(quote.value)
  }

  function CountDigits(s: string): (n: nat)
    ensures n <= |s| && AllDigits(s[..n]) && (n < |s| ==> !IsDigit(s[n]))
  {
    if s == [] || !IsDigit(s[0]) then 0
    else
      var n := CountDigits(s[1..]);
      assert s[..n + 1] == [s[0]] + s[1..][..n];
      n + 1
  }

  /** Digits that are a whole number's: no leading zero, and no fraction or exponent after them (section 6). */
  function ReadDigits(s: string): (r: Option<(nat, string)>)
    ensures r.Some? ==> |r.value.1| < |s|
  {
    var n := CountDigits(s);
    if n == 0 || (n > 1 && s[0] == '0') || (n < |s| && s[n] in {'.', 'e', 'E'}) then None
    else Some((GoStrings.Value(s[..n]), s[n..]))
  }

  function ReadNumber(s: string): (r: Option<(int, string)>)
    ensures r.Some? ==> |r.value.1| < |s|
  {
    if s != [] && s[0] == '-' then
      var digits := ReadDigits(s[1..]);
      if digits.None? then None else Some((-(digits.value.0 as int), digits.value.1))
    else
      var digits := ReadDigits(s);
      if digits.None? then None else Some((digits.value.0, digits.value.1))
  }

  /** What follows the opening bracket of an array, or a comma in it: strings. */
  function ReadItems(s: string): (r: Option<(seq<string>, string)>)
    ensures r.Some? ==> |r.value.1| < |s|
    decreases |s|
  {
    var item := ReadString(s);
    if item.None? then None
    else
      var end, comma := Expect(item.value.1, ']'), Expect(item.value.1, ',');
      if end.Some? then Some(([item.value.0], end.value))
      else if comma.None? then None
      else
        var rest := ReadItems(comma.value);
        if rest.None? then None else Some(([item.value.0] + rest.value.0, rest.value.1))
  }

  /** A member of an object: its name, its value, and what follows. */
  function ReadMember(s: string): (r: Option<(string, Value, string)>)
    ensures r.Some? ==> |r.value.2| < |s|
    decreases |s|, 0
  {
    var name := ReadString(s);
    if name.None? then None
    else
      var colon := Expect(name.value.1, ':');
      if colon.None? then None
      else
        var value := Read(colon.value);
        if value.None? then None else Some((name.value.0, value.value.0, value.value.1))
  }

  /** What follows the opening brace of an object, or a comma in it: members, their names told apart (section 4). */
  function ReadMembers(s: string): (r: Option<(map<string, Value>, string)>)
    ensures r.Some? ==> |r.value.1| < |s|
    decreases |s|, 1
  {
    var member := ReadMember(s);
    if member.None? then None
    else
      var end, comma := Expect(member.value.2, '}'), Expect(member.value.2, ',');
      if end.Some? then Some((map[member.value.0 := member.value.1], end.value))
      else if comma.None? then None
      else
        var rest := ReadMembers(comma.value);
        if rest.None? || member.value.0 in rest.value.0 then None
        else Some((rest.value.0[member.value.0 := member.value.1], rest.value.1))
  }

  /** What follows an opening bracket. */
  function ReadArray(s: string): (r: Option<(Value, string)>)
    ensures r.Some? ==> |r.value.1| < |s|
  {
    var empty := Expect(s, ']');
    if empty.Some? then Some((Array([]), empty.value))
    else
      var items := ReadItems(s);
      if items.None? then None else Some((Array(items.value.0), items.value.1))
  }

  /** What follows an opening brace. */
  function ReadObject(s: string): (r: Option<(Value, string)>)
    ensures r.Some? ==> |r.value.1| < |s|
    decreases |s|, 2
  {
    var empty := Expect(s, '}');
    if empty.Some? then Some((Object(map[]), empty.value))
    else
      var members := ReadMembers(s);
      if members.None? then None else Some((Object(members.value.0), members.value.1))
  }

  /** The value a text starts with, and what follows it. */
  function Read(s: string): (r: Option<(Value, string)>)
    ensures r.Some? ==> |r.value.1| < |s|
    decreases |s|, 3
  {
    var at := SkipSpace(s);
    if at == [] then None
    else
      match at[0]
      case 'n' => if HasPrefix(at, "null") then Some((Null, at[4..])) else None
      case '"' =>
        var text := ReadQuoted(at[1..]);
        if text.None? then None else Some((String(text.value.0), text.value.1))
      case '[' => ReadArray(at[1..])
      case '{' => ReadObject(at[1..])
      case _ =>
        var number := ReadNumber(at);
        if number.None? then None else Some((Number(number.value.0), number.value.1))
  }

  /** A JSON text: one value, with nothing but white space around it. */
  function ReadText(s: string): Option<Value>
  {
    var r := Read(s);
    if r.Some? && SkipSpace(r.value.1) == [] then Some(r.value.0) else None
  }

  // ---- What is written reads back

  lemma NoSpace(s: string, rest: string)
    requires s != [] && s[0] !in {' ', '\t', '\n', '\r'}
    ensures SkipSpace(s + rest) == s + rest
  {
    assert (s + rest)[0] == s[0];
  }

  /** A text that starts with punctuation starts with that and no other. */
  lemma Starts(s: string)
    requires s != [] && s[0] in {'"', ',', ':', ']', '}'}
    ensures forall c :: Expect(s, c) == if c == s[0] then Some(s[1..]) else None
  {
  }

  lemma StringReads(t: string, rest: string)
    ensures ReadString(Quoted(t) + rest) == Some((t, rest))
  {
    var s := Quoted(t) + rest;
    assert s[0] == '"' && s[1..] == Escaped(t) + rest;
    Starts(s);
    QuotedReads(t, rest);
  }

  lemma HexReads(d: nat)
    requires d < 16
    ensures HexValue(HexDigit(d)) == Some(d)
  {
  }

  lemma EscapeReads(c: char, rest: string)
    ensures ReadChar(EscapeChar(c) + rest) == Some((c, rest))
  {
    var e := EscapeChar(c);
    var s := e + rest;
    assert s[0] == e[0] && s[|e|..] == rest;
    if |e| == 6 {
      assert s[1..][0] == 'u' && s[1..][1..] == e[2..] + rest;
      UnicodeReads(c, rest);
    } else if |e| == 2 {
      assert s[1..][0] == e[1] && s[1..][1..] == rest;
    }
  }

  lemma UnicodeReads(c: char, rest: string)
    requires |EscapeChar(c)| == 6
    ensures ReadUnicode(EscapeChar(c)[2..] + rest) == Some((c, rest))
  {
    var n, e := c as int, EscapeChar(c)[2..];
    if c < ' ' {
      HexReads(n / 16);
      HexReads(n % 16);
      HexRead(e, n / 16, n % 16, rest);
    } else {
      assert Hex4(e + rest) == Some(n) by { assert (e + rest)[..4] == e; }
    }
    assert (e + rest)[4..] == rest;
  }

  lemma HexRead(e: string, high: nat, low: nat, rest: string)
    requires high < 16 && low < 16 && e == ['0', '0', HexDigit(high), HexDigit(low)]
    ensures Hex4(e + rest) == Some(16 * high + low)
  {
    var s := e + rest;
    assert s[0] == '0' && s[1] == '0' && s[2] == HexDigit(high) && s[3] == HexDigit(low);
    HexReads(high);
    HexReads(low);
  }

  lemma {:induction false} QuotedReads(s: string, rest: string)
    ensures ReadQuoted(Escaped(s) + rest) == Some((s, rest))
  {
    if s == [] {
      assert ("\"" + rest)[1..] == rest;
    } else {
      var tail := Escaped(s[1..]) + rest;
      Regroup(EscapeChar(s[0]), Escaped(s[1..]), rest);
      EscapeReads(s[0], tail);
      assert (EscapeChar(s[0]) + tail)[0] == EscapeChar(s[0])[0];
      QuotedReads(s[1..], rest);
      assert s == [s[0]] + s[1..];
    }
  }

  /** What follows a number neither continues it nor makes it a fraction. */
  predicate EndsNumber(rest: string) { rest == [] || !(IsDigit(rest[0]) || rest[0] in {'.', 'e', 'E'}) }

  lemma {:induction false} DigitsCounted(a: string, rest: string)
    requires AllDigits(a) && EndsNumber(rest)
    ensures CountDigits(a + rest) == |a|
  {
    if a == [] {
      assert a + rest == rest;
    } else {
      assert (a + rest)[1..] == a[1..] + rest;
      DigitsCounted(a[1..], rest);
    }
  }

  lemma {:induction false} DecimalLeads(n: nat)
    ensures n > 0 ==> Decimal(n)[0] != '0'
    ensures n == 0 ==> Decimal(n) == "0"
  {
    if n >= 10 { DecimalLeads(n / 10); }
  }

  lemma DigitsRead(n: nat, rest: string)
    requires EndsNumber(rest)
    ensures ReadDigits(Decimal(n) + rest) == Some((n, rest))
  {
    var digits := Decimal(n);
    var s := digits + rest;
    DigitsCounted(digits, rest);
    DecimalLeads(n);
    ValueOfDecimal(n);
    assert s[..|digits|] == digits && s[|digits|..] == rest && s[0] == digits[0];
    assert n == 0 ==> |digits| == 1;
  }

  lemma NumberReads(n: int, rest: string)
    requires EndsNumber(rest)
    ensures ReadNumber(Integer(n) + rest) == Some((n, rest))
  {
    if n < 0 {
      DigitsRead(-n, rest);
      MinusReads(Decimal(-n), rest);
    } else {
      DigitsRead(n, rest);
      assert (Decimal(n) + rest)[0] == Decimal(n)[0];
    }
  }

  lemma MinusReads(digits: string, rest: string)
    ensures ReadNumber("-" + digits + rest) ==
      var r := ReadDigits(digits + rest); if r.None? then None else Some((-(r.value.0 as int), r.value.1))
  {
    var s := "-" + digits + rest;
    assert s[0] == '-' && s[1..] == digits + rest;
  }

  /** What follows the `i`-th item: a comma and the next, or the end. */
  lemma AfterItem(items: seq<string>, i: nat, rest: string)
    requires i < |items|
    ensures
      var after := ItemsFrom(items, i + 1) + rest;
      && after != [] && after[0] == (if i + 1 < |items| then ',' else ']')
      && after[1..] == if i + 1 < |items| then Quoted(items[i + 1]) + (ItemsFrom(items, i + 2) + rest) else rest
  {
    ItemsHead(items, i + 1, rest);
    if i + 1 < |items| {
      ItemsUnfold(items, i + 1, rest);
    } else {
      assert ("]" + rest)[1..] == rest;
    }
  }

  lemma {:induction false} ItemsRead(items: seq<string>, i: nat, rest: string)
    requires i < |items|
    ensures ReadItems(Quoted(items[i]) + (ItemsFrom(items, i + 1) + rest)) == Some((items[i..], rest))
    decreases |items| - i
  {
    var after := ItemsFrom(items, i + 1) + rest;
    StringReads(items[i], after);
    AfterItem(items, i, rest);
    Starts(after);
    if i + 1 < |items| {
      ItemsRead(items, i + 1, rest);
      assert items[i..] == [items[i]] + items[i + 1..];
    } else {
      assert items[i..] == [items[i]];
    }
  }

  /** The members from the `i`-th key on. */
  ghost function Rest(fields: map<string, Value>, keys: seq<string>, i: nat): map<string, Value>
    requires i <= |keys| && forall k :: k in keys ==> k in fields
  {
    map k | k in keys[i..] :: fields[k]
  }

  lemma RestUnfolds(fields: map<string, Value>, keys: seq<string>, i: nat)
    requires i < |keys| && Sorted(keys) && forall k :: k in keys ==> k in fields
    ensures Rest(fields, keys, i) == Rest(fields, keys, i + 1)[keys[i] := fields[keys[i]]]
    ensures keys[i] !in Rest(fields, keys, i + 1)
    ensures i + 1 == |keys| ==> Rest(fields, keys, i + 1) == map[]
  {
    assert keys[i..] == [keys[i]] + keys[i + 1..];
    forall j | i < j < |keys| ensures keys[j] != keys[i] { CompareTotal(keys[i], keys[j]); }
  }

  /** Member `i` of an object as it is written, and what follows it. */
  ghost function MemberText(v: Value, keys: seq<string>, i: nat, rest: string): string
    requires v.Object? && (forall k :: k in keys ==> k in v.fields) && i < |keys|
  {
    Quoted(keys[i]) + (":" + (Encode(v.fields[keys[i]]) + (FieldsFrom(v, keys, i + 1) + rest)))
  }

  lemma AfterMember(v: Value, keys: seq<string>, i: nat, rest: string)
    requires v.Object? && (forall k :: k in keys ==> k in v.fields) && i < |keys|
    ensures
      var after := FieldsFrom(v, keys, i + 1) + rest;
      && after != [] && after[0] == (if i + 1 < |keys| then ',' else '}')
      && after[1..] == if i + 1 < |keys| then MemberText(v, keys, i + 1, rest) else rest
  {
    FieldsHead(v, keys, i + 1, rest);
    if i + 1 < |keys| {
      FieldsUnfold(v, keys, i + 1, rest);
    } else {
      assert ("}" + rest)[1..] == rest;
    }
  }

  lemma {:induction false} MemberReads(v: Value, keys: seq<string>, i: nat, rest: string)
    requires v.Object? && (forall k :: k in keys ==> k in v.fields) && i < |keys|
    ensures ReadMember(MemberText(v, keys, i, rest)) ==
      Some((keys[i], v.fields[keys[i]], FieldsFrom(v, keys, i + 1) + rest))
    decreases v, 0
  {
    var value, after := v.fields[keys[i]], FieldsFrom(v, keys, i + 1) + rest;
    var colon := ":" + (Encode(value) + after);
    StringReads(keys[i], colon);
    assert colon[0] == ':' && colon[1..] == Encode(value) + after;
    Starts(colon);
    AfterMember(v, keys, i, rest);
    ReadsBack(value, after);
  }

  lemma {:induction false} MembersRead(v: Value, keys: seq<string>, i: nat, rest: string)
    requires v.Object? && Sorted(keys) && (forall k :: k in keys ==> k in v.fields) && i < |keys|
    ensures ReadMembers(MemberText(v, keys, i, rest)) == Some((Rest(v.fields, keys, i), rest))
    decreases v, 1, |keys| - i
  {
    MemberReads(v, keys, i, rest);
    AfterMember(v, keys, i, rest);
    Starts(FieldsFrom(v, keys, i + 1) + rest);
    RestUnfolds(v.fields, keys, i);
    if i + 1 < |keys| { MembersRead(v, keys, i + 1, rest); }
  }

  lemma ArrayReads(items: seq<string>, rest: string)
    ensures ReadArray(ItemsFrom(items, 0) + rest) == Some((Array(items), rest))
  {
    var inside := ItemsFrom(items, 0) + rest;
    ItemsHead(items, 0, rest);
    Starts(inside);
    if items == [] {
      assert inside[1..] == rest;
    } else {
      ItemsUnfold(items, 0, rest);
      assert inside == Quoted(items[0]) + (ItemsFrom(items, 1) + rest);
      ItemsRead(items, 0, rest);
      assert items[0..] == items;
    }
  }

  lemma {:induction false} ObjectReads(v: Value, rest: string)
    requires v.Object?
    ensures ReadObject(FieldsFrom(v, SortedKeys(v.fields.Keys), 0) + rest) == Some((v, rest))
    decreases v, 2
  {
    var keys := SortedKeys(v.fields.Keys);
    SortedKeysSorts(v.fields.Keys);
    var inside := FieldsFrom(v, keys, 0) + rest;
    FieldsHead(v, keys, 0, rest);
    Starts(inside);
    if keys == [] {
      assert inside[1..] == rest;
      assert v.fields == map[] by { assert forall k :: k !in v.fields.Keys; }
    } else {
      FirstMember(v, keys, rest);
      MembersRead(v, keys, 0, rest);
      AllMembers(v.fields, keys);
    }
  }

  lemma FirstMember(v: Value, keys: seq<string>, rest: string)
    requires v.Object? && (forall k :: k in keys ==> k in v.fields) && keys != []
    ensures FieldsFrom(v, keys, 0) + rest == MemberText(v, keys, 0, rest)
  {
    FieldsUnfold(v, keys, 0, rest);
  }

  lemma AllMembers(fields: map<string, Value>, keys: seq<string>)
    requires forall k :: k in keys <==> k in fields
    ensures Rest(fields, keys, 0) == fields
  {
    assert keys[0..] == keys;
  }

  /** Whatever follows a value's text, the grammar reads back that value and stops there. */
  lemma {:induction false} ReadsBack(v: Value, rest: string)
    requires EndsNumber(rest)
    ensures Read(Encode(v) + rest) == Some((v, rest))
    decreases v, 3
  {
    match v {
      case Array(items) => BracketReads(items, rest);
      case Object(_) =>
        ObjectReads(v, rest);
        BraceReads(FieldsFrom(v, SortedKeys(v.fields.Keys), 0), rest);
      case _ => ScalarReads(v, rest);
    }
  }

  lemma BracketReads(items: seq<string>, rest: string)
    ensures Read("[" + ItemsFrom(items, 0) + rest) == Some((Array(items), rest))
  {
    var inside := ItemsFrom(items, 0);
    var s := "[" + inside + rest;
    assert s[0] == '[' && s[1..] == inside + rest && SkipSpace(s) == s;
    ArrayReads(items, rest);
  }

  lemma BraceReads(inside: string, rest: string)
    ensures Read("{" + inside + rest) == ReadObject(inside + rest)
  {
    var s := "{" + inside + rest;
    assert s[0] == '{' && s[1..] == inside + rest && SkipSpace(s) == s;
  }

  lemma ScalarReads(v: Value, rest: string)
    requires !v.Array? && !v.Object? && EndsNumber(rest)
    ensures Read(Encode(v) + rest) == Some((v, rest))
  {
    EncodeHead(v, rest);
    NoSpace(Encode(v), rest);
    match v {
      case Null => assert ("null" + rest)[..4] == "null" && ("null" + rest)[4..] == rest;
      case Number(n) => NumberReads(n, rest);
      case String(s) =>
        assert (Quoted(s) + rest)[1..] == Escaped(s) + rest;
        QuotedReads(s, rest);
    }
  }

  /** Written and read again, a value is what it was. */
  lemma RoundTrip(v: Value)
    ensures ReadText(Encode(v)) == Some(v)
  {
    ReadsBack(v, "");
    assert Encode(v) + "" == Encode(v);
  }
}
