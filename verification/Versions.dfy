/** Version ordering (modindex/modindex.go). */
module Versions {
  import opened GoStrings

  // ---- The order the code computes

  function Segment(parts: seq<string>, i: nat): string
  {
    if i < |parts| then parts[i] else ""
  }

  function SegmentOrder(x: string, y: string): int
  {
    match (Atoi(x), Atoi(y))
    case (Some(m), Some(n)) => if m > n then 1 else if m < n then -1 else 0
    case _ => GoStrings.Compare(x, y)
  }

  function OrderFrom(xs: seq<string>, ys: seq<string>, i: nat): int
    decreases |xs| + |ys| - i
  {
    if i >= |xs| && i >= |ys| then 0
    else
      var c := SegmentOrder(Segment(xs, i), Segment(ys, i));
      if c != 0 then c else OrderFrom(xs, ys, i + 1)
  }

  function VersionOrder(a: string, b: string): int
  {
    OrderFrom(Split(a, '.'), Split(b, '.'), 0)
  }

  method CompareVersions(a: string, b: string) returns (c: int)
    ensures c == VersionOrder(a, b)
  {
    var xs, ys := Split(a, '.'), Split(b, '.');
    c := CompareParts(xs, ys);
  }

  method CompareParts(xs: seq<string>, ys: seq<string>) returns (c: int)
    ensures c == OrderFrom(xs, ys, 0)
  {
    var i := 0;
    while i < |xs| || i < |ys|
      invariant OrderFrom(xs, ys, 0) == OrderFrom(xs, ys, i)
      decreases |xs| + |ys| - i
    {
      var d := CompareSegmentsAt(xs, ys, i);
      if d != 0 { return d; }
      i := i + 1;
    }
    return 0;
  }

  /** A version that has no such segment counts as having a blank one. */
  method CompareSegmentsAt(xs: seq<string>, ys: seq<string>, i: nat) returns (c: int)
    ensures c == SegmentOrder(Segment(xs, i), Segment(ys, i))
  {
    var x, y := "", "";
    if i < |xs| { x := xs[i]; }
    if i < |ys| { y := ys[i]; }
    c := CompareSegments(x, y);
  }

  method CompareSegments(x: string, y: string) returns (c: int)
    ensures c == SegmentOrder(x, y)
  {
    var m, n := Atoi(x), Atoi(y);
    if m.Some? && n.Some? {
      if m.value != n.value {
        if m.value > n.value { return 1; }
        return -1;
      }
      return 0;
    }
    return GoStrings.Compare(x, y);
  }

  /** Over any two strings at all, the answer is a sign that flips with the arguments. */
  lemma {:induction false} OrderFlips(a: string, b: string)
    ensures VersionOrder(a, b) == -VersionOrder(b, a)
    ensures -1 <= VersionOrder(a, b) <= 1
    ensures VersionOrder(a, a) == 0
  {
    OrderFromFlips(Split(a, '.'), Split(b, '.'), 0);
    OrderFromFlips(Split(a, '.'), Split(a, '.'), 0);
  }

  lemma {:induction false} OrderFromFlips(xs: seq<string>, ys: seq<string>, i: nat)
    ensures OrderFrom(xs, ys, i) == -OrderFrom(ys, xs, i)
    ensures -1 <= OrderFrom(xs, ys, i) <= 1
    decreases |xs| + |ys| - i
  {
    if i < |xs| || i < |ys| {
      CompareTotal(Segment(xs, i), Segment(ys, i));
      OrderFromFlips(xs, ys, i + 1);
    }
  }

  /** Mixing numeric and other segments, the order has a cycle: it is not transitive on all strings. */
  lemma MixedSegmentsCycle()
    ensures VersionOrder("9", "10") < 0
    ensures VersionOrder("10", "1a") < 0
    ensures VersionOrder("1a", "9") < 0
  {
    SplitPlain("9", '.');
    SplitPlain("10", '.');
    SplitPlain("1a", '.');
    assert Value("9") == 9 by { assert "9"[..0] == ""; }
    assert Value("10") == 10 by { assert "10"[..1] == "1"; assert Value("1") == 1 by { assert "1"[..0] == ""; } }
    assert Atoi("1a") == None by { assert !IsDigit("1a"[1]); }
    assert Compare("10", "1a") == -1 by { assert "10"[1..] == "0" && "1a"[1..] == "a"; }
    assert Compare("1a", "9") == -1;
    assert SegmentOrder("9", "10") == -1;
    assert SegmentOrder("10", "1a") == -1;
    assert SegmentOrder("1a", "9") == -1;
  }

  // ---- Exactly when it is an order

  /** The one way segments fail to be ordered: numbers in their order, and text that falls between them
      the other way round. */
  predicate Crossed(m: string, n: string, text: string)
  {
    && Atoi(m).Some? && Atoi(n).Some? && Atoi(text).None?
    && Atoi(m).value <= Atoi(n).value
    && GoStrings.Compare(n, text) < 0 && GoStrings.Compare(text, m) < 0
  }

  /** Segments go round in a circle only when they are all equal or crossed, whichever of them is the text. */
  lemma SegmentCircle(x: string, y: string, z: string)
    requires SegmentOrder(x, y) <= 0 && SegmentOrder(y, z) <= 0 && SegmentOrder(z, x) <= 0
    ensures (SegmentOrder(x, y) == 0 && SegmentOrder(y, z) == 0 && SegmentOrder(z, x) == 0)
      || Crossed(x, y, z) || Crossed(y, z, x) || Crossed(z, x, y)
  {
    CompareTotal(x, y);
    CompareTotal(y, z);
    CompareTotal(x, z);
    if Compare(x, y) <= 0 && Compare(y, z) <= 0 { CompareTransitive(x, y, z); }
  }

  /** The segments of a set are ordered if and only if no three of them are crossed. */
  lemma SegmentsOrderedExactly(s: set<string>)
    ensures (forall x, y, z :: x in s && y in s && z in s && SegmentOrder(x, y) <= 0 && SegmentOrder(y, z) <= 0 ==>
      SegmentOrder(x, z) <= 0)
      <==> !exists m, n, text :: m in s && n in s && text in s && Crossed(m, n, text)
  {
    forall x, y, z | x in s && y in s && z in s && SegmentOrder(x, y) <= 0 && SegmentOrder(y, z) <= 0
      && SegmentOrder(x, z) > 0
      ensures exists m, n, text :: m in s && n in s && text in s && Crossed(m, n, text)
    {
      SegmentOrderFlips(x, z);
      SegmentCircle(x, y, z);
    }
    forall m, n, text | m in s && n in s && text in s && Crossed(m, n, text)
      ensures SegmentOrder(m, n) <= 0 && SegmentOrder(n, text) <= 0 && SegmentOrder(m, text) > 0
    {
      CompareTotal(m, text);
    }
  }

  lemma SegmentOrderFlips(x: string, y: string)
    ensures SegmentOrder(x, y) == -SegmentOrder(y, x) && -1 <= SegmentOrder(x, y) <= 1
    ensures SegmentOrder(x, y) == 0 <==> x == y || (Atoi(x).Some? && Atoi(x) == Atoi(y))
  {
    CompareTotal(x, y);
  }

  /** The versions of a set are ordered. */
  ghost predicate Orderly(vs: set<string>)
  {
    forall a, b, c :: a in vs && b in vs && c in vs && VersionOrder(a, b) <= 0 && VersionOrder(b, c) <= 0 ==>
      VersionOrder(a, c) <= 0
  }

  function SegmentAt(v: string, i: nat): string { Segment(Split(v, '.'), i) }

  /** Segment by segment, the versions compare equal before `i`. */
  ghost predicate SameBefore(a: string, b: string, i: nat)
  {
    forall j :: 0 <= j < i ==> SegmentOrder(SegmentAt(a, j), SegmentAt(b, j)) == 0
  }

  /** The versions first part at segment `i`, and there their segments are crossed, `c` having the text. */
  ghost predicate CrossedAt(a: string, b: string, c: string, i: nat)
  {
    && SameBefore(a, b, i) && SameBefore(b, c, i) && SameBefore(a, c, i)
    && Crossed(SegmentAt(a, i), SegmentAt(b, i), SegmentAt(c, i))
    && VersionOrder(a, b) <= 0
  }

  lemma {:induction false} OrderFromSame(xs: seq<string>, ys: seq<string>, i: nat, j: nat)
    requires i <= j && forall k :: i <= k < j ==> SegmentOrder(Segment(xs, k), Segment(ys, k)) == 0
    ensures OrderFrom(xs, ys, i) == OrderFrom(xs, ys, j)
    decreases j - i
  {
    if i < j { OrderFromSame(xs, ys, i + 1, j); }
  }

  lemma OrderAfter(a: string, b: string, i: nat)
    requires SameBefore(a, b, i)
    ensures VersionOrder(a, b) == OrderFrom(Split(a, '.'), Split(b, '.'), i)
  {
    forall k | 0 <= k < i ensures SegmentOrder(Segment(Split(a, '.'), k), Segment(Split(b, '.'), k)) == 0 {
      assert SegmentOrder(SegmentAt(a, k), SegmentAt(b, k)) == 0;
    }
    OrderFromSame(Split(a, '.'), Split(b, '.'), 0, i);
  }

  /** The order at the segment where two versions first part, once there is one. */
  lemma OrderAt(a: string, b: string, i: nat)
    requires SameBefore(a, b, i)
    ensures var c := SegmentOrder(SegmentAt(a, i), SegmentAt(b, i));
      c != 0 ==> VersionOrder(a, b) == c
  {
    OrderAfter(a, b, i);
    if i >= |Split(a, '.')| && i >= |Split(b, '.')| { SegmentOrderFlips("", ""); }
  }

  /** What a circle of versions looks like at the segment `i`, all equal before it. */
  lemma CircleAt(a: string, b: string, c: string, i: nat)
    requires VersionOrder(a, b) <= 0 && VersionOrder(b, c) <= 0 && VersionOrder(c, a) <= 0
    requires SameBefore(a, b, i) && SameBefore(b, c, i) && SameBefore(a, c, i)
    ensures (SameBefore(a, b, i + 1) && SameBefore(b, c, i + 1) && SameBefore(a, c, i + 1))
      || CrossedAt(a, b, c, i) || CrossedAt(b, c, a, i) || CrossedAt(c, a, b, i)
  {
    SameBeforeFlips(a, b, i);
    SameBeforeFlips(b, c, i);
    SameBeforeFlips(a, c, i);
    OrderAt(a, b, i);
    OrderAt(b, c, i);
    OrderAt(c, a, i);
    var p, q, r := SegmentAt(a, i), SegmentAt(b, i), SegmentAt(c, i);
    SegmentOrderFlips(p, r);
    SegmentCircle(p, q, r);
  }

  /** A failure of transitivity is found by walking to the segment where the three versions part. */
  lemma {:induction false} FindCrossing(a: string, b: string, c: string, i: nat) returns (at: nat)
    requires VersionOrder(a, b) <= 0 && VersionOrder(b, c) <= 0 && VersionOrder(c, a) < 0
    requires SameBefore(a, b, i) && SameBefore(b, c, i) && SameBefore(a, c, i) && i <= |Split(a, '.')| + |Split(c, '.')|
    ensures CrossedAt(a, b, c, at) || CrossedAt(b, c, a, at) || CrossedAt(c, a, b, at)
    decreases |Split(a, '.')| + |Split(c, '.')| - i
  {
    CircleAt(a, b, c, i);
    if CrossedAt(a, b, c, i) || CrossedAt(b, c, a, i) || CrossedAt(c, a, b, i) {
      at := i;
    } else {
      if i == |Split(a, '.')| + |Split(c, '.')| {
        SameBeforeFlips(a, c, i);
        OrderAfter(c, a, i);
      }
      at := FindCrossing(a, b, c, i + 1);
    }
  }

  lemma SameBeforeFlips(a: string, b: string, i: nat)
    requires SameBefore(a, b, i)
    ensures SameBefore(b, a, i)
  {
    forall j | 0 <= j < i ensures SegmentOrder(SegmentAt(b, j), SegmentAt(a, j)) == 0 {
      SegmentOrderFlips(SegmentAt(a, j), SegmentAt(b, j));
    }
  }

  /** The versions of a set are ordered if and only if no three of them first part at crossed segments. */
  lemma OrderlyExactly(vs: set<string>)
    ensures Orderly(vs) <==> !exists a, b, c, i :: a in vs && b in vs && c in vs && CrossedAt(a, b, c, i)
  {
    forall a, b, c | a in vs && b in vs && c in vs && VersionOrder(a, b) <= 0 && VersionOrder(b, c) <= 0
      && VersionOrder(a, c) > 0
      ensures exists a, b, c, i :: a in vs && b in vs && c in vs && CrossedAt(a, b, c, i)
    {
      OrderFlips(a, c);
      var at := FindCrossing(a, b, c, 0);
    }
    forall a, b, c, i: nat | a in vs && b in vs && c in vs && CrossedAt(a, b, c, i)
      ensures VersionOrder(a, b) <= 0 && VersionOrder(b, c) <= 0 && VersionOrder(a, c) > 0
    {
      CompareTotal(SegmentAt(a, i), SegmentAt(c, i));
      OrderAt(b, c, i);
      OrderAt(a, c, i);
    }
  }

  lemma {:induction false} TieSegments(xs: seq<string>, ys: seq<string>, i: nat, j: nat)
    requires OrderFrom(xs, ys, i) == 0 && i <= j
    ensures SegmentOrder(Segment(xs, j), Segment(ys, j)) == 0
    decreases j - i
  {
    if i >= |xs| && i >= |ys| {
      SegmentOrderFlips("", "");
    } else if i < j {
      TieSegments(xs, ys, i + 1, j);
    }
  }

  /** Versions that compare equal do so segment by segment, so comparing equal is transitive on all versions. */
  lemma TieTransitive(a: string, b: string, c: string)
    requires VersionOrder(a, b) == 0 && VersionOrder(b, c) == 0
    ensures VersionOrder(a, c) == 0
  {
    var xs, ys, zs := Split(a, '.'), Split(b, '.'), Split(c, '.');
    forall k | 0 <= k < |xs| + |zs| ensures SegmentOrder(Segment(xs, k), Segment(zs, k)) == 0 {
      TieSegments(xs, ys, 0, k);
      TieSegments(ys, zs, 0, k);
      SegmentOrderFlips(Segment(xs, k), Segment(ys, k));
      SegmentOrderFlips(Segment(ys, k), Segment(zs, k));
      SegmentOrderFlips(Segment(xs, k), Segment(zs, k));
    }
    OrderFromSame(xs, zs, 0, |xs| + |zs|);
  }

  /** Where versions are ordered, a strict step anywhere makes the whole strict. */
  lemma OrderlyStrict(vs: set<string>, a: string, b: string, c: string)
    requires Orderly(vs) && a in vs && b in vs && c in vs
    requires VersionOrder(a, b) <= 0 && VersionOrder(b, c) <= 0
    ensures VersionOrder(a, c) <= 0
    ensures VersionOrder(a, b) < 0 || VersionOrder(b, c) < 0 ==> VersionOrder(a, c) < 0
  {
    OrderFlips(a, b);
    OrderFlips(b, c);
    OrderFlips(a, c);
  }

  // ---- Dotted numbers

  predicate NumericSegment(s: string)
  {
    s != "" && AllDigits(s) && Value(s) <= MAX_INT64
  }

  /** Every dotted segment is a string of digits whose value fits an int. */
  predicate Numeric(v: string)
  {
    forall i :: 0 <= i < |Split(v, '.')| ==> NumericSegment(Split(v, '.')[i])
  }

  /** Numeric, and no segment has a leading zero: each number list has one such spelling. */
  predicate CanonicalVersion(v: string)
  {
    Numeric(v) && forall i :: 0 <= i < |Split(v, '.')| ==> Canonical(Split(v, '.')[i])
  }

  function Numbers(v: string): seq<nat>
    requires Numeric(v)
  {
    var parts := Split(v, '.');
    seq(|parts|, i requires 0 <= i < |parts| => Value(parts[i]))
  }

  /** The reference order: lexicographic on number lists, a missing number below every number. */
  function ListOrder(xs: seq<nat>, ys: seq<nat>): int
  {
    if xs == [] then (if ys == [] then 0 else -1)
    else if ys == [] then 1
    else if xs[0] < ys[0] then -1
    else if xs[0] > ys[0] then 1
    else ListOrder(xs[1..], ys[1..])
  }

  lemma {:induction false} ListOrderTotal(xs: seq<nat>, ys: seq<nat>)
    ensures ListOrder(xs, ys) == -ListOrder(ys, xs)
    ensures ListOrder(xs, ys) == 0 <==> xs == ys
  {
    if xs != [] && ys != [] && xs[0] == ys[0] {
      ListOrderTotal(xs[1..], ys[1..]);
      assert xs == [xs[0]] + xs[1..] && ys == [ys[0]] + ys[1..];
    }
  }

  lemma {:induction false} ListOrderTransitive(xs: seq<nat>, ys: seq<nat>, zs: seq<nat>)
    requires ListOrder(xs, ys) <= 0 && ListOrder(ys, zs) <= 0
    ensures ListOrder(xs, zs) <= 0
    ensures ListOrder(xs, ys) < 0 || ListOrder(ys, zs) < 0 ==> ListOrder(xs, zs) < 0
  {
    if xs != [] && ys != [] && zs != [] && xs[0] == ys[0] == zs[0] {
      ListOrderTransitive(xs[1..], ys[1..], zs[1..]);
    }
  }

  lemma NumericSegmentOrder(x: string, y: string)
    requires (x == "" || NumericSegment(x)) && (y == "" || NumericSegment(y))
    ensures SegmentOrder(x, y) ==
      if x == "" then (if y == "" then 0 else -1)
      else if y == "" then 1
      else if Value(x) < Value(y) then -1
      else if Value(x) > Value(y) then 1 else 0
  {
    assert forall s: string | s != "" && NumericSegment(s) :: IsDigit(s[0]) && Atoi(s) == Some(Value(s));
  }

  lemma {:induction false} NumericOrderFrom(a: string, b: string, i: nat)
    requires Numeric(a) && Numeric(b)
    requires i <= |Numbers(a)| && i <= |Numbers(b)|
    ensures OrderFrom(Split(a, '.'), Split(b, '.'), i) == ListOrder(Numbers(a)[i..], Numbers(b)[i..])
    decreases |Numbers(a)| + |Numbers(b)| - i
  {
    var xs, ys := Split(a, '.'), Split(b, '.');
    if i < |xs| || i < |ys| {
      NumericSegmentOrder(Segment(xs, i), Segment(ys, i));
      if i < |xs| && i < |ys| {
        NumericOrderFrom(a, b, i + 1);
        ListOrderStep(Numbers(a), Numbers(b), i);
      }
    }
  }

  lemma ListOrderStep(xs: seq<nat>, ys: seq<nat>, i: nat)
    requires i < |xs| && i < |ys|
    ensures ListOrder(xs[i..], ys[i..]) ==
      if xs[i] < ys[i] then -1 else if xs[i] > ys[i] then 1 else ListOrder(xs[i + 1..], ys[i + 1..])
  {
    assert xs[i..][1..] == xs[i + 1..] && ys[i..][1..] == ys[i + 1..];
  }

  /** On dotted numbers the code computes the reference order. */
  lemma NumericOrder(a: string, b: string)
    requires Numeric(a) && Numeric(b)
    ensures VersionOrder(a, b) == ListOrder(Numbers(a), Numbers(b))
    ensures VersionOrder(a, b) == 0 <==> Numbers(a) == Numbers(b)
  {
    NumericOrderFrom(a, b, 0);
    assert Numbers(a)[0..] == Numbers(a) && Numbers(b)[0..] == Numbers(b);
    ListOrderTotal(Numbers(a), Numbers(b));
  }

  lemma NumericTransitive(a: string, b: string, c: string)
    requires Numeric(a) && Numeric(b) && Numeric(c)
    requires VersionOrder(a, b) <= 0 && VersionOrder(b, c) <= 0
    ensures VersionOrder(a, c) <= 0
    ensures VersionOrder(a, b) < 0 || VersionOrder(b, c) < 0 ==> VersionOrder(a, c) < 0
  {
    NumericOrder(a, b);
    NumericOrder(b, c);
    NumericOrder(a, c);
    ListOrderTransitive(Numbers(a), Numbers(b), Numbers(c));
  }

  /** Dotted numbers are ordered, the blank version among them: a segment that is no number is blank, and
      nothing is below that. */
  lemma NumericOrderly(vs: set<string>)
    requires forall v :: v in vs ==> v == "" || Numeric(v)
    ensures Orderly(vs)
  {
    forall a, b, c, i: nat | a in vs && b in vs && c in vs ensures !CrossedAt(a, b, c, i) {
      var text := SegmentAt(c, i);
      assert text == "" || NumericSegment(text);
      assert text == "" ==> Compare(SegmentAt(b, i), text) >= 0;
    }
    OrderlyExactly(vs);
  }

  lemma BlankIsLeast(v: string, w: string)
    requires v == "" || w == ""
    requires v == "" || CanonicalVersion(v)
    requires w == "" || CanonicalVersion(w)
    ensures VersionOrder(v, w) == 0 <==> v == w
  {
    OrderFlips(v, w);
    var other := if v == "" then w else v;
    SegmentOrderFlips("", Split(other, '.')[0]);
    OrderAt("", other, 0);
    OrderFlips("", other);
  }

  /** Between canonical versions, only a version and itself compare equal. */
  lemma CanonicalOrder(a: string, b: string)
    requires CanonicalVersion(a) && CanonicalVersion(b)
    ensures VersionOrder(a, b) == 0 <==> a == b
  {
    NumericOrder(a, b);
    if Numbers(a) == Numbers(b) {
      var xs, ys := Split(a, '.'), Split(b, '.');
      assert |xs| == |Numbers(a)| == |ys|;
      forall i | 0 <= i < |xs| ensures xs[i] == ys[i] {
        assert Numbers(a)[i] == Numbers(b)[i];
        DecimalOfValue(xs[i]);
        DecimalOfValue(ys[i]);
      }
      assert xs == ys;
      JoinSplit(a, '.');
      JoinSplit(b, '.');
    }
  }

  // ---- Released doze versions

  /** A released doze's version: dotted digits, with or without a leading "v". */
  predicate DozeVersion(v: string)
  {
    var parts := Split(TrimV(v), '.');
    forall i :: 0 <= i < |parts| ==> parts[i] != "" && AllDigits(parts[i])
  }

  predicate DottedNumbers(parts: seq<string>)
  {
    parts != [] && forall part :: part in parts ==> part != "" && AllDigits(part)
  }

  /** So it is exactly a text of numbers joined by dots, or "v" and such a text. */
  lemma DozeVersionExact(v: string)
    ensures DozeVersion(v) <==> exists parts ::
      DottedNumbers(parts) && (v == Join(parts, '.') || v == "v" + Join(parts, '.'))
  {
    if DozeVersion(v) {
      var parts := Split(TrimV(v), '.');
      JoinSplit(TrimV(v), '.');
      assert DottedNumbers(parts);
      if TrimV(v) != v { assert v == "v" + v[1..]; }
    }
    forall parts | DottedNumbers(parts) && (v == Join(parts, '.') || v == "v" + Join(parts, '.'))
      ensures DozeVersion(v)
    {
      NumbersAreDoze(parts);
      if v != Join(parts, '.') { PrefixedDoze(Join(parts, '.')); }
    }
  }

  lemma NumbersAreDoze(parts: seq<string>)
    requires DottedNumbers(parts)
    ensures DozeVersion(Join(parts, '.')) && !HasPrefix(Join(parts, '.'), "v")
  {
    var text := Join(parts, '.');
    NumbersAreSplit(parts);
    assert text[..1][0] == text[0] != 'v';
    forall i | 0 <= i < |parts| ensures parts[i] != "" && AllDigits(parts[i]) { assert parts[i] in parts; }
  }

  lemma PrefixedDoze(text: string)
    requires DozeVersion(text) && !HasPrefix(text, "v")
    ensures DozeVersion("v" + text)
  {
    assert ("v" + text)[..1] == "v" && ("v" + text)[1..] == text;
  }

  lemma NumbersAreSplit(parts: seq<string>)
    requires DottedNumbers(parts)
    ensures Split(Join(parts, '.'), '.') == parts
    ensures Join(parts, '.') != "" && IsDigit(Join(parts, '.')[0])
  {
    forall part | part in parts ensures '.' !in part { assert forall c :: c in part ==> IsDigit(c); }
    SplitJoin(parts, '.');
    assert parts[0] in parts && IsDigit(parts[0][0]);
  }

  method IsDozeVersion(version: string) returns (ok: bool)
    ensures ok == DozeVersion(version)
  {
    var v := TrimV(version);
    var parts := Split(v, '.');
    if v == "" {
      assert parts[0] == "";
      return false;
    }
    for i := 0 to |parts|
      invariant forall j :: 0 <= j < i ==> parts[j] != "" && AllDigits(parts[j])
    {
      var part := parts[i];
      if part == "" { return false; }
      for k := 0 to |part|
        invariant forall m :: 0 <= m < k ==> IsDigit(part[m])
      {
        if part[k] < '0' || part[k] > '9' { return false; }
      }
    }
    return true;
  }
}
