/** The module index and the choice of a release from it (modindex/modindex.go). */
module ModIndex {
  import opened GoStrings
  import opened Versions

  datatype Artifact = Artifact(url: string, sha256: string, sig: string)

  datatype Release = Release(protocol: int, engines: seq<string>, artifacts: map<string, Artifact>, doze: string)

  /** `channels` keeps Go's difference between a nil map (None) and an empty one, which the signed payload shows. */
  datatype Index = Index(schema: int, moduleName: string, namespace: string,
                         releases: map<string, Release>, channels: Option<map<string, string>>, signature: string)

  datatype Host = Host(protocol: int, doze: string)

  datatype Selection =
    | Selected(version: string, release: Release)
    | NoReleases
    | ProtocolError(host: int, min: int, max: int)
    | EngineSupportError(majors: seq<string>, latest: string, supported: seq<string>)
    | DozeError(wanted: seq<string>, need: string, have: string)

  // ---- Supports

  /** A release covers the majors when it has no gate, or lists every major that is not blank. */
  predicate Covers(r: Release, majors: seq<string>)
  {
    r.engines == [] || forall m :: m in majors && m != "" ==> m in r.engines
  }

  /** The majors that name one. */
  function Named(majors: seq<string>): set<string>
  {
    set m | m in majors && m != ""
  }

  lemma CoversExactly(r: Release, majors: seq<string>)
    ensures Covers(r, majors) <==> r.engines == [] || Named(majors) <= Elements(r.engines)
  {
    if Named(majors) <= Elements(r.engines) {
      forall m | m in majors && m != ""
        ensures m in r.engines
      {
        assert m in Named(majors) && m in Elements(r.engines);
      }
    }
  }

  method Supports(r: Release, majors: seq<string>) returns (ok: bool)
    ensures ok == Covers(r, majors)
    ensures ok <==> r.engines == [] || Named(majors) <= Elements(r.engines)
  {
    CoversExactly(r, majors);
    if |r.engines| == 0 { return true; }
    for i := 0 to |majors|
      invariant forall k :: 0 <= k < i && majors[k] != "" ==> majors[k] in r.engines
    {
      if majors[i] != "" && majors[i] !in r.engines { return false; }
    }
    return true;
  }

  // ---- Select

  predicate Compatible(idx: Index, v: string, protocol: int)
  {
    v in idx.releases && idx.releases[v].protocol == protocol
  }

  predicate Candidate(idx: Index, v: string, protocol: int, majors: seq<string>)
  {
    Compatible(idx, v, protocol) && Covers(idx.releases[v], majors)
  }

  /** The candidate the channel points at, if it points at one. */
  function ChannelHead(idx: Index, protocol: int, majors: seq<string>, channel: string): Option<string>
  {
    var name := if channel == "" then "stable" else channel;
    if idx.channels.Some? && name in idx.channels.value && Candidate(idx, idx.channels.value[name], protocol, majors)
    then Some(idx.channels.value[name]) else None
  }

  function CompatibleSet(idx: Index, protocol: int): set<string>
  {
    set v | v in idx.releases && Compatible(idx, v, protocol)
  }

  function CandidateSet(idx: Index, protocol: int, majors: seq<string>): set<string>
  {
    set v | v in idx.releases && Candidate(idx, v, protocol, majors)
  }

  /** The versions of the host's protocol are ordered. */
  ghost predicate OrderlyAmong(idx: Index, protocol: int)
  {
    Orderly(CompatibleSet(idx, protocol))
  }

  // ---- The span of the protocols

  /** Every key of the map, once, in the order a range over it happened to take. */
  ghost predicate Enumerates(order: seq<string>, keys: set<string>)
  {
    && (forall v :: v in order <==> v in keys)
    && forall i, j :: 0 <= i < j < |order| ==> order[i] != order[j]
  }

  /** minP and maxP after visiting the releases in this order. */
  function Span(idx: Index, order: seq<string>): (int, int)
    requires forall v :: v in order ==> v in idx.releases
  {
    if order == [] then (0, 0)
    else
      var (lo, hi) := Span(idx, order[..|order| - 1]);
      var p := idx.releases[order[|order| - 1]].protocol;
      (if lo == 0 || p < lo then p else lo, if p > hi then p else hi)
  }

  ghost predicate SpanAnswer(idx: Index, min: int, max: int)
  {
    exists order :: Enumerates(order, idx.releases.Keys) && Span(idx, order) == (min, max)
  }

  /** What Select answers, whatever order the releases are visited in and however equal versions are sorted. */
  ghost predicate SelectAnswer(idx: Index, protocol: int, majors: seq<string>, channel: string, r: Selection)
  {
    match r
    case Selected(v, release) =>
      && Candidate(idx, v, protocol, majors)
      && release == idx.releases[v]
      && var head := ChannelHead(idx, protocol, majors, channel);
         if head.Some? then v == head.value
         else OrderlyAmong(idx, protocol) ==>
           forall w :: Candidate(idx, w, protocol, majors) ==> VersionOrder(w, v) <= 0
    case NoReleases => idx.releases == map[]
    case ProtocolError(host, min, max) =>
      && idx.releases != map[]
      && host == protocol
      && (forall v :: !Compatible(idx, v, protocol))
      && SpanAnswer(idx, min, max)
    case EngineSupportError(wanted, latest, supported) =>
      && wanted == majors
      && (forall v :: !Candidate(idx, v, protocol, majors))
      && Compatible(idx, latest, protocol)
      && supported == idx.releases[latest].engines
      && (OrderlyAmong(idx, protocol) ==>
           forall w :: Compatible(idx, w, protocol) ==> VersionOrder(w, latest) <= 0)
    case DozeError(_, _, _) => false
  }

  ghost predicate NewestFirst(vs: seq<string>)
  {
    forall i, j :: 0 <= i < j < |vs| ==> VersionOrder(vs[j], vs[i]) <= 0
  }

  function Elements(vs: seq<string>): set<string>
  {
    set v | v in vs
  }

  /** sort.Slice with "newer" as less: a permutation, and newest first where the order is an order. */
  method SortNewestFirst(vs: seq<string>) returns (sorted: seq<string>)
    ensures multiset(sorted) == multiset(vs)
    ensures Orderly(Elements(vs)) ==> NewestFirst(sorted)
  {
    sorted := [];
    for i := 0 to |vs|
      invariant multiset(sorted) == multiset(vs[..i])
      invariant Orderly(Elements(vs)) ==> NewestFirst(sorted)
    {
      assert vs[..i + 1] == vs[..i] + [vs[i]];
      forall v | v in sorted ensures v in vs { InBoth(sorted, vs[..i], v); }
      sorted := InsertNewestFirst(sorted, vs[i], Elements(vs));
    }
    assert vs[..|vs|] == vs;
  }

  lemma InBoth(xs: seq<string>, ys: seq<string>, v: string)
    requires multiset(xs) == multiset(ys)
    ensures v in xs <==> v in ys
  {
    assert v in xs <==> v in multiset(xs);
    assert v in ys <==> v in multiset(ys);
  }

  method InsertNewestFirst(vs: seq<string>, x: string, ghost all: set<string>) returns (r: seq<string>)
    requires x in all && forall v :: v in vs ==> v in all
    ensures multiset(r) == multiset(vs) + multiset{x}
    ensures Orderly(all) && NewestFirst(vs) ==> NewestFirst(r)
  {
    var k := 0;
    while k < |vs| && VersionOrder(vs[k], x) > 0
      invariant k <= |vs|
      invariant forall i :: 0 <= i < k ==> VersionOrder(vs[i], x) > 0
    {
      k := k + 1;
    }
    r := Inserted(vs, x, k);
    if Orderly(all) && NewestFirst(vs) { InsertKeepsOrder(vs, x, k, all); }
  }

  function Inserted(vs: seq<string>, x: string, k: nat): (r: seq<string>)
    requires k <= |vs|
    ensures |r| == |vs| + 1 && multiset(r) == multiset(vs) + multiset{x}
  {
    assert vs == vs[..k] + vs[k..];
    vs[..k] + [x] + vs[k..]
  }

  lemma InsertKeepsOrder(vs: seq<string>, x: string, k: nat, all: set<string>)
    requires Orderly(all) && x in all && forall v :: v in vs ==> v in all
    requires NewestFirst(vs) && k <= |vs|
    requires forall i :: 0 <= i < k ==> VersionOrder(vs[i], x) > 0
    requires k < |vs| ==> VersionOrder(vs[k], x) <= 0
    ensures NewestFirst(Inserted(vs, x, k))
  {
    forall i | 0 <= i < k ensures VersionOrder(x, vs[i]) <= 0 { OrderFlips(vs[i], x); }
    forall i | k <= i < |vs| ensures VersionOrder(vs[i], x) <= 0 {
      if i > k { assert VersionOrder(vs[i], vs[k]) <= 0; }
    }
    InsertBetween(vs, x, k);
  }

  lemma InsertBetween(vs: seq<string>, x: string, k: nat)
    requires NewestFirst(vs) && k <= |vs|
    requires forall i :: 0 <= i < k ==> VersionOrder(x, vs[i]) <= 0
    requires forall i :: k <= i < |vs| ==> VersionOrder(vs[i], x) <= 0
    ensures NewestFirst(Inserted(vs, x, k))
  {
    var r := Inserted(vs, x, k);
    forall i, j | 0 <= i < j < |r| ensures VersionOrder(r[j], r[i]) <= 0 {
      if j == k {
        assert VersionOrder(x, vs[i]) <= 0;
      } else if i == k {
        assert VersionOrder(vs[j - 1], x) <= 0;
      } else {
        var a, b := if i < k then i else i - 1, if j < k then j else j - 1;
        assert VersionOrder(vs[b], vs[a]) <= 0;
      }
    }
  }

  /** Select's first loop: the releases of the host's protocol, and the span of all protocols, in the
      order of the range. */
  method ScanProtocols(idx: Index, protocol: int) returns (protoOK: seq<string>, minP: int, maxP: int)
    ensures forall v :: v in protoOK <==> Compatible(idx, v, protocol)
    ensures SpanAnswer(idx, minP, maxP)
  {
    minP, maxP := 0, 0;
    protoOK := [];
    ghost var order: seq<string> := [];
    var todo := idx.releases.Keys;
    while todo != {}
      invariant todo <= idx.releases.Keys
      invariant Enumerates(order, idx.releases.Keys - todo)
      invariant forall v :: v in protoOK <==> Compatible(idx, v, protocol) && v !in todo
      invariant Span(idx, order) == (minP, maxP)
      decreases todo
    {
      var v :| v in todo;   // the map hands out its keys in any order
      todo := todo - {v};
      assert (order + [v])[..|order|] == order;
      order := order + [v];
      var p := idx.releases[v].protocol;
      if minP == 0 || p < minP { minP := p; }
      if p > maxP { maxP := p; }
      if p == protocol { protoOK := protoOK + [v]; }
    }
    assert idx.releases.Keys - todo == idx.releases.Keys;
  }

  lemma AppendKeepsOrder(sorted: seq<string>, i: nat, kept: seq<string>)
    requires i < |sorted| && NewestFirst(sorted) && NewestFirst(kept)
    requires forall v :: v in kept ==> v in sorted[..i]
    ensures NewestFirst(kept + [sorted[i]])
  {
    forall k | 0 <= k < |kept| ensures VersionOrder(sorted[i], kept[k]) <= 0 {
      assert kept[k] in sorted[..i];
    }
  }

  function CoveringAmong(idx: Index, vs: seq<string>, majors: seq<string>): seq<string>
    requires forall v :: v in vs ==> v in idx.releases
  {
    if vs == [] then []
    else
      var before, last := CoveringAmong(idx, vs[..|vs| - 1], majors), vs[|vs| - 1];
      if Covers(idx.releases[last], majors) then before + [last] else before
  }

  lemma {:induction false} CoveringExact(idx: Index, vs: seq<string>, majors: seq<string>)
    requires forall v :: v in vs ==> v in idx.releases
    ensures forall v :: v in CoveringAmong(idx, vs, majors) <==> v in vs && Covers(idx.releases[v], majors)
    ensures NewestFirst(vs) ==> NewestFirst(CoveringAmong(idx, vs, majors))
  {
    if vs != [] {
      var init, last := vs[..|vs| - 1], vs[|vs| - 1];
      assert vs == init + [last];
      CoveringExact(idx, init, majors);
      if NewestFirst(vs) { AppendKeepsOrder(vs, |vs| - 1, CoveringAmong(idx, init, majors)); }
    }
  }

  /** Select's second loop: the releases among `sorted` that cover the majors, in the same order. */
  method KeepCovering(idx: Index, sorted: seq<string>, majors: seq<string>) returns (candidates: seq<string>)
    requires forall v :: v in sorted ==> v in idx.releases
    ensures candidates == CoveringAmong(idx, sorted, majors)
    ensures forall v :: v in candidates <==> v in sorted && Covers(idx.releases[v], majors)
    ensures NewestFirst(sorted) ==> NewestFirst(candidates)
  {
    candidates := [];
    for i := 0 to |sorted|
      invariant candidates == CoveringAmong(idx, sorted[..i], majors)
    {
      assert sorted[..i + 1][..i] == sorted[..i];
      var ok := Supports(idx.releases[sorted[i]], majors);
      if ok { candidates := candidates + [sorted[i]]; }
    }
    assert sorted[..|sorted|] == sorted;
    CoveringExact(idx, sorted, majors);
  }

  method Select(idx: Index, protocol: int, majors: seq<string>, channel: string) returns (r: Selection)
    ensures SelectAnswer(idx, protocol, majors, channel, r)
  {
    if |idx.releases| == 0 { return NoReleases; }
    var protoOK, minP, maxP := ScanProtocols(idx, protocol);
    if |protoOK| == 0 {
      assert forall v :: !Compatible(idx, v, protocol) by { assert forall v :: v !in protoOK; }
      assert idx.releases.Keys != {};
      return ProtocolError(protocol, minP, maxP);
    }
    r := SelectAmong(idx, protocol, protoOK, majors, channel);
  }

  /** The rest of Select, once some release has the host's protocol. */
  method SelectAmong(idx: Index, protocol: int, protoOK: seq<string>, majors: seq<string>, channel: string)
    returns (r: Selection)
    requires protoOK != [] && forall v :: v in protoOK <==> Compatible(idx, v, protocol)
    ensures SelectAnswer(idx, protocol, majors, channel, r)
  {
    var sorted := SortNewestFirst(protoOK);
    SortedCompatible(idx, protocol, protoOK, sorted);
    var candidates := KeepCovering(idx, sorted, majors);
    SortingOut(idx, protocol, majors, protoOK, sorted, candidates);
    if |candidates| == 0 {
      NoCandidates(idx, protocol, majors, channel, sorted, candidates);
      r := EngineSupportError(majors, sorted[0], idx.releases[sorted[0]].engines);
    } else {
      NewestCandidate(idx, protocol, majors, sorted, candidates);
      r := PickHead(idx, protocol, majors, channel, candidates);
    }
  }

  /** The channel head when it is itself a candidate, else the first candidate. */
  method PickHead(idx: Index, protocol: int, majors: seq<string>, channel: string, candidates: seq<string>)
    returns (r: Selection)
    requires candidates != [] && forall v :: v in candidates <==> Candidate(idx, v, protocol, majors)
    requires OrderlyAmong(idx, protocol) ==> forall w :: Candidate(idx, w, protocol, majors) ==>
      VersionOrder(w, candidates[0]) <= 0
    ensures SelectAnswer(idx, protocol, majors, channel, r)
  {
    var name := if channel == "" then "stable" else channel;
    var v := candidates[0];
    assert v in candidates;
    if idx.channels.Some? && name in idx.channels.value && idx.channels.value[name] in candidates {
      v := idx.channels.value[name];
    }
    r := Selected(v, idx.releases[v]);
  }

  ghost predicate SortedOut(
    idx: Index, protocol: int, majors: seq<string>, sorted: seq<string>, candidates: seq<string>)
  {
    && sorted != [] && (forall v :: v in sorted <==> Compatible(idx, v, protocol))
    && (forall v :: v in candidates <==> v in sorted && Covers(idx.releases[v], majors))
    && (OrderlyAmong(idx, protocol) ==> NewestFirst(sorted) && NewestFirst(candidates))
  }

  lemma SortingOut(
    idx: Index, protocol: int, majors: seq<string>, protoOK: seq<string>, sorted: seq<string>, candidates: seq<string>)
    requires protoOK != [] && |sorted| == |protoOK| && (forall v :: v in sorted <==> Compatible(idx, v, protocol))
    requires forall v :: v in sorted ==> v in idx.releases
    requires Elements(protoOK) == CompatibleSet(idx, protocol) && (Orderly(Elements(protoOK)) ==> NewestFirst(sorted))
    requires forall v :: v in candidates <==> v in sorted && Covers(idx.releases[v], majors)
    requires NewestFirst(sorted) ==> NewestFirst(candidates)
    ensures SortedOut(idx, protocol, majors, sorted, candidates)
  {
    if OrderlyAmong(idx, protocol) { assert NewestFirst(sorted) && NewestFirst(candidates); }
  }

  lemma NewestCandidate(idx: Index, protocol: int, majors: seq<string>, sorted: seq<string>, candidates: seq<string>)
    requires SortedOut(idx, protocol, majors, sorted, candidates) && candidates != []
    ensures forall v :: v in candidates <==> Candidate(idx, v, protocol, majors)
    ensures candidates[0] in candidates
    ensures OrderlyAmong(idx, protocol) ==> forall w :: Candidate(idx, w, protocol, majors) ==>
      VersionOrder(w, candidates[0]) <= 0
  {
    if OrderlyAmong(idx, protocol) { FirstIsNewest(candidates); }
  }

  lemma NoCandidates(
    idx: Index, protocol: int, majors: seq<string>, channel: string, sorted: seq<string>, candidates: seq<string>)
    requires SortedOut(idx, protocol, majors, sorted, candidates) && candidates == []
    ensures sorted[0] in idx.releases
    ensures SelectAnswer(idx, protocol, majors, channel,
      EngineSupportError(majors, sorted[0], idx.releases[sorted[0]].engines))
  {
    assert sorted[0] in sorted;
    if OrderlyAmong(idx, protocol) { FirstIsNewest(sorted); }
    assert forall v :: v !in candidates;
  }

  lemma SortedCompatible(idx: Index, protocol: int, protoOK: seq<string>, sorted: seq<string>)
    requires forall v :: v in protoOK <==> Compatible(idx, v, protocol)
    requires multiset(sorted) == multiset(protoOK)
    ensures forall v :: v in sorted <==> Compatible(idx, v, protocol)
    ensures |sorted| == |protoOK|
    ensures Elements(protoOK) == CompatibleSet(idx, protocol)
  {
    forall v ensures v in sorted <==> Compatible(idx, v, protocol) { InBoth(sorted, protoOK, v); }
    assert |multiset(sorted)| == |sorted| && |multiset(protoOK)| == |protoOK|;
  }

  lemma FirstIsNewest(vs: seq<string>)
    requires vs != [] && NewestFirst(vs)
    ensures forall w :: w in vs ==> VersionOrder(w, vs[0]) <= 0
  {
    OrderFlips(vs[0], vs[0]);
  }

  // ---- When the span is what it says

  predicate Negative(idx: Index, v: string)
    requires v in idx.releases
  {
    idx.releases[v].protocol < 0
  }

  /** The least protocol is found whatever the order: none is 0, or some are negative, or all are 0. */
  predicate LeastSettled(idx: Index)
  {
    || (forall v :: v in idx.releases ==> idx.releases[v].protocol != 0)
    || (exists v :: v in idx.releases && Negative(idx, v))
    || (forall v :: v in idx.releases ==> idx.releases[v].protocol == 0)
  }

  ghost predicate IsLeast(idx: Index, min: int)
  {
    && (exists v :: v in idx.releases && idx.releases[v].protocol == min)
    && forall v :: v in idx.releases ==> min <= idx.releases[v].protocol
  }

  ghost predicate IsGreatestProtocol(idx: Index, max: int)
  {
    && (exists v :: v in idx.releases && idx.releases[v].protocol == max)
    && forall v :: v in idx.releases ==> idx.releases[v].protocol <= max
  }

  /** The scan's maximum is the greatest of the protocols seen and 0. */
  lemma {:induction false} SpanHigh(idx: Index, order: seq<string>)
    requires forall v :: v in order ==> v in idx.releases
    ensures Span(idx, order).1 >= 0
    ensures forall v :: v in order ==> idx.releases[v].protocol <= Span(idx, order).1
    ensures Span(idx, order).1 == 0 || exists v :: v in order && idx.releases[v].protocol == Span(idx, order).1
  {
    if order != [] {
      var init, last := order[..|order| - 1], order[|order| - 1];
      SpanHigh(idx, init);
      assert order == init + [last];
      assert last in order;
    }
  }

  /** The scan's minimum, where nothing seen is 0 or something is negative. */
  lemma {:induction false} SpanLow(idx: Index, order: seq<string>)
    requires forall v :: v in order ==> v in idx.releases
    ensures
      var lo := Span(idx, order).0;
      && (lo < 0 <==> exists v :: v in order && Negative(idx, v))
      && (lo != 0 ==> exists v :: v in order && idx.releases[v].protocol == lo)
      && (lo < 0 ==> forall v :: v in order ==> lo <= idx.releases[v].protocol)
      && ((forall v :: v in order ==> idx.releases[v].protocol != 0) && order != [] ==>
            lo != 0 && forall v :: v in order ==> lo <= idx.releases[v].protocol)
      && ((forall v :: v in order ==> idx.releases[v].protocol == 0) ==> lo == 0)
  {
    if order != [] {
      var init, last := order[..|order| - 1], order[|order| - 1];
      SpanLow(idx, init);
      assert order == init + [last];
      assert last in order;
      assert forall v :: v in order <==> v in init || v == last;
      assert Negative(idx, last) <==> idx.releases[last].protocol < 0;
    }
  }

  lemma {:induction false} SomeOrder(keys: set<string>) returns (order: seq<string>)
    ensures Enumerates(order, keys)
  {
    if keys == {} {
      order := [];
    } else {
      var k :| k in keys;
      var rest := SomeOrder(keys - {k});
      order := rest + [k];
    }
  }

  /** Some order ends in the given release. */
  lemma OrderEndingIn(keys: set<string>, last: string) returns (order: seq<string>)
    requires last in keys
    ensures Enumerates(order, keys) && order != [] && order[|order| - 1] == last
  {
    var rest := SomeOrder(keys - {last});
    order := rest + [last];
  }

  /** Without negative protocols, a release of protocol 0 visited last leaves the minimum 0. */
  lemma ZeroLast(idx: Index, keys: set<string>, zero: string) returns (order: seq<string>)
    requires keys <= idx.releases.Keys && zero in keys && idx.releases[zero].protocol == 0
    requires forall v :: v in idx.releases ==> !Negative(idx, v)
    ensures Enumerates(order, keys) && Span(idx, order).0 == 0
  {
    order := OrderEndingIn(keys, zero);
    var init := order[..|order| - 1];
    forall v | v in init ensures v in idx.releases { assert v in order; }
    SpanLow(idx, init);
  }

  /** So with one of another protocol the minimum can be 0, or that protocol when it comes after the 0. */
  lemma ZeroResets(idx: Index, zero: string, positive: string) returns (a: seq<string>, b: seq<string>)
    requires zero in idx.releases && idx.releases[zero].protocol == 0
    requires positive in idx.releases && idx.releases[positive].protocol > 0
    requires forall v :: v in idx.releases ==> !Negative(idx, v)
    ensures Enumerates(a, idx.releases.Keys) && Span(idx, a).0 == 0
    ensures Enumerates(b, idx.releases.Keys) && Span(idx, b).0 == idx.releases[positive].protocol
  {
    a := ZeroLast(idx, idx.releases.Keys, zero);
    var before := ZeroLast(idx, idx.releases.Keys - {positive}, zero);
    b := before + [positive];
    assert b[..|b| - 1] == before;
  }

  /** The minimum a protocol error reports is the least protocol in every order exactly when it is settled. */
  lemma LeastExactly(idx: Index)
    requires idx.releases != map[]
    ensures LeastSettled(idx) <==> forall min, max :: SpanAnswer(idx, min, max) ==> IsLeast(idx, min)
  {
    if LeastSettled(idx) {
      forall min, max | SpanAnswer(idx, min, max) ensures IsLeast(idx, min) { SettledIsLeast(idx, min, max); }
    } else {
      var zero :| zero in idx.releases && idx.releases[zero].protocol == 0;
      var positive :| positive in idx.releases && idx.releases[positive].protocol != 0;
      assert !Negative(idx, positive);
      var a, b := ZeroResets(idx, zero, positive);
      assert SpanAnswer(idx, Span(idx, b).0, Span(idx, b).1);
      assert !IsLeast(idx, Span(idx, b).0);
    }
  }

  lemma SettledIsLeast(idx: Index, min: int, max: int)
    requires idx.releases != map[] && LeastSettled(idx) && SpanAnswer(idx, min, max)
    ensures IsLeast(idx, min)
  {
    var order :| Enumerates(order, idx.releases.Keys) && Span(idx, order) == (min, max);
    var some :| some in idx.releases;
    assert some in order;
    SpanLow(idx, order);
  }

  /** The maximum never depends on the order, and is the greatest protocol exactly when some
      protocol is not negative. */
  lemma GreatestExactly(idx: Index, min: int, max: int)
    requires idx.releases != map[] && SpanAnswer(idx, min, max)
    ensures IsGreatestProtocol(idx, max) <==> exists v :: v in idx.releases && !Negative(idx, v)
    ensures max == 0 <==> forall v :: v in idx.releases ==> idx.releases[v].protocol <= 0
    ensures max > 0 ==> IsGreatestProtocol(idx, max)
  {
    var order :| Enumerates(order, idx.releases.Keys) && Span(idx, order) == (min, max);
    SpanHigh(idx, order);
    forall v | v in idx.releases ensures v in order { }
  }

  /** Releases of protocol 0 and 3, as when one has no protocol field: the reported minimum is 0 or 3. */
  const ZERO_AND_THREE := Index(1, "m", "n", map["a" := Release(0, [], map[], ""), "b" := Release(3, [], map[], "")],
    None, "")

  lemma SpanUnsettled()
    ensures SelectAnswer(ZERO_AND_THREE, 1, [], "", ProtocolError(1, 0, 3))
    ensures SelectAnswer(ZERO_AND_THREE, 1, [], "", ProtocolError(1, 3, 3))
  {
    var idx := ZERO_AND_THREE;
    forall order | order == ["a", "b"] || order == ["b", "a"]
      ensures Enumerates(order, idx.releases.Keys) && Span(idx, order) == (if order[0] == "a" then 3 else 0, 3)
    {
      assert order[..1] == [order[0]] && order[..1][..0] == [];
      assert Span(idx, order[..1]).1 == idx.releases[order[0]].protocol;
    }
    assert Span(idx, ["b", "a"]) == (0, 3) && Span(idx, ["a", "b"]) == (3, 3);
  }

  // ---- SelectFor

  /** A released doze older than the release asks for. A development build is never too old. */
  predicate TooNew(r: Release, host: Host)
  {
    DozeVersion(host.doze) && r.doze != "" && VersionOrder(r.doze, TrimV(host.doze)) > 0
  }

  predicate Eligible(idx: Index, v: string, host: Host, majors: seq<string>)
  {
    Candidate(idx, v, host.protocol, majors) && !TooNew(idx.releases[v], host)
  }

  /** A release that would be picked but for the host's age. */
  predicate Waiting(idx: Index, v: string, host: Host, majors: seq<string>)
  {
    Candidate(idx, v, host.protocol, majors) && TooNew(idx.releases[v], host)
  }

  function Fits(idx: Index, host: Host): Index
  {
    idx.(releases := map v | v in idx.releases && !TooNew(idx.releases[v], host) :: idx.releases[v])
  }

  /** The doze field's first segment is text at or above "v". */
  predicate AboveV(doze: string)
  {
    var first := Split(doze, '.')[0];
    first != "" && first[0] >= 'v'
  }

  /** The doze versions that the waiting ones of these releases ask for. */
  function WaitingDozes(idx: Index, host: Host, majors: seq<string>, visited: set<string>): set<string>
    requires visited <= idx.releases.Keys
  {
    set v | v in visited && Waiting(idx, v, host, majors) :: idx.releases[v].doze
  }

  /** `need` is one of the versions, and the least where they are ordered. */
  ghost predicate LeastNeed(dozes: set<string>, need: string)
  {
    && need in dozes
    && (Orderly(dozes) ==> forall d :: d in dozes ==> VersionOrder(need, d) <= 0)
    && (AboveV(need) ==> forall d :: d in dozes ==> AboveV(d))
  }

  ghost predicate SelectForAnswer(idx: Index, host: Host, majors: seq<string>, channel: string, r: Selection)
  {
    match r
    case DozeError(wanted, need, have) =>
      && DozeVersion(host.doze) && wanted == majors && have == TrimV(host.doze)
      && (forall v :: !Eligible(idx, v, host, majors))
      && LeastNeed(WaitingDozes(idx, host, majors, idx.releases.Keys), need)
    case _ =>
      && SelectAnswer(Fits(idx, host), host.protocol, majors, channel, r)
      && (r.Selected? || forall v :: !Waiting(idx, v, host, majors))
  }

  method SelectFor(idx: Index, host: Host, majors: seq<string>, channel: string) returns (r: Selection)
    ensures SelectForAnswer(idx, host, majors, channel, r)
  {
    var dotted := IsDozeVersion(host.doze);
    if !dotted {
      assert Fits(idx, host) == idx by { assert Fits(idx, host).releases == idx.releases; }
      r := Select(idx, host.protocol, majors, channel);
      return;
    }
    var fits, need := HoldBack(idx, host, majors);
    r := Select(idx.(releases := fits), host.protocol, majors, channel);
    if !r.Selected? && need != "" {
      NoneEligible(idx, host, majors, channel, r);
      return DozeError(majors, need, TrimV(host.doze));
    }
    if need == "" { NoneWaiting(idx, host, majors); }
  }

  /** The running need: none yet, or the least of those met. */
  ghost predicate Needed(dozes: set<string>, need: string)
  {
    if need == "" then dozes == {} else LeastNeed(dozes, need)
  }

  /** SelectFor's loop: the releases this doze is not too old for, and the least doze any other
      candidate needs, if any. */
  method HoldBack(idx: Index, host: Host, majors: seq<string>) returns (fits: map<string, Release>, need: string)
    requires DozeVersion(host.doze)
    ensures fits == Fits(idx, host).releases
    ensures Needed(WaitingDozes(idx, host, majors, idx.releases.Keys), need)
  {
    var doze := TrimV(host.doze);
    fits, need := map[], "";
    ghost var dozes: set<string> := {};
    var todo := idx.releases.Keys;
    while todo != {}
      invariant todo <= idx.releases.Keys
      invariant forall v :: v in fits <==> v in idx.releases.Keys - todo && !TooNew(idx.releases[v], host)
      invariant forall v :: v in fits ==> fits[v] == idx.releases[v]
      invariant dozes == WaitingDozes(idx, host, majors, idx.releases.Keys - todo)
      invariant Needed(dozes, need)
      decreases todo
    {
      var v :| v in todo;
      VisitOne(idx, host, majors, idx.releases.Keys - todo, v);
      assert idx.releases.Keys - (todo - {v}) == (idx.releases.Keys - todo) + {v};
      todo := todo - {v};
      var release := idx.releases[v];
      if release.doze != "" && VersionOrder(release.doze, doze) > 0 {
        var ok := Supports(release, majors);
        ghost var before := need;
        if release.protocol == host.protocol && ok {
          if need == "" || VersionOrder(release.doze, need) < 0 { need := release.doze; }
          NeededGrows(dozes, release.doze, before);
          dozes := dozes + {release.doze};
        }
      } else {
        fits := fits[v := release];
      }
    }
    assert idx.releases.Keys - todo == idx.releases.Keys;
  }

  lemma NeededGrows(dozes: set<string>, doze: string, need: string)
    requires Needed(dozes, need) && doze != ""
    ensures Needed(dozes + {doze}, if need == "" || VersionOrder(doze, need) < 0 then doze else need)
  {
    if need == "" {
      FirstNeed(doze);
      assert dozes + {doze} == {doze};
    } else {
      NeedGrows(dozes, doze, need);
    }
  }

  lemma NoneWaiting(idx: Index, host: Host, majors: seq<string>)
    requires WaitingDozes(idx, host, majors, idx.releases.Keys) == {}
    ensures forall v :: !Waiting(idx, v, host, majors)
  {
    assert forall v :: Waiting(idx, v, host, majors) ==>
      idx.releases[v].doze in WaitingDozes(idx, host, majors, idx.releases.Keys);
  }

  lemma NoneEligible(idx: Index, host: Host, majors: seq<string>, channel: string, r: Selection)
    requires SelectAnswer(Fits(idx, host), host.protocol, majors, channel, r)
      && (r.NoReleases? || r.ProtocolError? || r.EngineSupportError?)
    ensures forall v :: !Eligible(idx, v, host, majors)
  {
    assert forall v :: Eligible(idx, v, host, majors) ==> Candidate(Fits(idx, host), v, host.protocol, majors);
  }

  lemma VisitOne(idx: Index, host: Host, majors: seq<string>, visited: set<string>, v: string)
    requires visited <= idx.releases.Keys && v in idx.releases
    ensures WaitingDozes(idx, host, majors, visited + {v}) ==
      WaitingDozes(idx, host, majors, visited) + if Waiting(idx, v, host, majors) then {idx.releases[v].doze} else {}
  {
    var before, after := WaitingDozes(idx, host, majors, visited), WaitingDozes(idx, host, majors, visited + {v});
    forall d | d in before ensures d in after {
      var w :| w in visited && Waiting(idx, w, host, majors) && idx.releases[w].doze == d;
      assert w in visited + {v};
    }
    if Waiting(idx, v, host, majors) { assert v in visited + {v} && idx.releases[v].doze in after; }
  }

  lemma FirstNeed(doze: string)
    ensures LeastNeed({doze}, doze)
  {
    OrderFlips(doze, doze);
  }

  /** The running minimum over one more version. */
  lemma NeedGrows(dozes: set<string>, doze: string, need: string)
    requires LeastNeed(dozes, need)
    ensures LeastNeed(dozes + {doze}, if VersionOrder(doze, need) < 0 then doze else need)
  {
    OrderFlips(doze, need);
    OrderFlips(doze, doze);
    if Orderly(dozes + {doze}) { LeastGrows(dozes, doze, need); }
    if AboveV(if VersionOrder(doze, need) < 0 then doze else need) {
      TextAboveV(if VersionOrder(doze, need) < 0 then doze else need,
        if VersionOrder(doze, need) < 0 then need else doze);
    }
  }

  lemma LeastGrows(dozes: set<string>, doze: string, need: string)
    requires Orderly(dozes + {doze}) && need in dozes && forall d :: d in dozes ==> VersionOrder(need, d) <= 0
    ensures VersionOrder(doze, need) <= 0 ==> forall d :: d in dozes ==> VersionOrder(doze, d) <= 0
  {
    if VersionOrder(doze, need) <= 0 {
      forall d | d in dozes ensures VersionOrder(doze, d) <= 0 { OrderlyStrict(dozes + {doze}, doze, need, d); }
    }
  }

  /** Text at or above "v" is below only text at or above "v": numbers never compare above it. */
  lemma TextAboveV(x: string, y: string)
    requires AboveV(x) && VersionOrder(x, y) <= 0
    ensures AboveV(y)
  {
    var a, b := Split(x, '.')[0], Split(y, '.')[0];
    assert Atoi(a) == None by { assert !IsDigit(a[0]); }
    assert SegmentOrder(a, b) == Compare(a, b);
    CompareTotal(a, b);
  }

  // ---- What callers of SelectFor can rely on

  /** SelectFor succeeds exactly when some release matches the protocol, the majors and the host's age. */
  lemma SelectForExact(idx: Index, host: Host, majors: seq<string>, channel: string, r: Selection)
    requires SelectForAnswer(idx, host, majors, channel, r)
    ensures r.Selected? <==> exists v :: Eligible(idx, v, host, majors)
    ensures r.Selected? ==> Eligible(idx, r.version, host, majors) && r.release == idx.releases[r.version]
  {
    var fits := Fits(idx, host);
    assert forall v :: Candidate(fits, v, host.protocol, majors) <==> Eligible(idx, v, host, majors);
    if r.NoReleases? || r.ProtocolError? || r.EngineSupportError? {
      assert forall v :: !Candidate(fits, v, host.protocol, majors);
    }
  }

  /** The host can run the release: they speak one protocol, the release lists every major named, unless it lists none,
      and a released doze is as new as the release asks for. */
  predicate Runs(r: Release, host: Host, majors: seq<string>)
  {
    && r.protocol == host.protocol
    && (r.engines == [] || Named(majors) <= Elements(r.engines))
    && (DozeVersion(host.doze) && r.doze != "" ==> VersionOrder(TrimV(host.doze), r.doze) >= 0)
  }

  lemma RunsExactly(idx: Index, v: string, host: Host, majors: seq<string>)
    requires v in idx.releases
    ensures Eligible(idx, v, host, majors) <==> Runs(idx.releases[v], host, majors)
    ensures Waiting(idx, v, host, majors) <==>
      Runs(idx.releases[v].(doze := ""), host, majors) && !Runs(idx.releases[v], host, majors)
  {
    CoversExactly(idx.releases[v], majors);
    OrderFlips(idx.releases[v].doze, TrimV(host.doze));
  }

  /** What each answer of SelectFor says, in terms of what the host can run. */
  lemma SelectForMeans(idx: Index, host: Host, majors: seq<string>, channel: string, r: Selection)
    requires SelectForAnswer(idx, host, majors, channel, r)
    ensures r.Selected? <==> exists v :: v in idx.releases && Runs(idx.releases[v], host, majors)
    ensures match r
      case Selected(v, release) =>
        v in idx.releases && release == idx.releases[v] && Runs(release, host, majors)
      case NoReleases =>
        forall v :: v in idx.releases ==>
          DozeVersion(host.doze) && VersionOrder(TrimV(host.doze), idx.releases[v].doze) < 0
      case ProtocolError(spoken, _, _) =>
        && spoken == host.protocol
        && forall v :: v in idx.releases && idx.releases[v].protocol == spoken ==>
          DozeVersion(host.doze) && VersionOrder(TrimV(host.doze), idx.releases[v].doze) < 0
      case EngineSupportError(wanted, latest, supported) =>
        && wanted == majors && latest in idx.releases && supported == idx.releases[latest].engines
        && Runs(idx.releases[latest].(engines := []), host, majors) && !(Named(majors) <= Elements(supported))
      case DozeError(wanted, need, have) =>
        && wanted == majors && DozeVersion(host.doze) && host.doze in {have, "v" + have} && VersionOrder(have, need) < 0
        && exists v ::
          v in idx.releases && idx.releases[v].doze == need && Runs(idx.releases[v].(doze := ""), host, majors)
  {
    SelectForExact(idx, host, majors, channel, r);
    forall v | v in idx.releases
      ensures Eligible(idx, v, host, majors) <==> Runs(idx.releases[v], host, majors)
      ensures TooNew(idx.releases[v], host) ==> VersionOrder(TrimV(host.doze), idx.releases[v].doze) < 0
    {
      RunsExactly(idx, v, host, majors);
      OrderFlips(idx.releases[v].doze, TrimV(host.doze));
    }
    match r
    case DozeError(_, need, _) => AdviceMeans(idx, host, majors, need);
    case EngineSupportError(_, latest, _) => GateMeans(idx, host, majors, latest);
    case NoReleases => forall v | v in idx.releases ensures TooNew(idx.releases[v], host) { NoneFits(idx, host, v); }
    case ProtocolError(_, _, _) =>
      forall v | v in idx.releases && idx.releases[v].protocol == host.protocol ensures TooNew(idx.releases[v], host) {
        assert !Compatible(Fits(idx, host), v, host.protocol);
      }
    case _ =>
  }

  lemma NoneFits(idx: Index, host: Host, v: string)
    requires Fits(idx, host).releases == map[] && v in idx.releases
    ensures TooNew(idx.releases[v], host)
  {
    assert v !in Fits(idx, host).releases;
  }

  lemma AdviceMeans(idx: Index, host: Host, majors: seq<string>, need: string)
    requires need in WaitingDozes(idx, host, majors, idx.releases.Keys)
    ensures VersionOrder(TrimV(host.doze), need) < 0 && host.doze in {TrimV(host.doze), "v" + TrimV(host.doze)}
    ensures exists v ::
      v in idx.releases && idx.releases[v].doze == need && Runs(idx.releases[v].(doze := ""), host, majors)
  {
    var v :| v in idx.releases.Keys && Waiting(idx, v, host, majors) && idx.releases[v].doze == need;
    RunsExactly(idx, v, host, majors);
    OrderFlips(need, TrimV(host.doze));
    if TrimV(host.doze) != host.doze { assert host.doze == host.doze[..1] + host.doze[1..]; }
  }

  lemma GateMeans(idx: Index, host: Host, majors: seq<string>, latest: string)
    requires Compatible(Fits(idx, host), latest, host.protocol)
      && !Candidate(Fits(idx, host), latest, host.protocol, majors)
    ensures Runs(idx.releases[latest].(engines := []), host, majors)
    ensures !(Named(majors) <= Elements(idx.releases[latest].engines))
  {
    CoversExactly(idx.releases[latest], majors);
    OrderFlips(idx.releases[latest].doze, TrimV(host.doze));
  }

  /** The channel's release wins when it is eligible; otherwise the newest eligible one does. */
  lemma SelectForPicks(idx: Index, host: Host, majors: seq<string>, channel: string, r: Selection)
    requires SelectForAnswer(idx, host, majors, channel, r) && r.Selected?
    ensures
      var name := if channel == "" then "stable" else channel;
      if idx.channels.Some? && name in idx.channels.value && Eligible(idx, idx.channels.value[name], host, majors)
      then r.version == idx.channels.value[name]
      else OrderlyAmong(idx, host.protocol) ==> forall w :: Eligible(idx, w, host, majors) ==>
        VersionOrder(w, r.version) <= 0
  {
    var fits := Fits(idx, host);
    assert forall v :: Candidate(fits, v, host.protocol, majors) <==> Eligible(idx, v, host, majors);
    assert forall v :: Compatible(fits, v, host.protocol) ==> Compatible(idx, v, host.protocol);
  }

  /** The advice is worth following exactly when `need` does not start with the "v" the host's own version may.
      A needed version such as "v2.0" is compared without its "v" on the host's side only. */
  lemma AdviceWorks(idx: Index, host: Host, majors: seq<string>, channel: string, advice: Selection, again: Selection)
    requires SelectForAnswer(idx, host, majors, channel, advice) && advice.DozeError?
    requires SelectForAnswer(idx, host.(doze := advice.need), majors, channel, again)
    ensures again.Selected? <==> !(HasPrefix(advice.need, "v") && DozeVersion(advice.need))
  {
    var need := advice.need;
    var upgraded := host.(doze := need);
    SelectForExact(idx, upgraded, majors, channel, again);
    var v :| v in idx.releases.Keys && Waiting(idx, v, host, majors) && idx.releases[v].doze == need;
    OrderFlips(need, need);
    if !HasPrefix(need, "v") || !DozeVersion(need) {
      assert Eligible(idx, v, upgraded, majors);
    } else {
      assert need[0] == "v"[0] by { assert need[..1][0] == "v"[0]; }
      VersionStartsWithV(need);
      forall w | Candidate(idx, w, host.protocol, majors) ensures !Eligible(idx, w, upgraded, majors) {
        assert !Eligible(idx, w, host, majors) && Waiting(idx, w, host, majors);
        assert idx.releases[w].doze in WaitingDozes(idx, host, majors, idx.releases.Keys) && AboveV(need);
        TextOverNumber(idx.releases[w].doze, TrimV(need));
      }
      assert forall w :: Eligible(idx, w, upgraded, majors) ==> Candidate(idx, w, host.protocol, majors);
    }
  }

  /** An index whose one release asks for "v2". */
  const ASKS_FOR_V2 := Index(1, "m", "n", map["1" := Release(1, [], map[], "v2")], Some(map[]), "")

  /** A host at 1 is told to upgrade to "v2"; upgraded to "v2", it is told so again. */
  lemma AdviceFails()
    ensures SelectForAnswer(ASKS_FOR_V2, Host(1, "1"), [], "", DozeError([], "v2", "1"))
    ensures SelectForAnswer(ASKS_FOR_V2, Host(1, "v2"), [], "", DozeError([], "v2", "2"))
    ensures forall r :: SelectForAnswer(ASKS_FOR_V2, Host(1, "v2"), [], "", r) ==> !r.Selected?
  {
    assert "1"[..1] == ['1'] != "v" && "v2"[1..] == "2";
    AsksForV2("1", "1");
    AsksForV2("v2", "2");
    forall r | SelectForAnswer(ASKS_FOR_V2, Host(1, "v2"), [], "", r) ensures !r.Selected? {
      SelectForExact(ASKS_FOR_V2, Host(1, "v2"), [], "", r);
    }
  }

  lemma AsksForV2(doze: string, number: string)
    requires number in {"1", "2"} && TrimV(doze) == number
    ensures SelectForAnswer(ASKS_FOR_V2, Host(1, doze), [], "", DozeError([], "v2", number))
    ensures forall v :: !Eligible(ASKS_FOR_V2, v, Host(1, doze), [])
  {
    var idx, host := ASKS_FOR_V2, Host(1, doze);
    TooNewForV2(number);
    assert Waiting(idx, "1", host, []);
    assert WaitingDozes(idx, host, [], idx.releases.Keys) == {"v2"};
    FirstNeed("v2");
  }

  lemma TooNewForV2(number: string)
    requires number == "1" || number == "2"
    ensures VersionOrder("v2", number) > 0 && DozeVersion(number) && AboveV("v2")
  {
    SplitPlain("v2", '.');
    SplitPlain(number, '.');
    TextOverNumber("v2", number);
  }

  lemma VersionStartsWithV(need: string)
    requires need != "" && need[0] == 'v'
    ensures AboveV(need)
  {
    var rest := Split(need[1..], '.');
    assert Split(need, '.')[0] == ['v'] + rest[0];
  }

  lemma TextOverNumber(text: string, number: string)
    requires AboveV(text) && Split(number, '.')[0] != "" && AllDigits(Split(number, '.')[0])
    ensures VersionOrder(text, number) > 0
  {
    var a, b := Split(text, '.')[0], Split(number, '.')[0];
    assert Atoi(a) == None by { assert !IsDigit(a[0]); }
    assert IsDigit(b[0]);
    assert SegmentOrder(a, b) == Compare(a, b) == 1;
  }

  /** `need` is a tight threshold: where the versions asked for and an older doze are ordered, that doze
      does not succeed. */
  lemma AdviceIsTight(
    idx: Index, host: Host, majors: seq<string>, channel: string, advice: Selection, older: string, again: Selection)
    requires SelectForAnswer(idx, host, majors, channel, advice) && advice.DozeError?
    requires DozeVersion(older) && VersionOrder(TrimV(older), advice.need) < 0
    requires Orderly(WaitingDozes(idx, host, majors, idx.releases.Keys) + {TrimV(older)})
    requires SelectForAnswer(idx, host.(doze := older), majors, channel, again)
    ensures !again.Selected?
  {
    var h := host.(doze := older);
    var dozes := WaitingDozes(idx, host, majors, idx.releases.Keys);
    SelectForExact(idx, h, majors, channel, again);
    assert Orderly(dozes);
    forall w ensures !Eligible(idx, w, h, majors) {
      if Candidate(idx, w, host.protocol, majors) {
        assert !Eligible(idx, w, host, majors) && Waiting(idx, w, host, majors);
        assert idx.releases[w].doze in dozes;
        OrderlyStrict(dozes + {TrimV(older)}, TrimV(older), advice.need, idx.releases[w].doze);
        OrderFlips(TrimV(older), idx.releases[w].doze);
      }
    }
  }

  /** A newer released doze, or a development build, never loses a module an older one could run. */
  lemma NewerHostKeepsModules(
    idx: Index, host: Host, newer: string, majors: seq<string>, channel: string, r: Selection, again: Selection)
    requires !DozeVersion(newer) || (DozeVersion(host.doze) && VersionOrder(TrimV(host.doze), TrimV(newer)) <= 0)
    requires DozeVersion(newer) ==> Orderly(Dozes(idx) + {TrimV(host.doze), TrimV(newer)})
    requires SelectForAnswer(idx, host, majors, channel, r) && r.Selected?
    requires SelectForAnswer(idx, host.(doze := newer), majors, channel, again)
    ensures again.Selected?
  {
    var h := host.(doze := newer);
    SelectForExact(idx, host, majors, channel, r);
    SelectForExact(idx, h, majors, channel, again);
    var doze := idx.releases[r.version].doze;
    assert doze in Dozes(idx);
    if doze != "" && DozeVersion(newer) {
      OrderlyStrict(Dozes(idx) + {TrimV(host.doze), TrimV(newer)}, doze, TrimV(host.doze), TrimV(newer));
    }
    assert Eligible(idx, r.version, h, majors);
  }

  // ---- When the answer does not depend on map order

  ghost predicate IsNewest(vs: set<string>, v: string)
  {
    v in vs && forall w :: w in vs ==> VersionOrder(w, v) <= 0
  }

  ghost predicate OneNewest(vs: set<string>)
  {
    forall v, w :: IsNewest(vs, v) && IsNewest(vs, w) ==> v == w
  }

  /** What fixes the answer: the channel's head; else that no two newest candidates tie; without candidates, that no two
      newest compatible releases tie; without those, that the protocols' minimum is settled. */
  ghost predicate Settled(idx: Index, protocol: int, majors: seq<string>, channel: string)
  {
    if idx.releases == map[] then true
    else if CompatibleSet(idx, protocol) == {} then LeastSettled(idx)
    else if CandidateSet(idx, protocol, majors) == {} then OneNewest(CompatibleSet(idx, protocol))
    else ChannelHead(idx, protocol, majors, channel).Some? || OneNewest(CandidateSet(idx, protocol, majors))
  }

  lemma SpanSettled(idx: Index, a: int, b: int, c: int, d: int)
    requires idx.releases != map[] && SpanAnswer(idx, a, b) && SpanAnswer(idx, c, d) && LeastSettled(idx)
    ensures (a, b) == (c, d)
  {
    SettledIsLeast(idx, a, b);
    SettledIsLeast(idx, c, d);
    OneLeast(idx, a, c);
    OneGreatest(idx, a, b, c, d);
  }

  lemma OneLeast(idx: Index, a: int, c: int)
    requires IsLeast(idx, a) && IsLeast(idx, c)
    ensures a == c
  {
  }

  /** The maximum never depends on the order. */
  lemma OneGreatest(idx: Index, a: int, b: int, c: int, d: int)
    requires idx.releases != map[] && SpanAnswer(idx, a, b) && SpanAnswer(idx, c, d)
    ensures b == d
  {
    GreatestExactly(idx, a, b);
    GreatestExactly(idx, c, d);
  }

  lemma SelectOrderIndependent(
    idx: Index, protocol: int, majors: seq<string>, channel: string, r: Selection, s: Selection)
    requires OrderlyAmong(idx, protocol) && Settled(idx, protocol, majors, channel)
    requires SelectAnswer(idx, protocol, majors, channel, r) && SelectAnswer(idx, protocol, majors, channel, s)
    ensures r == s
  {
    var compatible, candidates := CompatibleSet(idx, protocol), CandidateSet(idx, protocol, majors);
    if r.Selected? {
      assert r.version in candidates && s.Selected? && s.version in candidates;
      assert forall w :: w in candidates <==> Candidate(idx, w, protocol, majors);
      assert r.version in compatible;
      if ChannelHead(idx, protocol, majors, channel).None? {
        assert OneNewest(candidates);
        assert IsNewest(candidates, r.version) && IsNewest(candidates, s.version);
      }
    } else if r.EngineSupportError? {
      assert r.latest in compatible && s.EngineSupportError? && candidates == {};
      assert IsNewest(compatible, r.latest) && IsNewest(compatible, s.latest);
    } else if r.ProtocolError? {
      assert compatible == {} && s.ProtocolError?;
      SpanSettled(idx, r.min, r.max, s.min, s.max);
    }
  }

  /** Where the compatible versions are ordered, Select has one answer for all map orders if and only
      if it is settled. */
  lemma SelectOrderIndependentExactly(idx: Index, protocol: int, majors: seq<string>, channel: string)
    requires OrderlyAmong(idx, protocol)
    ensures Settled(idx, protocol, majors, channel) <==>
      forall r, s ::
        SelectAnswer(idx, protocol, majors, channel, r) && SelectAnswer(idx, protocol, majors, channel, s) ==> r == s
  {
    if Settled(idx, protocol, majors, channel) {
      forall r, s | SelectAnswer(idx, protocol, majors, channel, r) && SelectAnswer(idx, protocol, majors, channel, s)
        ensures r == s
      {
        SelectOrderIndependent(idx, protocol, majors, channel, r, s);
      }
    } else {
      var r, s := TwoAnswers(idx, protocol, majors, channel);
    }
  }

  /** An index that is not settled has two answers. */
  lemma TwoAnswers(idx: Index, protocol: int, majors: seq<string>, channel: string) returns (r: Selection, s: Selection)
    requires OrderlyAmong(idx, protocol) && !Settled(idx, protocol, majors, channel)
    ensures SelectAnswer(idx, protocol, majors, channel, r) && SelectAnswer(idx, protocol, majors, channel, s) && r != s
  {
    var compatible, candidates := CompatibleSet(idx, protocol), CandidateSet(idx, protocol, majors);
    if compatible == {} {
      var zero :| zero in idx.releases && idx.releases[zero].protocol == 0;
      var positive :| positive in idx.releases && idx.releases[positive].protocol != 0;
      assert !Negative(idx, positive);
      var a, b := ZeroResets(idx, zero, positive);
      assert forall v :: Compatible(idx, v, protocol) ==> v in compatible;
      r, s := ProtocolError(protocol, Span(idx, a).0, Span(idx, a).1),
        ProtocolError(protocol, Span(idx, b).0, Span(idx, b).1);
    } else if candidates == {} {
      var v, w :| IsNewest(compatible, v) && IsNewest(compatible, w) && v != w;
      assert forall x :: Candidate(idx, x, protocol, majors) ==> x in candidates;
      assert forall x :: Compatible(idx, x, protocol) ==> x in compatible;
      r, s := EngineSupportError(majors, v, idx.releases[v].engines),
        EngineSupportError(majors, w, idx.releases[w].engines);
    } else {
      var v, w :| IsNewest(candidates, v) && IsNewest(candidates, w) && v != w;
      assert forall x :: Candidate(idx, x, protocol, majors) ==> x in candidates;
      r, s := Selected(v, idx.releases[v]), Selected(w, idx.releases[w]);
    }
  }

  /** No two of the versions compare equal. */
  ghost predicate Told(vs: set<string>)
  {
    forall v, w :: v in vs && w in vs && VersionOrder(v, w) == 0 ==> v == w
  }

  lemma ToldHasOneNewest(vs: set<string>, part: set<string>)
    requires Told(vs) && part <= vs
    ensures OneNewest(part)
  {
    forall v, w | IsNewest(part, v) && IsNewest(part, w) ensures v == w { OrderFlips(v, w); }
  }

  /** The doze versions the releases ask for. */
  function Dozes(idx: Index): set<string>
  {
    set v | v in idx.releases :: idx.releases[v].doze
  }

  /** Released versions told by their numbers, and the blank of a release that asks for none. */
  lemma CanonicalIsTold(vs: set<string>)
    requires forall v :: v in vs ==> v == "" || CanonicalVersion(v)
    ensures Orderly(vs) && Told(vs)
  {
    NumericOrderly(vs);
    forall v, w | v in vs && w in vs && VersionOrder(v, w) == 0 ensures v == w {
      if v != "" && w != "" { CanonicalOrder(v, w); } else { BlankIsLeast(v, w); }
    }
  }

  /** The version is among these, and none is lower. */
  ghost predicate IsLeastDoze(dozes: set<string>, need: string)
  {
    need in dozes && forall d :: d in dozes ==> VersionOrder(need, d) <= 0
  }

  /** What fixes SelectFor's answer: where only a newer doze would help, that one least doze is asked for; otherwise
      what fixes Select's, among the releases this doze is not too old for. */
  ghost predicate SettledFor(idx: Index, host: Host, majors: seq<string>, channel: string)
  {
    var dozes := WaitingDozes(idx, host, majors, idx.releases.Keys);
    if dozes != {} && CandidateSet(Fits(idx, host), host.protocol, majors) == {} then
      forall d, e :: IsLeastDoze(dozes, d) && IsLeastDoze(dozes, e) ==> d == e
    else Settled(Fits(idx, host), host.protocol, majors, channel)
  }

  lemma LeastNeedExactly(dozes: set<string>, need: string)
    requires Orderly(dozes)
    ensures LeastNeed(dozes, need) <==> IsLeastDoze(dozes, need)
  {
    if IsLeastDoze(dozes, need) && AboveV(need) {
      forall d | d in dozes ensures AboveV(d) { TextAboveV(need, d); }
    }
  }

  lemma EligibleFits(idx: Index, host: Host, majors: seq<string>)
    ensures CandidateSet(Fits(idx, host), host.protocol, majors) == {} <==> forall v :: !Eligible(idx, v, host, majors)
  {
    var candidates := CandidateSet(Fits(idx, host), host.protocol, majors);
    assert forall v :: v in candidates <==> Eligible(idx, v, host, majors);
  }

  lemma SelectForOrderIndependent(
    idx: Index, host: Host, majors: seq<string>, channel: string, r: Selection, s: Selection)
    requires OrderlyAmong(Fits(idx, host), host.protocol) && Orderly(WaitingDozes(idx, host, majors, idx.releases.Keys))
    requires SettledFor(idx, host, majors, channel)
    requires SelectForAnswer(idx, host, majors, channel, r) && SelectForAnswer(idx, host, majors, channel, s)
    ensures r == s
  {
    var dozes := WaitingDozes(idx, host, majors, idx.releases.Keys);
    SelectForExact(idx, host, majors, channel, r);
    SelectForExact(idx, host, majors, channel, s);
    EligibleFits(idx, host, majors);
    if dozes == {} { NoneWaiting(idx, host, majors); }
    if r.DozeError? && s.DozeError? {
      LeastNeedExactly(dozes, r.need);
      LeastNeedExactly(dozes, s.need);
    } else if !r.DozeError? && !s.DozeError? {
      SelectOrderIndependent(Fits(idx, host), host.protocol, majors, channel, r, s);
    }
  }

  /** Where the versions that fit and the doze fields of those that wait are ordered, SelectFor has one answer for all
      map orders, error details included, if and only if it is settled. */
  lemma SelectForOrderIndependentExactly(idx: Index, host: Host, majors: seq<string>, channel: string)
    requires OrderlyAmong(Fits(idx, host), host.protocol) && Orderly(WaitingDozes(idx, host, majors, idx.releases.Keys))
    ensures SettledFor(idx, host, majors, channel) <==>
      forall r, s ::
        SelectForAnswer(idx, host, majors, channel, r) && SelectForAnswer(idx, host, majors, channel, s) ==> r == s
  {
    if SettledFor(idx, host, majors, channel) {
      forall r, s | SelectForAnswer(idx, host, majors, channel, r) && SelectForAnswer(idx, host, majors, channel, s)
        ensures r == s
      {
        SelectForOrderIndependent(idx, host, majors, channel, r, s);
      }
    } else {
      var r, s := TwoAnswersFor(idx, host, majors, channel);
    }
  }

  lemma TwoAnswersFor(idx: Index, host: Host, majors: seq<string>, channel: string) returns (r: Selection, s: Selection)
    requires OrderlyAmong(Fits(idx, host), host.protocol) && Orderly(WaitingDozes(idx, host, majors, idx.releases.Keys))
    requires !SettledFor(idx, host, majors, channel)
    ensures SelectForAnswer(idx, host, majors, channel, r) && SelectForAnswer(idx, host, majors, channel, s) && r != s
  {
    var fits, dozes := Fits(idx, host), WaitingDozes(idx, host, majors, idx.releases.Keys);
    EligibleFits(idx, host, majors);
    if dozes != {} && CandidateSet(fits, host.protocol, majors) == {} {
      var d, e :| IsLeastDoze(dozes, d) && IsLeastDoze(dozes, e) && d != e;
      r := LeastIsAsked(idx, host, majors, channel, d);
      s := LeastIsAsked(idx, host, majors, channel, e);
    } else {
      r, s := TwoAnswers(fits, host.protocol, majors, channel);
      FitsAnswer(idx, host, majors, channel, r);
      FitsAnswer(idx, host, majors, channel, s);
    }
  }

  lemma LeastIsAsked(idx: Index, host: Host, majors: seq<string>, channel: string, need: string) returns (r: Selection)
    requires Orderly(WaitingDozes(idx, host, majors, idx.releases.Keys)) && forall v :: !Eligible(idx, v, host, majors)
    requires IsLeastDoze(WaitingDozes(idx, host, majors, idx.releases.Keys), need)
    ensures r == DozeError(majors, need, TrimV(host.doze)) && SelectForAnswer(idx, host, majors, channel, r)
  {
    LeastNeedExactly(WaitingDozes(idx, host, majors, idx.releases.Keys), need);
    r := DozeError(majors, need, TrimV(host.doze));
  }

  lemma FitsAnswer(idx: Index, host: Host, majors: seq<string>, channel: string, r: Selection)
    requires SelectAnswer(Fits(idx, host), host.protocol, majors, channel, r)
    requires WaitingDozes(idx, host, majors, idx.releases.Keys) == {}
      || CandidateSet(Fits(idx, host), host.protocol, majors) != {}
    ensures SelectForAnswer(idx, host, majors, channel, r)
  {
    var fits := Fits(idx, host);
    if WaitingDozes(idx, host, majors, idx.releases.Keys) == {} {
      NoneWaiting(idx, host, majors);
    } else {
      var v :| v in CandidateSet(fits, host.protocol, majors);
      assert Candidate(fits, v, host.protocol, majors) && Compatible(fits, v, host.protocol);
    }
  }

  /** So it is where no two of those versions compare equal; a protocol error needs a settled minimum too. */
  lemma ToldIsSettledFor(idx: Index, host: Host, majors: seq<string>, channel: string)
    requires Told(CompatibleSet(Fits(idx, host), host.protocol))
      && Told(WaitingDozes(idx, host, majors, idx.releases.Keys))
    requires CompatibleSet(Fits(idx, host), host.protocol) == {} ==> LeastSettled(Fits(idx, host))
    ensures SettledFor(idx, host, majors, channel)
  {
    var fits, dozes := Fits(idx, host), WaitingDozes(idx, host, majors, idx.releases.Keys);
    var compatible := CompatibleSet(fits, host.protocol);
    ToldHasOneNewest(compatible, compatible);
    ToldHasOneNewest(compatible, CandidateSet(fits, host.protocol, majors));
    forall d, e | IsLeastDoze(dozes, d) && IsLeastDoze(dozes, e) ensures d == e { OrderFlips(d, e); }
  }
}
