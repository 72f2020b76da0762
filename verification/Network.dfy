/** What an instance serves and the names that reach it (engine/network.go). */
module Network {
  import opened GoStrings

  const MAIN := "main"
  const SELF := "@"

  datatype Listener = Listener(name: string, port: int, protocol: string, routes: seq<string>)

  // ---- Labels

  predicate LabelChar(c: char) { 'a' <= c <= 'z' || '0' <= c <= '9' || c == '-' }

  predicate LabelChars(s: string) { s != [] && forall k :: 0 <= k < |s| ==> LabelChar(s[k]) }

  predicate Label(s: string) { LabelChars(s) && |s| <= 63 && s[0] != '-' && s[|s| - 1] != '-' }

  /** By its code point: a digit, a lower-case letter or the hyphen. */
  predicate LowerAscii(code: int) { 48 <= code < 58 || 97 <= code < 123 || code == 45 }

  /** A label: 1 to 63 lower-case ASCII letters, digits and hyphens, with no hyphen at either end. */
  lemma LabelExact(s: string)
    ensures LabelChars(s) <==> s != "" && forall c :: c in s ==> LowerAscii(c as int)
    ensures Label(s) <==>
      1 <= |s| <= 63 && (forall c :: c in s ==> LowerAscii(c as int)) && !HasPrefix(s, "-") && !HasSuffix(s, "-")
  {
    if s != "" {
      assert s[..1] == [s[0]] && s[|s| - 1..] == [s[|s| - 1]];
      if LabelChars(s) {
        forall c | c in s ensures LowerAscii(c as int) { var k :| 0 <= k < |s| && s[k] == c; }
      } else {
        var k :| 0 <= k < |s| && !LabelChar(s[k]);
        assert s[k] in s;
      }
    }
  }

  method ScanLabelChars(s: string) returns (ok: bool)
    ensures ok <==> LabelChars(s)
    ensures ok <==> s != "" && forall c :: c in s ==> LowerAscii(c as int)
  {
    LabelExact(s);
    for i := 0 to |s|
      invariant forall k :: 0 <= k < i ==> LabelChar(s[k])
    {
      if !LabelChar(s[i]) { return false; }
    }
    return s != "";
  }

  // ---- Routes

  datatype Route = Itself | Child(name: string) | Sibling(prefix: string)

  datatype Why = BadPrefix | MisplacedAt | NotALabel

  datatype Parsed = Good(route: Route) | Bad(why: Why)

  function ParseRoute(text: string): Parsed
  {
    if text == SELF then Good(Itself)
    else if HasSuffix(text, "@") then
      var prefix := text[..|text| - 1];
      if prefix == "" || !LabelChars(prefix) then Bad(BadPrefix) else Good(Sibling(prefix))
    else if '@' in text then Bad(MisplacedAt)
    else if !Label(text) then Bad(NotALabel)
    else Good(Child(text))
  }

  /** The three shapes a route may have, and how each is written. */
  predicate WellFormed(r: Route)
  {
    match r
    case Itself => true
    case Child(name) => Label(name)
    case Sibling(prefix) => LabelChars(prefix)
  }

  function Written(r: Route): string
  {
    match r
    case Itself => "@"
    case Child(name) => name
    case Sibling(prefix) => prefix + "@"
  }

  /** ParseRoute reads exactly the written forms of the well-formed routes, each as the route it was written from. */
  lemma ParseExact(text: string, r: Route)
    ensures ParseRoute(text) == Good(r) <==> WellFormed(r) && Written(r) == text
  {
    if HasSuffix(text, "@") {
      assert text == text[..|text| - 1] + "@";
      assert text[|text| - 1] == '@';
    }
    if r.Sibling? && Written(r) == text {
      assert text[..|text| - 1] == r.prefix;
      assert HasSuffix(text, "@");
    }
    if r.Child? && WellFormed(r) {
      assert '@' !in r.name;
    }
  }

  function RouteHost(text: string, host: string): Option<string>
  {
    match ParseRoute(text)
    case Bad(_) => None
    case Good(Child(name)) => Some(name + "." + host)
    case Good(Sibling(prefix)) => Some(prefix + host)
    case Good(Itself) => Some(host)
  }

  /** A route names a host in one of three ways and no other: "@" the instance's own, a label a child of it, and a
      prefix before "@" a sibling. */
  lemma RouteHostExact(text: string, host: string, named: string)
    ensures RouteHost(text, host) == Some(named) <==>
      || (text == "@" && named == host)
      || (Label(text) && named == text + "." + host)
      || (exists prefix :: LabelChars(prefix) && text == prefix + "@" && named == prefix + host)
  {
    forall r ensures ParseRoute(text) == Good(r) <==> WellFormed(r) && Written(r) == text { ParseExact(text, r); }
    if Label(text) {
      assert WellFormed(Child(text)) && Written(Child(text)) == text;
      assert '@' !in text;
    }
    forall prefix | LabelChars(prefix) && text == prefix + "@" ensures ParseRoute(text) == Good(Sibling(prefix)) {
      assert WellFormed(Sibling(prefix)) && Written(Sibling(prefix)) == text;
    }
  }

  /** Why a text is no route: a prefix that is none before "@", an "@" anywhere else, or no "@" and no label. */
  lemma WhyExact(text: string)
    ensures ParseRoute(text) == Bad(BadPrefix) <==>
      exists prefix :: text == prefix + "@" && prefix != "" && !LabelChars(prefix)
    ensures ParseRoute(text) == Bad(MisplacedAt) <==> '@' in text && forall prefix :: text != prefix + "@"
    ensures ParseRoute(text) == Bad(NotALabel) <==> '@' !in text && !Label(text)
  {
    if HasSuffix(text, "@") {
      assert text == text[..|text| - 1] + "@" && '@' in text;
      forall prefix | text == prefix + "@" ensures prefix == text[..|text| - 1] { }
    } else {
      forall prefix ensures text != prefix + "@" {
        assert |prefix + "@"| == |prefix| + 1 && (prefix + "@")[|prefix|..] == "@";
      }
    }
  }

  /** A name is covered by a host when it is the host or lies under it. */
  predicate Under(name: string, host: string)
  {
    name == host || HasSuffix(name, "." + host)
  }

  /** The names the route reaches on an instance called `host`. */
  predicate Covers(text: string, host: string, name: string)
  {
    RouteHost(text, host).Some? && Under(name, RouteHost(text, host).value)
  }

  predicate IsChild(text: string) { ParseRoute(text).Good? && ParseRoute(text).route.Child? }

  /** What a route puts before the instance's name. */
  function Stem(r: Route): string
  {
    match r
    case Itself => ""
    case Child(name) => name + "."
    case Sibling(prefix) => prefix
  }

  lemma HostOfStem(text: string, host: string)
    requires ParseRoute(text).Good?
    ensures RouteHost(text, host) == Some(Stem(ParseRoute(text).route) + host)
  {
    assert "" + host == host;
  }

  predicate EmptyOrDotted(x: string) { x == "" || x[|x| - 1] == '.' }

  /** A covered name is: nothing or something ending in a dot, the stem, the instance's name. */
  lemma CoveredName(text: string, host: string, name: string) returns (x: string)
    requires Covers(text, host, name)
    ensures EmptyOrDotted(x) && name == x + Stem(ParseRoute(text).route) + host
  {
    HostOfStem(text, host);
    var stem, h := Stem(ParseRoute(text).route), RouteHost(text, host).value;
    x := UnderSplit(name, h);
    Regroup(x, stem, host);
  }

  lemma UnderSplit(name: string, h: string) returns (x: string)
    requires Under(name, h)
    ensures EmptyOrDotted(x) && name == x + h
  {
    if name == h {
      x := "";
    } else {
      var at := |name| - |h|;
      x := name[..at];
      assert name[at - 1..] == "." + h;
      assert name[at - 1] == ("." + h)[0];
      assert name[at..] == name[at - 1..][1..] == h;
    }
  }

  /** Dots only at the end of a child's stem: a longer stem ends another only past a dot. */
  lemma StemsApart(a: Route, b: Route, x: string, y: string)
    requires WellFormed(a) && WellFormed(b) && EmptyOrDotted(x)
    requires x + Stem(a) == y + Stem(b) && |Stem(a)| < |Stem(b)|
    ensures a.Itself? && b.Child?
  {
    var s, t := Stem(a), Stem(b);
    var gap := |t| - |s|;
    assert |x| == |y| + gap;
    assert (x + s)[|x| - 1] == '.';
    assert (y + t)[|x| - 1] == t[gap - 1];
    assert b.Child? ==> forall k :: 0 <= k < |b.name| ==> t[k] == b.name[k];
  }

  lemma SameStem(a: Route, b: Route)
    requires WellFormed(a) && WellFormed(b) && Stem(a) == Stem(b)
    ensures a == b
  {
    if a.Child? { assert Stem(a)[|Stem(a)| - 1] == '.'; }
    if b.Child? { assert Stem(b)[|Stem(b)| - 1] == '.'; }
    if a.Child? && b.Child? { assert Stem(a)[..|Stem(a)| - 1] == a.name && Stem(b)[..|Stem(b)| - 1] == b.name; }
  }

  /** Two routes reach a common name only when they are the same, or one is "@" and the other a child. */
  lemma Apart(r: string, s: string, host: string, name: string)
    requires Covers(r, host, name) && Covers(s, host, name)
    ensures r == s || (r == SELF && IsChild(s)) || (s == SELF && IsChild(r))
  {
    var a, b := ParseRoute(r).route, ParseRoute(s).route;
    ParseExact(r, a);
    ParseExact(s, b);
    var x := CoveredName(r, host, name);
    var y := CoveredName(s, host, name);
    assert name[..|name| - |host|] == x + Stem(a) && name[..|name| - |host|] == y + Stem(b);
    if |Stem(a)| < |Stem(b)| {
      StemsApart(a, b, x, y);
    } else if |Stem(b)| < |Stem(a)| {
      StemsApart(b, a, y, x);
    } else {
      assert (x + Stem(a))[|x|..] == Stem(a) && (y + Stem(b))[|y|..] == Stem(b);
      SameStem(a, b);
    }
  }

  /** Every name a child reaches, "@" reaches too. */
  lemma ChildInsideSelf(s: string, host: string, name: string)
    requires IsChild(s) && Covers(s, host, name)
    ensures Covers(SELF, host, name)
    ensures |RouteHost(SELF, host).value| < |RouteHost(s, host).value|
  {
    var x := CoveredName(s, host, name);
    assert name[|name| - |host| - 1..] == "." + host;
  }

  /** The names of two routes of one instance are disjoint, unless one route is "@" and the other a child (or they are
      the same route), when one set lies inside the other. */
  lemma RoutesAreLaminar(r: string, s: string, host: string)
    requires ParseRoute(r).Good? && ParseRoute(s).Good?
    ensures (exists name :: Covers(r, host, name) && Covers(s, host, name)) <==>
      r == s || (r == SELF && IsChild(s)) || (s == SELF && IsChild(r))
    ensures r == SELF && IsChild(s) ==> forall name :: Covers(s, host, name) ==> Covers(r, host, name)
  {
    forall name | Covers(r, host, name) && Covers(s, host, name)
      ensures r == s || (r == SELF && IsChild(s)) || (s == SELF && IsChild(r))
    {
      Apart(r, s, host, name);
    }
    var narrow := if IsChild(r) then r else s;
    assert Covers(narrow, host, RouteHost(narrow, host).value);
    if IsChild(narrow) { ChildInsideSelf(narrow, host, RouteHost(narrow, host).value); }
    if r == SELF && IsChild(s) {
      forall name | Covers(s, host, name) ensures Covers(r, host, name) { ChildInsideSelf(s, host, name); }
    }
  }

  /** For one instance, different routes name different hosts. */
  lemma RouteHostInjective(r: string, s: string, host: string)
    requires ParseRoute(r).Good? && ParseRoute(s).Good?
    ensures RouteHost(r, host) == RouteHost(s, host) <==> r == s
  {
    if RouteHost(r, host) == RouteHost(s, host) {
      var h := RouteHost(r, host).value;
      Apart(r, s, host, h);
      if r != s { ChildInsideSelf(if r == SELF then s else r, host, h); }
    }
  }

  // ---- Validation

  datatype Problem =
    | BadName(name: string)
    | TwoNamed(name: string)
    | BadPort(name: string, port: int)
    | SharedPort(first: string, name: string, port: int)
    | TcpRoutes(name: string)
    | BadProtocol(name: string, protocol: string)
    | BadRoute(name: string, why: Why)
    | RouteTwice(route: string)
    | NoMain

  predicate PortInRange(l: Listener) { 1 <= l.port <= 65535 }

  predicate Declared(l: Listener) { l.name == MAIN && l.port == 0 }

  /** What the host takes: names are labels, all different, with "main" among them; ports in range and all different,
      the main listener's possibly 0; a known protocol; routes on http listeners only, well formed, none given twice. */
  ghost predicate Valid(ls: seq<Listener>)
  {
    && (forall i :: 0 <= i < |ls| ==> Label(ls[i].name))
    && (forall i, j :: 0 <= i < j < |ls| ==> ls[i].name != ls[j].name)
    && (exists i :: 0 <= i < |ls| && ls[i].name == MAIN)
    && (forall i :: 0 <= i < |ls| ==> Declared(ls[i]) || PortInRange(ls[i]))
    && (forall i, j :: 0 <= i < j < |ls| ==> ls[i].port != ls[j].port)
    && (forall i :: 0 <= i < |ls| ==> ls[i].protocol == "http" || (ls[i].protocol == "tcp" && ls[i].routes == []))
    && (forall i, a :: 0 <= i < |ls| && 0 <= a < |ls[i].routes| ==> ParseRoute(ls[i].routes[a]).Good?)
    && (forall i, a, j, b ::
          0 <= i < |ls| && 0 <= j < |ls| && 0 <= a < |ls[i].routes| && 0 <= b < |ls[j].routes| && (i, a) != (j, b)
          ==> ls[i].routes[a] != ls[j].routes[b])
  }

  predicate NamedBefore(ls: seq<Listener>, k: nat, name: string)
    requires k <= |ls|
  {
    exists i :: 0 <= i < k && ls[i].name == name
  }

  /** The first of the first `k` listeners on `port`, or `k`. */
  function FirstOn(ls: seq<Listener>, k: nat, port: int): (i: nat)
    requires k <= |ls|
    ensures i <= k
    ensures i < k ==> ls[i].port == port
    ensures forall j :: 0 <= j < i ==> ls[j].port != port
  {
    if k == 0 then 0
    else
      var before := FirstOn(ls, k - 1, port);
      if before < k - 1 || ls[k - 1].port == port then before else k
  }

  /** Is `route` among the routes of the first `k` listeners and the first `a` of listener `k`'s? */
  predicate GivenBefore(ls: seq<Listener>, k: nat, a: nat, route: string)
    requires k <= |ls| && (if k < |ls| then a <= |ls[k].routes| else a == 0)
    decreases k, a
  {
    if a > 0 then ls[k].routes[a - 1] == route || GivenBefore(ls, k, a - 1, route)
    else k > 0 && GivenBefore(ls, k - 1, |ls[k - 1].routes|, route)
  }

  lemma {:induction false} GivenAt(ls: seq<Listener>, k: nat, a: nat, i: nat, b: nat)
    requires k <= |ls| && (if k < |ls| then a <= |ls[k].routes| else a == 0)
    requires (i < k && b < |ls[i].routes|) || (i == k && b < a)
    ensures GivenBefore(ls, k, a, ls[i].routes[b])
    decreases k, a
  {
    if a > 0 {
      if (i, b) != (k, a - 1) { GivenAt(ls, k, a - 1, i, b); }
    } else {
      GivenAt(ls, k - 1, |ls[k - 1].routes|, i, b);
    }
  }

  lemma {:induction false} WhereGiven(ls: seq<Listener>, k: nat, a: nat, route: string) returns (i: nat, b: nat)
    requires k <= |ls| && (if k < |ls| then a <= |ls[k].routes| else a == 0)
    requires GivenBefore(ls, k, a, route)
    ensures i < |ls| && b < |ls[i].routes| && ls[i].routes[b] == route
    ensures i < k || (i == k && b < a)
    decreases k, a
  {
    if a == 0 {
      i, b := WhereGiven(ls, k - 1, |ls[k - 1].routes|, route);
    } else if ls[k].routes[a - 1] == route {
      i, b := k, a - 1;
    } else {
      i, b := WhereGiven(ls, k, a - 1, route);
    }
  }

  function NameProblems(ls: seq<Listener>, k: nat): seq<Problem>
    requires k < |ls|
  {
    (if Label(ls[k].name) then [] else [BadName(ls[k].name)]) +
    (if NamedBefore(ls, k, ls[k].name) then [TwoNamed(ls[k].name)] else [])
  }

  function PortProblems(ls: seq<Listener>, k: nat): seq<Problem>
    requires k < |ls|
  {
    var l, first := ls[k], FirstOn(ls, k, ls[k].port);
    if Declared(l) then []
    else if !PortInRange(l) then [BadPort(l.name, l.port)]
    else if first < k then [SharedPort(ls[first].name, l.name, l.port)]
    else []
  }

  function ProtocolProblems(l: Listener): seq<Problem>
  {
    if l.protocol == "tcp" then (if |l.routes| > 0 then [TcpRoutes(l.name)] else [])
    else if l.protocol == "http" then []
    else [BadProtocol(l.name, l.protocol)]
  }

  function RouteProblem(ls: seq<Listener>, k: nat, a: nat): seq<Problem>
    requires k < |ls| && a < |ls[k].routes|
  {
    match ParseRoute(ls[k].routes[a])
    case Bad(why) => [BadRoute(ls[k].name, why)]
    case Good(_) => if GivenBefore(ls, k, a, ls[k].routes[a]) then [RouteTwice(ls[k].routes[a])] else []
  }

  /** Lists from the first `k` places, one after another. */
  function Sum(part: nat --> seq<Problem>, k: nat): seq<Problem>
    requires forall i :: 0 <= i < k ==> part.requires(i)
  {
    if k == 0 then [] else Sum(part, k - 1) + part(k - 1)
  }

  /** What is wrong with each of a listener's routes. */
  function PerRoute(ls: seq<Listener>, k: nat): nat --> seq<Problem>
    requires k < |ls|
  {
    (a: nat) requires a < |ls[k].routes| => RouteProblem(ls, k, a)
  }

  function ListenerProblems(ls: seq<Listener>, k: nat): seq<Problem>
    requires k < |ls|
  {
    NameProblems(ls, k) + PortProblems(ls, k) + ProtocolProblems(ls[k]) + Sum(PerRoute(ls, k), |ls[k].routes|)
  }

  /** What is wrong with each listener, looked at beside those before it. */
  function PerListener(ls: seq<Listener>): nat --> seq<Problem>
  {
    (i: nat) requires i < |ls| => ListenerProblems(ls, i)
  }

  function Problems(ls: seq<Listener>): seq<Problem>
  {
    Sum(PerListener(ls), |ls|) + (if NamedBefore(ls, |ls|, MAIN) then [] else [NoMain])
  }

  /** The single pass, which remembers the names, ports and routes it has seen in three maps. */
  method ValidateNetwork(ls: seq<Listener>) returns (errs: seq<Problem>)
    ensures errs == Problems(ls)
    ensures errs == [] <==> Valid(ls)
  {
    errs := [];
    var names: map<string, bool>, ports: map<int, string>, routes: map<string, bool> := map[], map[], map[];
    for k := 0 to |ls|
      invariant errs == Sum(PerListener(ls), k)
      invariant forall n :: n in names <==> NamedBefore(ls, k, n)
      invariant PortsSeen(ls, k, ports)
      invariant RoutesSeen(ls, k, 0, routes)
    {
      var wrong;
      wrong, names, ports, routes := CheckListener(ls, k, names, ports, routes);
      errs := errs + wrong;
    }
    if MAIN !in names { errs := errs + [NoMain]; }
    NoProblemsExactly(ls);
  }

  method CheckListener(
    ls: seq<Listener>, k: nat, names: map<string, bool>, ports: map<int, string>, routes: map<string, bool>)
    returns (
      errs: seq<Problem>, namesAfter: map<string, bool>, portsAfter: map<int, string>, routesAfter: map<string, bool>)
    requires k < |ls| && PortsSeen(ls, k, ports) && RoutesSeen(ls, k, 0, routes)
    requires forall n :: n in names <==> NamedBefore(ls, k, n)
    ensures errs == PerListener(ls)(k)
    ensures PortsSeen(ls, k + 1, portsAfter) && RoutesSeen(ls, k + 1, 0, routesAfter)
    ensures forall n :: n in namesAfter <==> NamedBefore(ls, k + 1, n)
  {
    var wrongPort, wrongProtocol, wrongRoutes;
    errs, namesAfter := CheckName(ls, k, names);
    wrongPort, portsAfter := CheckPort(ls, k, ports);
    wrongProtocol := CheckProtocol(ls[k]);
    wrongRoutes, routesAfter := CheckRoutes(ls, k, routes);
    errs := errs + wrongPort + wrongProtocol + wrongRoutes;
  }

  method CheckName(ls: seq<Listener>, k: nat, names: map<string, bool>)
    returns (errs: seq<Problem>, after: map<string, bool>)
    requires k < |ls| && forall n :: n in names <==> NamedBefore(ls, k, n)
    ensures errs == NameProblems(ls, k)
    ensures forall n :: n in after <==> NamedBefore(ls, k + 1, n)
  {
    errs := [];
    var name := ls[k].name;
    if !Label(name) { errs := errs + [BadName(name)]; }
    if name in names { errs := errs + [TwoNamed(name)]; }
    after := names[name := true];
  }

  method CheckPort(ls: seq<Listener>, k: nat, ports: map<int, string>)
    returns (errs: seq<Problem>, after: map<int, string>)
    requires k < |ls| && PortsSeen(ls, k, ports)
    ensures errs == PortProblems(ls, k)
    ensures PortsSeen(ls, k + 1, after)
  {
    var l := ls[k];
    errs, after := [], ports;
    if l.name == MAIN && l.port == 0 {
    } else if l.port < 1 || l.port > 65535 {
      errs := [BadPort(l.name, l.port)];
    } else if l.port in ports {
      errs := [SharedPort(ports[l.port], l.name, l.port)];
    } else {
      after := ports[l.port := l.name];
    }
  }

  method CheckProtocol(l: Listener) returns (errs: seq<Problem>)
    ensures errs == ProtocolProblems(l)
  {
    errs := [];
    if l.protocol == "tcp" {
      if |l.routes| > 0 { errs := [TcpRoutes(l.name)]; }
    } else if l.protocol != "http" {
      errs := [BadProtocol(l.name, l.protocol)];
    }
  }

  method CheckRoutes(ls: seq<Listener>, k: nat, routes: map<string, bool>)
    returns (errs: seq<Problem>, after: map<string, bool>)
    requires k < |ls| && RoutesSeen(ls, k, 0, routes)
    ensures errs == Sum(PerRoute(ls, k), |ls[k].routes|)
    ensures RoutesSeen(ls, k + 1, 0, after)
  {
    errs, after := [], routes;
    for a := 0 to |ls[k].routes|
      invariant errs == Sum(PerRoute(ls, k), a)
      invariant RoutesSeen(ls, k, a, after)
    {
      var wrong: seq<Problem>;
      wrong, after := CheckRoute(ls, k, a, after);
      errs := errs + wrong;
    }
    NextListener(ls, k, after);
  }

  method CheckRoute(ls: seq<Listener>, k: nat, a: nat, routes: map<string, bool>)
    returns (errs: seq<Problem>, after: map<string, bool>)
    requires k < |ls| && a < |ls[k].routes| && RoutesSeen(ls, k, a, routes)
    ensures errs == PerRoute(ls, k)(a)
    ensures RoutesSeen(ls, k, a + 1, after)
  {
    errs, after := [], routes;
    var r := ls[k].routes[a];
    match ParseRoute(r) {
      case Bad(why) => errs := [BadRoute(ls[k].name, why)];
      case Good(_) =>
        if r in after { errs := [RouteTwice(r)]; }
        after := after[r := true];
    }
  }

  lemma NextListener(ls: seq<Listener>, k: nat, routes: map<string, bool>)
    requires k < |ls| && RoutesSeen(ls, k, |ls[k].routes|, routes)
    ensures RoutesSeen(ls, k + 1, 0, routes)
  {
    forall r ensures GivenBefore(ls, k + 1, 0, r) == GivenBefore(ls, k, |ls[k].routes|, r) { }
  }

  /** `routes` holds the well-formed routes given so far. */
  ghost predicate RoutesSeen(ls: seq<Listener>, k: nat, a: nat, routes: map<string, bool>)
    requires k <= |ls| && (if k < |ls| then a <= |ls[k].routes| else a == 0)
  {
    forall r :: r in routes <==> ParseRoute(r).Good? && GivenBefore(ls, k, a, r)
  }

  /** `ports` holds the ports in range taken so far, each with the first listener that took it. */
  ghost predicate PortsSeen(ls: seq<Listener>, k: nat, ports: map<int, string>)
    requires k <= |ls|
  {
    && (forall p :: p in ports <==> 1 <= p <= 65535 && FirstOn(ls, k, p) < k)
    && (forall p :: p in ports ==> ports[p] == ls[FirstOn(ls, k, p)].name)
  }

  /** The pass finds nothing exactly when the network is valid. */
  lemma NoProblemsExactly(ls: seq<Listener>)
    ensures Problems(ls) == [] <==> Valid(ls)
  {
    SumEmpty(PerListener(ls), |ls|);
    if Valid(ls) {
      forall k | 0 <= k < |ls| ensures ListenerProblems(ls, k) == [] {
        ValidIsClean(ls, k);
        CleanExactly(ls, k);
      }
    } else if Problems(ls) == [] {
      forall k | 0 <= k < |ls| ensures Clean(ls, k) {
        assert PerListener(ls)(k) == [];
        CleanExactly(ls, k);
      }
      CleanIsValid(ls);
    }
  }

  /** Nothing is wrong with listener `k` beside those before it. */
  ghost predicate Clean(ls: seq<Listener>, k: nat)
    requires k < |ls|
  {
    && NameProblems(ls, k) == [] && PortProblems(ls, k) == [] && ProtocolProblems(ls[k]) == []
    && forall a :: 0 <= a < |ls[k].routes| ==> RouteProblem(ls, k, a) == []
  }

  lemma BothEmpty(xs: seq<Problem>, ys: seq<Problem>)
    ensures xs + ys == [] <==> xs == [] && ys == []
  {
    assert |xs + ys| == |xs| + |ys|;
  }

  lemma CleanExactly(ls: seq<Listener>, k: nat)
    requires k < |ls|
    ensures ListenerProblems(ls, k) == [] <==> Clean(ls, k)
  {
    BothEmpty(NameProblems(ls, k), PortProblems(ls, k));
    BothEmpty(NameProblems(ls, k) + PortProblems(ls, k), ProtocolProblems(ls[k]));
    var n := |ls[k].routes|;
    BothEmpty(NameProblems(ls, k) + PortProblems(ls, k) + ProtocolProblems(ls[k]), Sum(PerRoute(ls, k), n));
    SumEmpty(PerRoute(ls, k), n);
    assert forall a: nat :: a < n ==> PerRoute(ls, k)(a) == RouteProblem(ls, k, a);
  }

  /** A sum of lists is empty exactly when each list is. */
  lemma {:induction false} SumEmpty(part: nat --> seq<Problem>, k: nat)
    requires forall i :: 0 <= i < k ==> part.requires(i)
    ensures Sum(part, k) == [] <==> forall i :: 0 <= i < k ==> part(i) == []
  {
    if k > 0 {
      SumEmpty(part, k - 1);
      BothEmpty(Sum(part, k - 1), part(k - 1));
    }
  }

  lemma ValidIsClean(ls: seq<Listener>, k: nat)
    requires Valid(ls) && k < |ls|
    ensures Clean(ls, k)
  {
    forall a | 0 <= a < |ls[k].routes| ensures RouteProblem(ls, k, a) == [] {
      assert ParseRoute(ls[k].routes[a]).Good?;
      if GivenBefore(ls, k, a, ls[k].routes[a]) {
        var i, b := WhereGiven(ls, k, a, ls[k].routes[a]);
      }
    }
  }

  lemma CleanIsValid(ls: seq<Listener>)
    requires forall k :: 0 <= k < |ls| ==> Clean(ls, k)
    requires NamedBefore(ls, |ls|, MAIN)
    ensures Valid(ls)
  {
    forall k | 0 <= k < |ls|
      ensures Label(ls[k].name) && (Declared(ls[k]) || PortInRange(ls[k]))
      ensures ls[k].protocol == "http" || (ls[k].protocol == "tcp" && ls[k].routes == [])
      ensures forall i :: 0 <= i < k ==> ls[i].name != ls[k].name
      ensures forall a :: 0 <= a < |ls[k].routes| ==>
        ParseRoute(ls[k].routes[a]).Good? && !GivenBefore(ls, k, a, ls[k].routes[a])
    {
      assert Clean(ls, k);
      forall a | 0 <= a < |ls[k].routes|
        ensures ParseRoute(ls[k].routes[a]).Good? && !GivenBefore(ls, k, a, ls[k].routes[a])
      {
        assert RouteProblem(ls, k, a) == [];
      }
    }
    forall i, j | 0 <= i < j < |ls| ensures ls[i].port != ls[j].port {
      assert Clean(ls, j);
      assert ls[i].name != ls[j].name;
    }
    forall i, a, j, b | 0 <= i < |ls| && 0 <= j < |ls| && 0 <= a < |ls[i].routes| && 0 <= b < |ls[j].routes|
      && (i, a) != (j, b)
      ensures ls[i].routes[a] != ls[j].routes[b]
    {
      if i < j || (i == j && a < b) { GivenAt(ls, j, b, i, a); } else { GivenAt(ls, i, a, j, b); }
    }
  }

  // ---- Each problem by itself

  /** The problem is there. */
  ghost predicate Wrong(ls: seq<Listener>, p: Problem)
  {
    match p
    case BadName(n) => exists k :: 0 <= k < |ls| && ls[k].name == n && !Label(n)
    case TwoNamed(n) => exists i, k :: 0 <= i < k < |ls| && ls[i].name == ls[k].name == n
    case BadPort(n, port) =>
      && !(1 <= port <= 65535) && !(n == "main" && port == 0)
      && exists k :: 0 <= k < |ls| && ls[k].name == n && ls[k].port == port
    case SharedPort(first, n, port) =>
      1 <= port <= 65535 && exists i, k :: 0 <= i < k < |ls| && Shares(ls, i, k, first, n, port)
    case TcpRoutes(n) => exists k :: 0 <= k < |ls| && ls[k].name == n && ls[k].protocol == "tcp" && ls[k].routes != []
    case BadProtocol(n, protocol) =>
      protocol !in {"tcp", "http"} && exists k :: 0 <= k < |ls| && ls[k].name == n && ls[k].protocol == protocol
    case BadRoute(n, why) =>
      exists k, a :: 0 <= k < |ls| && 0 <= a < |ls[k].routes| && ls[k].name == n
        && ParseRoute(ls[k].routes[a]) == Bad(why)
    case RouteTwice(r) => ParseRoute(r).Good? && exists i, b, k, a :: Again(ls, i, b, k, a, r)
    case NoMain => forall k :: 0 <= k < |ls| ==> ls[k].name != "main"
  }

  /** Listener `i` is the first on the port, and listener `k` is on it too. */
  predicate Shares(ls: seq<Listener>, i: nat, k: nat, first: string, n: string, port: int)
    requires i < |ls| && k < |ls|
  {
    && (ls[i].name, ls[i].port, ls[k].name, ls[k].port) == (first, port, n, port)
    && forall j :: 0 <= j < i ==> ls[j].port != port
  }

  /** The route is given twice: the `b`-th of listener `i` and, later on, the `a`-th of listener `k`. */
  predicate Again(ls: seq<Listener>, i: nat, b: nat, k: nat, a: nat, r: string)
  {
    && i <= k < |ls| && b < |ls[i].routes| && a < |ls[k].routes| && (i < k || b < a)
    && ls[i].routes[b] == ls[k].routes[a] == r
  }

  lemma {:induction false} InSum(part: nat --> seq<Problem>, k: nat, p: Problem)
    requires forall i :: 0 <= i < k ==> part.requires(i)
    ensures p in Sum(part, k) <==> exists i :: 0 <= i < k && p in part(i)
  {
    if k > 0 { InSum(part, k - 1, p); }
  }

  /** What is wrong with one listener is one of these four kinds of things. */
  lemma InListener(ls: seq<Listener>, k: nat, p: Problem)
    requires k < |ls|
    ensures p in PerListener(ls)(k) <==>
      || p in NameProblems(ls, k) || p in PortProblems(ls, k) || p in ProtocolProblems(ls[k])
      || exists a :: 0 <= a < |ls[k].routes| && p in RouteProblem(ls, k, a)
  {
    InSum(PerRoute(ls, k), |ls[k].routes|, p);
    assert forall a: nat :: a < |ls[k].routes| ==> PerRoute(ls, k)(a) == RouteProblem(ls, k, a);
  }

  lemma NameIsWrong(ls: seq<Listener>, p: Problem)
    ensures (exists k :: 0 <= k < |ls| && p in NameProblems(ls, k)) <==> (p.BadName? || p.TwoNamed?) && Wrong(ls, p)
  {
    if p.TwoNamed? && Wrong(ls, p) {
      var i, k :| 0 <= i < k < |ls| && ls[i].name == ls[k].name == p.name;
      assert NamedBefore(ls, k, p.name);
      assert p in NameProblems(ls, k);
    } else if p.BadName? && Wrong(ls, p) {
      var k :| 0 <= k < |ls| && ls[k].name == p.name;
      assert p in NameProblems(ls, k);
    }
  }

  lemma PortIsWrong(ls: seq<Listener>, p: Problem)
    ensures (exists k :: 0 <= k < |ls| && p in PortProblems(ls, k)) <==> (p.BadPort? || p.SharedPort?) && Wrong(ls, p)
  {
    forall k | 0 <= k < |ls| && p in PortProblems(ls, k) ensures (p.BadPort? || p.SharedPort?) && Wrong(ls, p) {
      var first := FirstOn(ls, k, ls[k].port);
      if p.SharedPort? { assert Shares(ls, first, k, p.first, p.name, p.port); }
    }
    if p.SharedPort? && Wrong(ls, p) {
      var i, k :| 0 <= i < k < |ls| && Shares(ls, i, k, p.first, p.name, p.port);
      assert FirstOn(ls, k, p.port) == i;
      assert p in PortProblems(ls, k);
    } else if p.BadPort? && Wrong(ls, p) {
      var k :| 0 <= k < |ls| && ls[k].name == p.name && ls[k].port == p.port;
      assert p in PortProblems(ls, k);
    }
  }

  lemma ProtocolIsWrong(ls: seq<Listener>, p: Problem)
    ensures (exists k :: 0 <= k < |ls| && p in ProtocolProblems(ls[k])) <==>
      (p.TcpRoutes? || p.BadProtocol?) && Wrong(ls, p)
  {
    if p.TcpRoutes? && Wrong(ls, p) {
      var k :| 0 <= k < |ls| && ls[k].name == p.name && ls[k].protocol == "tcp" && ls[k].routes != [];
      assert p in ProtocolProblems(ls[k]);
    } else if p.BadProtocol? && Wrong(ls, p) {
      var k :| 0 <= k < |ls| && ls[k].name == p.name && ls[k].protocol == p.protocol;
      assert p in ProtocolProblems(ls[k]);
    }
  }

  lemma RouteIsWrong(ls: seq<Listener>, p: Problem)
    ensures (exists k, a :: 0 <= k < |ls| && 0 <= a < |ls[k].routes| && p in RouteProblem(ls, k, a)) <==>
      (p.BadRoute? || p.RouteTwice?) && Wrong(ls, p)
  {
    forall k, a | 0 <= k < |ls| && 0 <= a < |ls[k].routes| && p in RouteProblem(ls, k, a)
      ensures (p.BadRoute? || p.RouteTwice?) && Wrong(ls, p)
    {
      if p.RouteTwice? {
        var i, b := WhereGiven(ls, k, a, p.route);
        assert Again(ls, i, b, k, a, p.route);
      }
    }
    if p.RouteTwice? && Wrong(ls, p) {
      var i, b, k, a :| Again(ls, i, b, k, a, p.route);
      GivenAt(ls, k, a, i, b);
      assert p in RouteProblem(ls, k, a);
    } else if p.BadRoute? && Wrong(ls, p) {
      var k, a :| 0 <= k < |ls| && 0 <= a < |ls[k].routes| && ls[k].name == p.name
        && ParseRoute(ls[k].routes[a]) == Bad(p.why);
      assert p in RouteProblem(ls, k, a);
    }
  }

  /** Every problem that is there is reported, and none that is not. */
  lemma ProblemsExactly(ls: seq<Listener>, p: Problem)
    ensures p in Problems(ls) <==> Wrong(ls, p)
  {
    InSum(PerListener(ls), |ls|, p);
    forall k | 0 <= k < |ls|
      ensures p in PerListener(ls)(k) <==>
        || p in NameProblems(ls, k) || p in PortProblems(ls, k) || p in ProtocolProblems(ls[k])
        || exists a :: 0 <= a < |ls[k].routes| && p in RouteProblem(ls, k, a)
    {
      InListener(ls, k, p);
    }
    NameIsWrong(ls, p);
    PortIsWrong(ls, p);
    ProtocolIsWrong(ls, p);
    RouteIsWrong(ls, p);
  }

  // ---- Who answers for a name

  /** The `a`-th route of listener `i` covers the name. */
  predicate Reaches(ls: seq<Listener>, host: string, name: string, i: nat, a: nat)
  {
    i < |ls| && a < |ls[i].routes| && Covers(ls[i].routes[a], host, name)
  }

  /** It covers the name, and no other route that does is as long. */
  ghost predicate MostSpecific(ls: seq<Listener>, host: string, name: string, i: nat, a: nat)
  {
    && Reaches(ls, host, name, i, a)
    && forall j: nat, b: nat :: Reaches(ls, host, name, j, b) && (i, a) != (j, b)
         ==> |RouteHost(ls[j].routes[b], host).value| < |RouteHost(ls[i].routes[a], host).value|
  }

  /** In a valid network a name that any route reaches has exactly one most specific route, whose names every other
      route that reaches it has too. */
  lemma OneMostSpecific(ls: seq<Listener>, host: string, name: string, i: nat, a: nat) returns (j: nat, b: nat)
    requires Valid(ls) && Reaches(ls, host, name, i, a)
    ensures MostSpecific(ls, host, name, j, b)
    ensures forall k: nat, c: nat :: MostSpecific(ls, host, name, k, c) ==> (k, c) == (j, b)
    ensures forall k: nat, c: nat, other :: Reaches(ls, host, name, k, c) && Covers(ls[j].routes[b], host, other) ==>
      Covers(ls[k].routes[c], host, other)
  {
    if k: nat, c: nat :| Reaches(ls, host, name, k, c) && ls[k].routes[c] != SELF {
      j, b := k, c;
    } else {
      j, b := i, a;
    }
    forall k: nat, c: nat | Reaches(ls, host, name, k, c) && (k, c) != (j, b)
      ensures |RouteHost(ls[k].routes[c], host).value| < |RouteHost(ls[j].routes[b], host).value|
      ensures forall other :: Covers(ls[j].routes[b], host, other) ==> Covers(ls[k].routes[c], host, other)
    {
      var r, s := ls[j].routes[b], ls[k].routes[c];
      assert r != s;
      Apart(r, s, host, name);
      assert IsChild(r) && s == SELF;
      ChildInsideSelf(r, host, name);
      RoutesAreLaminar(s, r, host);
    }
  }
}
