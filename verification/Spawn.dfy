/** Running a spawn plan (enginetest/enginetest.go `spawn`): which spec starts when. */
module Spawn {

  datatype Spec = Spec(name: string, after: seq<string>)

  datatype Outcome =
    | AllReady
    | NeverReady(spec: nat)
    | Deadlock(left: seq<nat>)

  /** Spec `i` has not started and everything it names in After is the name of a spec in `done`. */
  predicate Startable(specs: seq<Spec>, done: seq<nat>, i: nat)
  {
    && i < |specs| && i !in done
    && forall d :: d in specs[i].after ==> Named(specs, done, d)
  }

  predicate Named(specs: seq<Spec>, done: seq<nat>, name: string)
  {
    exists j :: j in done && j < |specs| && specs[j].name == name
  }

  /** Specs started one by one, each once and only when startable. */
  ghost predicate InOrder(specs: seq<Spec>, order: seq<nat>)
  {
    forall p :: 0 <= p < |order| ==> Startable(specs, order[..p], order[p])
  }

  /** An order that starts the whole plan. */
  ghost predicate Topological(specs: seq<Spec>, order: seq<nat>)
  {
    InOrder(specs, order) && forall i: nat :: i < |specs| ==> i in order
  }

  /** In order, and each time the earliest spec of the plan that could start. */
  ghost predicate Earliest(specs: seq<Spec>, order: seq<nat>)
  {
    && InOrder(specs, order)
    && forall p, i: nat :: 0 <= p < |order| && i < order[p] ==> !Startable(specs, order[..p], i)
  }

  ghost predicate Stuck(specs: seq<Spec>, done: seq<nat>)
  {
    forall i: nat :: !Startable(specs, done, i)
  }

  predicate Increasing(s: seq<nat>)
  {
    forall i, j :: 0 <= i < j < |s| ==> s[i] < s[j]
  }

  // ---- The scheduler

  method DepsReady(spec: Spec, ready: map<string, bool>) returns (ok: bool)
    ensures ok <==> forall d :: d in spec.after ==> d in ready && ready[d]
  {
    for i := 0 to |spec.after|
      invariant forall k :: 0 <= k < i ==> spec.after[k] in ready && ready[spec.after[k]]
    {
      if spec.after[i] !in ready || !ready[spec.after[i]] { return false; }
    }
    return true;
  }

  /** `ready` holds exactly the names of the specs started so far, `remaining` the other specs in plan order. */
  ghost predicate Bookkeeping(specs: seq<Spec>, started: seq<nat>, remaining: seq<nat>, ready: map<string, bool>)
  {
    && (forall i: nat :: i in remaining <==> i < |specs| && i !in started)
    && Increasing(remaining)
    && (forall d :: (d in ready && ready[d]) <==> Named(specs, started, d))
  }

  /** The first remaining spec that can start, if any. */
  method FirstStartable(specs: seq<Spec>, remaining: seq<nat>, ready: map<string, bool>, ghost started: seq<nat>)
    returns (at: nat)
    requires Bookkeeping(specs, started, remaining, ready)
    ensures at <= |remaining|
    ensures at < |remaining| ==> Startable(specs, started, remaining[at])
    ensures at < |remaining| ==> forall i: nat :: i < remaining[at] ==> !Startable(specs, started, i)
    ensures at == |remaining| ==> Stuck(specs, started)
  {
    at := 0;
    while at < |remaining|
      invariant at <= |remaining|
      invariant forall k :: 0 <= k < at ==> !Startable(specs, started, remaining[k])
    {
      assert remaining[at] in remaining;
      var ok := DepsReady(specs[remaining[at]], ready);
      if ok { break; }
      at := at + 1;
    }
    forall i: nat | (at < |remaining| ==> i < remaining[at]) && i < |specs| ensures !Startable(specs, started, i) {
      if i !in started {
        assert i in remaining;
        var k :| 0 <= k < |remaining| && remaining[k] == i;
      }
    }
  }

  /** Start the plan; `comesUp[i]` is whether spec i ever passes its probe. */
  method Spawn(specs: seq<Spec>, comesUp: seq<bool>) returns (r: Outcome, started: seq<nat>)
    requires |comesUp| == |specs|
    ensures Earliest(specs, started)
    ensures r.AllReady? ==> Topological(specs, started)
    ensures r.NeverReady? ==> started != [] && started[|started| - 1] == r.spec && r.spec < |specs| && !comesUp[r.spec]
    ensures forall p :: 0 <= p < |started| && !comesUp[started[p]] ==> r.NeverReady? && p == |started| - 1
    ensures r.Deadlock? ==>
      Stuck(specs, started) && r.left != [] && Increasing(r.left) &&
        forall i: nat :: i in r.left <==> i < |specs| && i !in started
  {
    started := [];
    var ready: map<string, bool> := map[];
    var remaining: seq<nat> := seq(|specs|, i => i);
    forall i: nat | i < |specs| ensures i in remaining { assert remaining[i] == i; }
    while |remaining| > 0
      invariant Bookkeeping(specs, started, remaining, ready)
      invariant Earliest(specs, started)
      invariant forall p :: 0 <= p < |started| ==> comesUp[started[p]]
      decreases |remaining|
    {
      var at := FirstStartable(specs, remaining, ready, started);
      if at == |remaining| {
        return Deadlock(remaining), started;
      }
      var i := remaining[at];
      ExtendEarliest(specs, started, i);
      if !comesUp[i] {
        return NeverReady(i), started + [i];
      }
      StepBookkeeping(specs, started, remaining, ready, at);
      started := started + [i];
      ready := ready[specs[i].name := true];
      remaining := remaining[..at] + remaining[at + 1..];
    }
    assert forall i: nat :: i !in remaining;
    return AllReady, started;
  }

  lemma ExtendEarliest(specs: seq<Spec>, order: seq<nat>, i: nat)
    requires Earliest(specs, order) && Startable(specs, order, i)
    requires forall k: nat :: k < i ==> !Startable(specs, order, k)
    ensures Earliest(specs, order + [i])
  {
    var longer := order + [i];
    forall p | 0 <= p < |longer| ensures longer[..p] == if p < |order| then order[..p] else order { }
  }

  lemma StepBookkeeping(specs: seq<Spec>, started: seq<nat>, remaining: seq<nat>, ready: map<string, bool>, at: nat)
    requires Bookkeeping(specs, started, remaining, ready) && at < |remaining| && remaining[at] < |specs|
    ensures Bookkeeping(specs, started + [remaining[at]], remaining[..at] + remaining[at + 1..],
      ready[specs[remaining[at]].name := true])
  {
    var i := remaining[at];
    var after := remaining[..at] + remaining[at + 1..];
    assert remaining == remaining[..at] + [i] + remaining[at + 1..];
    assert i !in remaining[..at] && i !in remaining[at + 1..];
    assert forall x :: x in after <==> x in remaining && x != i;
    assert Increasing(after) by {
      assert forall k :: 0 <= k < |after| ==> after[k] == remaining[if k < at then k else k + 1];
    }
    forall d ensures Named(specs, started + [i], d) <==> Named(specs, started, d) || specs[i].name == d {
      if Named(specs, started, d) {
        var j :| j in started && j < |specs| && specs[j].name == d;
        assert j in started + [i];
      }
      assert i in started + [i];
    }
  }

  // ---- What the order is

  /** The order Spawn starts a whole plan in is the lexicographically least of all its topological orders. */
  lemma {:induction false} EarliestIsLeast(specs: seq<Spec>, order: seq<nat>, other: seq<nat>, p: nat)
    requires Earliest(specs, order) && Topological(specs, order) && Topological(specs, other)
    requires p <= |order| && p <= |other| && order[..p] == other[..p]
    ensures order == other ||
      exists q: nat :: q < |order| && q < |other| && order[..q] == other[..q] && order[q] < other[q]
    decreases |order| - p
  {
    if p == |order| || p == |other| {
      SameLength(specs, order, other, p);
    } else if order[p] == other[p] {
      assert order[..p + 1] == order[..p] + [order[p]] && other[..p + 1] == other[..p] + [other[p]];
      EarliestIsLeast(specs, order, other, p + 1);
    } else {
      assert Startable(specs, other[..p], other[p]);
    }
  }

  lemma SameLength(specs: seq<Spec>, order: seq<nat>, other: seq<nat>, p: nat)
    requires Topological(specs, order) && Topological(specs, other)
    requires p <= |order| && p <= |other| && order[..p] == other[..p] && (p == |order| || p == |other|)
    ensures order == other
  {
    StartedOnce(specs, order, p);
    StartedOnce(specs, other, p);
    assert order == if p == |order| then order[..p] else order;
    assert other == if p == |other| then other[..p] else other;
  }

  lemma StartedOnce(specs: seq<Spec>, order: seq<nat>, p: nat)
    ensures InOrder(specs, order) && p < |order| ==> order[p] < |specs| && order[p] !in order[..p]
  {
    if InOrder(specs, order) && p < |order| { assert Startable(specs, order[..p], order[p]); }
  }

  /** Once stuck with specs left over, no topological order exists at all. */
  lemma StuckMeansNone(specs: seq<Spec>, done: seq<nat>, left: nat, other: seq<nat>)
    requires Stuck(specs, done) && left < |specs| && left !in done
    ensures !Topological(specs, other)
  {
    if Topological(specs, other) {
      assert left in other;
      var p := FirstOutside(other, done, left);
      assert Startable(specs, other[..p], other[p]);
      forall d | d in specs[other[p]].after ensures Named(specs, done, d) {
        var j :| j in other[..p] && j < |specs| && specs[j].name == d;
      }
      assert Startable(specs, done, other[p]);
    }
  }

  lemma {:induction false} FirstOutside(s: seq<nat>, done: seq<nat>, x: nat) returns (p: nat)
    requires x in s && x !in done
    ensures p < |s| && s[p] !in done && forall j :: j in s[..p] ==> j in done
  {
    p := 0;
    while p < |s| && s[p] in done
      invariant p <= |s|
      invariant forall j :: j in s[..p] ==> j in done
    {
      assert s[..p + 1] == s[..p] + [s[p]];
      p := p + 1;
    }
    assert s[..|s|] == s;
  }

  /** Specs that keep one another from starting: each waits for a name that nothing outside the set provides,
      a name on a cycle through the set or one missing from the plan. */
  ghost predicate Knot(specs: seq<Spec>, knot: set<nat>)
  {
    && knot != {} && (forall i :: i in knot ==> i < |specs|)
    && forall i :: i in knot ==> Bound(specs, knot, i)
  }

  /** Spec `i` waits for a name that only the set provides, if anything does. */
  ghost predicate Bound(specs: seq<Spec>, knot: set<nat>, i: nat)
  {
    i < |specs| && exists d :: d in specs[i].after && forall j: nat :: j < |specs| && specs[j].name == d ==> j in knot
  }

  /** Whatever is left when the scheduler is stuck is a knot. */
  lemma StuckLeavesKnot(specs: seq<Spec>, done: seq<nat>, left: nat) returns (knot: set<nat>)
    requires Stuck(specs, done) && left < |specs| && left !in done
    ensures Knot(specs, knot)
  {
    knot := set i: nat | i < |specs| && i !in done;
    assert left in knot;
    forall i | i in knot ensures Bound(specs, knot, i) {
      assert !Startable(specs, done, i);
      var d :| d in specs[i].after && !Named(specs, done, d);
    }
  }

  lemma {:induction false} KnotNeverStarts(specs: seq<Spec>, knot: set<nat>, order: seq<nat>, p: nat)
    requires Knot(specs, knot) && InOrder(specs, order) && p < |order|
    ensures order[p] !in knot
    decreases p
  {
    assert Startable(specs, order[..p], order[p]);
    if order[p] in knot {
      assert Bound(specs, knot, order[p]);
      var d :| d in specs[order[p]].after && forall j: nat :: j < |specs| && specs[j].name == d ==> j in knot;
      var j :| j in order[..p] && j < |specs| && specs[j].name == d;
      var q :| 0 <= q < p && order[q] == j;
      KnotNeverStarts(specs, knot, order, q);
    }
  }

  /** Run the scheduler on: from any state it has reached, it reaches one where it is stuck or done. */
  lemma {:induction false} RunOn(specs: seq<Spec>, done: seq<nat>) returns (order: seq<nat>)
    requires Earliest(specs, done)
    ensures Earliest(specs, order) && Stuck(specs, order)
    decreases set i: nat | i < |specs| && i !in done
  {
    if Stuck(specs, done) {
      order := done;
    } else {
      var some: nat :| Startable(specs, done, some);
      var i := LeastStartable(specs, done, some);
      ExtendEarliest(specs, done, i);
      var left, fewer := set k: nat | k < |specs| && k !in done, set k: nat | k < |specs| && k !in done + [i];
      assert i in left && i !in fewer && fewer <= left;
      order := RunOn(specs, done + [i]);
    }
  }

  lemma {:induction false} LeastStartable(specs: seq<Spec>, done: seq<nat>, some: nat) returns (i: nat)
    requires Startable(specs, done, some)
    ensures Startable(specs, done, i) && forall k: nat :: k < i ==> !Startable(specs, done, k)
    decreases some
  {
    if k: nat :| k < some && Startable(specs, done, k) {
      i := LeastStartable(specs, done, k);
    } else {
      i := some;
    }
  }

  /** A plan can be started exactly when it has no knot: the deadlock Spawn reports is never a wrong guess. */
  lemma StartsUnlessKnotted(specs: seq<Spec>)
    ensures (exists order :: Topological(specs, order)) <==> !exists knot :: Knot(specs, knot)
  {
    var order := RunOn(specs, []);
    if left: nat :| left < |specs| && left !in order {
      var knot := StuckLeavesKnot(specs, order, left);
      forall other ensures !Topological(specs, other) { StuckMeansNone(specs, order, left, other); }
    } else {
      assert Topological(specs, order);
      forall knot ensures !Knot(specs, knot) {
        if Knot(specs, knot) {
          var i :| i in knot;
          assert i < |specs| && i in order;
          var p: nat :| p < |order| && order[p] == i;
          KnotNeverStarts(specs, knot, order, p);
        }
      }
    }
  }

  // ---- Missing names and cycles

  /** Spec `i` names one that no spec of the plan has. */
  predicate Missing(specs: seq<Spec>, i: nat)
  {
    i < |specs| && exists d :: d in specs[i].after && forall j :: 0 <= j < |specs| ==> specs[j].name != d
  }

  predicate Awaits(specs: seq<Spec>, i: nat, j: nat)
  {
    i < |specs| && j < |specs| && specs[j].name in specs[i].after
  }

  /** Each spec awaits the next, and the last the first. */
  predicate Cycle(specs: seq<Spec>, c: seq<nat>)
  {
    c != [] && forall k :: 0 <= k < |c| ==> Awaits(specs, c[k], if k + 1 < |c| then c[k + 1] else c[0])
  }

  /** Names are told apart, as the documentation asks. */
  predicate UniqueNames(specs: seq<Spec>)
  {
    forall i, j :: 0 <= i < j < |specs| ==> specs[i].name != specs[j].name
  }

  /** A spec of a knot waits for another of it, unless for a name that is missing. */
  lemma NextInKnot(specs: seq<Spec>, knot: set<nat>, i: nat) returns (next: nat)
    requires Knot(specs, knot) && i in knot && !Missing(specs, i)
    ensures next in knot && Awaits(specs, i, next)
  {
    assert Bound(specs, knot, i);
    var d :| d in specs[i].after && forall j: nat :: j < |specs| && specs[j].name == d ==> j in knot;
    next :| 0 <= next < |specs| && specs[next].name == d;
  }

  ghost predicate Path(specs: seq<Spec>, path: seq<nat>)
  {
    path != [] && forall k :: 0 <= k < |path| - 1 ==> Awaits(specs, path[k], path[k + 1])
  }

  predicate Within(c: seq<nat>, knot: set<nat>)
  {
    forall x :: x in c ==> x in knot
  }

  /** Follow what each spec of a knot waits for until one comes round again. */
  lemma {:induction false} WalkRound(specs: seq<Spec>, knot: set<nat>, path: seq<nat>) returns (c: seq<nat>)
    requires Knot(specs, knot) && forall i :: i in knot ==> !Missing(specs, i)
    requires Path(specs, path) && forall x :: x in path ==> x in knot
    ensures Cycle(specs, c) && Within(c, knot)
    decreases knot - set x | x in path
  {
    var last := path[|path| - 1];
    var next := NextInKnot(specs, knot, last);
    if next in path {
      var m :| 0 <= m < |path| && path[m] == next;
      c := path[m..];
    } else {
      var here, there := set x | x in path, set x | x in path + [next];
      assert next in there && next !in here && here <= there;
      assert knot - there <= knot - here && next in knot - here && next !in knot - there;
      c := WalkRound(specs, knot, path + [next]);
    }
  }

  /** What keeps a knot from starting is a missing name or a cycle in it. */
  lemma KnotMeans(specs: seq<Spec>, knot: set<nat>)
    requires Knot(specs, knot)
    ensures (exists i :: i in knot && Missing(specs, i)) || exists c :: Cycle(specs, c) && Within(c, knot)
  {
    if forall i :: i in knot ==> !Missing(specs, i) {
      var i :| i in knot;
      var c := WalkRound(specs, knot, [i]);
    }
  }

  lemma MissingIsKnot(specs: seq<Spec>, i: nat)
    requires Missing(specs, i)
    ensures Knot(specs, {i})
  {
  }

  lemma CycleIsKnot(specs: seq<Spec>, c: seq<nat>)
    requires UniqueNames(specs) && Cycle(specs, c)
    ensures Knot(specs, set x | x in c)
  {
    var knot := set x | x in c;
    assert c[0] in knot;
    forall i | i in knot ensures Bound(specs, knot, i) {
      var k :| 0 <= k < |c| && c[k] == i;
      var next := if k + 1 < |c| then c[k + 1] else c[0];
      assert Awaits(specs, c[k], next) && next in c && next in knot;
      forall j: nat | j < |specs| && specs[j].name == specs[next].name ensures j in knot { assert j == next; }
    }
  }

  /** A plan without missing names and cycles can be started; and where names are told apart, only such a plan can. */
  lemma StartsUnlessCyclic(specs: seq<Spec>)
    ensures !(exists i :: Missing(specs, i)) && !(exists c :: Cycle(specs, c)) ==>
      exists order :: Topological(specs, order)
    ensures UniqueNames(specs) && (exists order :: Topological(specs, order)) ==>
      !(exists i :: Missing(specs, i)) && !(exists c :: Cycle(specs, c))
  {
    StartsUnlessKnotted(specs);
    if knot :| Knot(specs, knot) { KnotMeans(specs, knot); }
    if i :| Missing(specs, i) { MissingIsKnot(specs, i); }
    if c :| Cycle(specs, c) && UniqueNames(specs) { CycleIsKnot(specs, c); }
  }
}
