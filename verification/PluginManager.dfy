/** The processes of engine plugins (plugin/manager.go). */
module PluginManager {
  import opened GoStrings

  type Process = nat

  /** `launched` and `closed` are all the processes ever started, and ever closed, by this manager. */
  datatype State = State(hosts: map<string, Process>, failed: map<string, string>, launched: set<Process>,
    closed: set<Process>)

  const START := State(map[], map[], {}, {})

  /** What starting the plugin's binary would give now. */
  datatype Launch = Started(p: Process) | Failed(err: string)

  /** A section the mutex makes atomic, with what it meets in the world outside: whether the held process is alive,
      and what a launch gives. */
  datatype Section =
    | NotAPlugin(name: string)
    | Obtain(engine: string, alive: bool, launch: Launch)
    | CloseAll

  function After(s: State, x: Section): State
  {
    match x
    case NotAPlugin(t) => s.(failed := s.failed - {t})
    case Obtain(t, alive, launch) =>
      if t in s.hosts && alive then s
      else
        var dropped := if t in s.hosts then s.(hosts := s.hosts - {t}, closed := s.closed + {s.hosts[t]}) else s;
        (match launch
         case Started(p) =>
           dropped.(hosts := dropped.hosts[t := p], failed := dropped.failed - {t}, launched := dropped.launched + {p})
         case Failed(err) => dropped.(failed := dropped.failed[t := err]))
    case CloseAll => s.(hosts := map[], closed := s.closed + s.hosts.Values)
  }

  /** A new process is none of the old ones. */
  predicate Possible(s: State, x: Section)
  {
    x.Obtain? && x.launch.Started? && !(x.engine in s.hosts && x.alive) ==> x.launch.p !in s.launched
  }

  /** Every launched process is the one held for a type or closed, never both; none is held for two types; and no type
      has both a process and a failure. */
  ghost predicate Inv(s: State)
  {
    && s.launched == s.hosts.Values + s.closed
    && s.hosts.Values !! s.closed
    && (forall t, u :: t in s.hosts && u in s.hosts && s.hosts[t] == s.hosts[u] ==> t == u)
    && s.hosts.Keys !! s.failed.Keys
  }

  class Manager {
    var hosts: map<string, Process>
    var failed: map<string, string>
    ghost var launched: set<Process>
    ghost var closed: set<Process>

    ghost function View(): State
      reads this
    {
      State(hosts, failed, launched, closed)
    }

    constructor ()
      ensures View() == START
    {
      hosts, failed, launched, closed := map[], map[], {}, {};
    }

    /** Driver, from where its resolver has answered `isPlugin`. The process is None when there is none to use. */
    method Driver(engine: string, isPlugin: bool, alive: bool, launch: Launch)
      returns (p: Option<Process>, found: bool, err: bool)
      requires Inv(View()) && Possible(View(), Obtain(engine, alive, launch))
      modifies this
      ensures View() == After(old(View()), if isPlugin then Obtain(engine, alive, launch) else NotAPlugin(engine))
      ensures Inv(View())
      ensures found == isPlugin && (p.Some? <==> found && !err)
        && (p.Some? ==> engine in hosts && hosts[engine] == p.value)
      ensures err ==> engine in failed
      ensures engine in old(hosts) && alive && isPlugin ==> p == Some(old(hosts)[engine]) && View() == old(View())
      ensures isPlugin && !(engine in old(hosts) && alive) ==>
        match launch
        case Started(h) => p == Some(h) && h in launched && engine !in failed
        case Failed(e) => err && failed[engine] == e && engine !in hosts
    {
      SectionKeepsInv(View(), if isPlugin then Obtain(engine, alive, launch) else NotAPlugin(engine));
      if !isPlugin {
        failed := failed - {engine};
        return None, false, false;
      }
      if engine in hosts {
        if alive { return Some(hosts[engine]), true, false; }
        closed := closed + {hosts[engine]};
        hosts := hosts - {engine};
      }
      match launch {
        case Failed(e) =>
          failed := failed[engine := e];
          return None, true, true;
        case Started(h) =>
          launched := launched + {h};
          failed := failed - {engine};
          hosts := hosts[engine := h];
          return Some(h), true, false;
      }
    }

    /** A launch that failed reads as no plugin at all. */
    method Lookup(engine: string, isPlugin: bool, alive: bool, launch: Launch) returns (p: Option<Process>)
      requires Inv(View()) && Possible(View(), Obtain(engine, alive, launch))
      modifies this
      ensures View() == After(old(View()), if isPlugin then Obtain(engine, alive, launch) else NotAPlugin(engine))
      ensures Inv(View())
      ensures p.Some? <==> isPlugin && engine in hosts
      ensures p.Some? ==> p.value == hosts[engine]
      ensures isPlugin && p.None? ==> engine in failed
    {
      var found, err;
      p, found, err := Driver(engine, isPlugin, alive, launch);
    }

    method LaunchError(engine: string) returns (e: Option<string>)
      ensures e == if engine in failed then Some(failed[engine]) else None
    {
      if engine in failed { return Some(failed[engine]); }
      return None;
    }

    /** Reap every process, in whatever order the map gives them. */
    method Close()
      requires Inv(View())
      modifies this
      ensures View() == After(old(View()), CloseAll)
      ensures Inv(View()) && launched == closed
    {
      SectionKeepsInv(View(), CloseAll);
      ghost var before := View();
      var todo := hosts.Keys;
      while todo != {}
        invariant todo <= before.hosts.Keys
        invariant hosts == map t | t in before.hosts && t in todo :: before.hosts[t]
        invariant closed == before.closed + set t | t in before.hosts && t !in todo :: before.hosts[t]
        invariant failed == before.failed && launched == before.launched
        decreases todo
      {
        var t :| t in todo;
        closed := closed + {hosts[t]};
        hosts := hosts - {t};
        todo := todo - {t};
      }
    }
  }

  lemma ValuesWithout(m: map<string, Process>, e: string)
    ensures m.Values == (m - {e}).Values + (if e in m then {m[e]} else {})
  {
    forall p | p in m.Values ensures p in (m - {e}).Values || (e in m && p == m[e]) {
      var k :| k in m && m[k] == p;
      assert k != e ==> (m - {e})[k] == p;
    }
  }

  lemma SectionKeepsInv(s: State, x: Section)
    requires Inv(s) && Possible(s, x)
    ensures Inv(After(s, x))
    ensures x == CloseAll ==> After(s, x).launched == After(s, x).closed
    ensures s.closed <= After(s, x).closed && s.launched <= After(s, x).launched
  {
    var t := After(s, x);
    match x
    case NotAPlugin(_) =>
    case CloseAll =>
    case Obtain(e, alive, launch) =>
      if !(e in s.hosts && alive) {
        var kept := s.hosts - {e};
        ValuesWithout(s.hosts, e);
        if launch.Started? {
          assert t.hosts == kept[e := launch.p];
          assert e in t.hosts;
          assert t.hosts.Values == kept.Values + {launch.p} by {
            forall p | p in kept.Values ensures p in t.hosts.Values {
              var k :| k in kept && kept[k] == p;
              assert t.hosts[k] == p;
            }
          }
        } else {
          assert t.hosts == kept;
        }
      }
  }

  // ---- Any number of callers at once

  /** A caller's Driver or Lookup asks the resolver first, outside the mutex, so what it knows may be stale by the time
      it gets in; Close goes straight in. */
  datatype Caller = Resolving(engine: string) | Waiting(asked: string, isPlugin: bool) | Closing | Gone

  datatype System = System(s: State, callers: map<nat, Caller>)

  datatype Event =
    | Call(who: nat, caller: Caller)
    | Resolved(asker: nat, isPlugin: bool)
    | Enter(id: nat, alive: bool, launch: Launch)

  /** What a caller at the mutex does inside it. */
  function Inside(c: Caller, alive: bool, launch: Launch): Section
    requires c.Waiting? || c.Closing?
  {
    match c
    case Waiting(t, true) => Obtain(t, alive, launch)
    case Waiting(t, false) => NotAPlugin(t)
    case _ => CloseAll
  }

  ghost predicate Step(a: System, e: Event, b: System)
  {
    match e
    case Call(who, caller) =>
      who !in a.callers && (caller.Resolving? || caller.Closing?) && b == a.(callers := a.callers[who := caller])
    case Resolved(asker, isPlugin) =>
      asker in a.callers && a.callers[asker].Resolving?
        && b == a.(callers := a.callers[asker := Waiting(a.callers[asker].engine, isPlugin)])
    case Enter(id, alive, launch) =>
      && id in a.callers && (a.callers[id].Waiting? || a.callers[id].Closing?)
      && Possible(a.s, Inside(a.callers[id], alive, launch))
      && b == System(After(a.s, Inside(a.callers[id], alive, launch)), a.callers[id := Gone])
  }

  ghost predicate Behaviour(states: seq<System>, events: seq<Event>)
  {
    && |states| == |events| + 1 && states[0] == System(START, map[])
    && forall i :: 0 <= i < |events| ==> Step(states[i], events[i], states[i + 1])
  }

  /** Over every interleaving no process leaks and none is doubled, and one that was closed stays closed. */
  lemma {:induction false} NeitherLeaksNorDoubles(states: seq<System>, events: seq<Event>, i: nat, j: nat)
    requires Behaviour(states, events) && i <= j < |states|
    ensures Inv(states[j].s)
    ensures states[i].s.closed <= states[j].s.closed && states[i].s.launched <= states[j].s.launched
    decreases j
  {
    if j > 0 {
      NeitherLeaksNorDoubles(states, events, if i < j then i else j - 1, j - 1);
      match events[j - 1]
      case Enter(id, alive, launch) =>
        SectionKeepsInv(states[j - 1].s, Inside(states[j - 1].callers[id], alive, launch));
      case _ =>
    }
  }

  /** Once some Close has been through, every process launched before it is closed, whatever comes after. */
  lemma CloseReapsAll(states: seq<System>, events: seq<Event>, i: nat, j: nat)
    requires Behaviour(states, events) && i < j < |states|
    requires events[i].Enter? && events[i].id in states[i].callers && states[i].callers[events[i].id] == Closing
    ensures states[i].s.launched <= states[j].s.closed
  {
    NeitherLeaksNorDoubles(states, events, i, i);
    SectionKeepsInv(states[i].s, CloseAll);
    NeitherLeaksNorDoubles(states, events, i + 1, j);
  }

  function Run(xs: seq<Section>): State
  {
    if xs == [] then START else After(Run(xs[..|xs| - 1]), xs[|xs| - 1])
  }

  /** The `i`-th section tried to launch the type's plugin and failed so; nothing asked for the type since. */
  ghost predicate FailedLast(xs: seq<Section>, t: string, err: string, i: int)
  {
    && 0 <= i < |xs| && xs[i].Obtain? && xs[i].engine == t && xs[i].launch == Failed(err)
    && !(t in Run(xs[..i]).hosts && xs[i].alive)
    && forall k :: i < k < |xs| ==> xs[k] != NotAPlugin(t) && !(xs[k].Obtain? && xs[k].engine == t)
  }

  /** LaunchError reports a failure exactly when the last call about the type tried to launch it and failed so. */
  lemma {:induction false} FailureIsTheLastAttempts(xs: seq<Section>, t: string, err: string)
    ensures (t in Run(xs).failed && Run(xs).failed[t] == err) <==> exists i :: FailedLast(xs, t, err, i)
  {
    if xs != [] {
      var init, last := xs[..|xs| - 1], xs[|xs| - 1];
      FailureIsTheLastAttempts(init, t, err);
      HeldIsNotFailed(init);
      forall i | 0 <= i < |init| ensures xs[..i] == init[..i] { }
      if last == NotAPlugin(t) || (last.Obtain? && last.engine == t) {
        forall i | FailedLast(xs, t, err, i) ensures i == |xs| - 1 { }
        if t in Run(xs).failed && Run(xs).failed[t] == err { assert FailedLast(xs, t, err, |xs| - 1); }
      } else {
        forall i | 0 <= i < |init|
          ensures FailedLast(xs, t, err, i) <==> FailedLast(init, t, err, i)
        {
          StillLast(xs, t, err, i);
        }
        if i :| FailedLast(xs, t, err, i) { assert i < |init|; }
        if i :| FailedLast(init, t, err, i) { assert FailedLast(xs, t, err, i); }
      }
    }
  }

  lemma StillLast(xs: seq<Section>, t: string, err: string, i: nat)
    requires i < |xs| - 1
    requires xs[|xs| - 1] != NotAPlugin(t) && !(xs[|xs| - 1].Obtain? && xs[|xs| - 1].engine == t)
    ensures FailedLast(xs, t, err, i) <==> FailedLast(xs[..|xs| - 1], t, err, i)
  {
    assert xs[..|xs| - 1][..i] == xs[..i];
  }

  /** A type with a process has no failure. */
  lemma {:induction false} HeldIsNotFailed(xs: seq<Section>)
    ensures Run(xs).hosts.Keys !! Run(xs).failed.Keys
  {
    if xs != [] { HeldIsNotFailed(xs[..|xs| - 1]); }
  }
}
