/** Building a shared template directory, any number of processes at once (engine/template.go `EnsureTemplateDir`). */
module Template {
  import opened GoStrings

  /** A directory's contents; the empty string is an empty directory. */
  type Content = string

  datatype Reason = NoTempDir | InitFailed | NotInstalled(broken: bool)

  datatype Result = Ok | Err(why: Reason)

  /** Where a process is. NotInstalled and Rechecking note whether the rename failed for a reason of its own. */
  datatype Pc =
    | FirstCheck
    | MakingTemp
    | Building
    | SecondCheck
    | Renaming
    | Rechecking(broken: bool)
    | Cleaning(r: Result)     // the deferred removal of its temp directory
    | Returned(result: Result)
    | Dead

  datatype Process = Process(pc: Pc, tmp: Option<Content>)

  /** The template directory, and the processes. `installs` counts renames that took, `outputs` are the whole outputs of
      the inits that returned nil. */
  datatype State = State(template: Option<Content>, procs: map<nat, Process>, installs: nat, outputs: set<Content>)

  datatype Event =
    | Begin
    | Check
    | MakeTemp(made: bool)
    | Write(part: Content)
    | InitDone(ok: bool, built: Content)
    | Rename(fault: bool)     // fault: the file system refuses for some other reason
    | Clean
    | Crash

  const START_PROCESS := Process(FirstCheck, None)

  predicate Ready(ready: Content -> bool, dir: Option<Content>)
  {
    dir.Some? && ready(dir.value)
  }

  /** rename(2) onto the template: only a missing or an empty directory can be replaced. */
  predicate CanRename(dir: Option<Content>)
  {
    dir.None? || dir.value == ""
  }

  /** One process's step: its new state and the template's, or None when it cannot take it. */
  function Act(
    ready: Content -> bool, p: Process, template: Option<Content>, e: Event): Option<(Process, Option<Content>)>
  {
    match e
    case Begin => None
    case Check =>
      (match p.pc
       case FirstCheck => Some((p.(pc := if Ready(ready, template) then Returned(Ok) else MakingTemp), template))
       case SecondCheck => Some((p.(pc := if Ready(ready, template) then Cleaning(Ok) else Renaming), template))
       case Rechecking(broken) =>
         Some((p.(pc := if Ready(ready, template) then Cleaning(Ok) else Cleaning(Err(NotInstalled(broken)))),
           template))
       case _ => None)
    case MakeTemp(made) =>
      if p.pc != MakingTemp then None
      else if made then Some((Process(Building, Some("")), template))
      else Some((p.(pc := Returned(Err(NoTempDir))), template))
    case Write(part) =>
      if p.pc == Building then Some((p.(tmp := Some(part)), template)) else None
    case InitDone(ok, built) =>
      if p.pc != Building then None
      else Some((Process(if ok then SecondCheck else Cleaning(Err(InitFailed)), Some(built)), template))
    case Rename(fault) =>
      if p.pc != Renaming then None
      else if !fault && CanRename(template) then Some((Process(Cleaning(Ok), None), p.tmp))
      else Some((p.(pc := Rechecking(fault)), template))
    case Clean =>
      if p.pc.Cleaning? then Some((Process(Returned(p.pc.r), None), template)) else None
    case Crash =>
      if p.pc.Returned? || p.pc.Dead? then None else Some((p.(pc := Dead), template))
  }

  ghost predicate Step(ready: Content -> bool, s: State, id: nat, e: Event, t: State)
  {
    if e == Begin then id !in s.procs && t == s.(procs := s.procs[id := START_PROCESS])
    else
      && id in s.procs && Act(ready, s.procs[id], s.template, e).Some?
      && var (p, template) := Act(ready, s.procs[id], s.template, e).value;
         t == State(template, s.procs[id := p],
                    if e.Rename? && p.pc == Cleaning(Ok) then s.installs + 1 else s.installs,
                    if e.InitDone? && e.ok then s.outputs + {e.built} else s.outputs)
  }

  /** Every init that returned nil left a directory that reports ready. The code takes this on trust. */
  ghost predicate AllReady(ready: Content -> bool, outputs: set<Content>)
  {
    forall c :: c in outputs ==> ready(c)
  }

  /** A whole output of an init that returned nil. */
  predicate Whole(dir: Option<Content>, outputs: set<Content>)
  {
    dir.Some? && dir.value in outputs
  }

  /** A process's temp directory exists just while it owns one, and is whole once its init is done. `sound`: every
      output is ready. `clean`: the template could be renamed onto at first. */
  predicate ProcInv(
    ready: Content -> bool, p: Process, template: Option<Content>, outputs: set<Content>, sound: bool, clean: bool)
  {
    match p.pc
    case FirstCheck | MakingTemp => p.tmp == None
    case Building => p.tmp.Some?
    case SecondCheck | Renaming => Whole(p.tmp, outputs)
    case Rechecking(broken) => p.tmp.Some? && (sound && clean && !broken ==> Ready(ready, template))
    case Cleaning(r) => Answered(ready, r, template, outputs, sound, clean)
    case Returned(r) => p.tmp == None && Answered(ready, r, template, outputs, sound, clean)
    case Dead => true
  }

  predicate Answered(
    ready: Content -> bool, r: Result, template: Option<Content>, outputs: set<Content>, sound: bool, clean: bool)
  {
    && (r == Ok ==> Ready(ready, template) || Whole(template, outputs))
    && (sound && r == Ok ==> Ready(ready, template))
    && (sound && clean ==> r != Err(NotInstalled(false)))
  }

  /** `start` is the template directory as the first process found it. */
  ghost predicate DirInv(ready: Content -> bool, start: Option<Content>, s: State)
  {
    && !ready("")
    && (s.template == start || Whole(s.template, s.outputs))
    && (s.installs == 0 ==> s.template == start)
    && (s.installs > 0 ==> CanRename(start) && Whole(s.template, s.outputs))
    && ("" !in s.outputs ==> s.installs <= 1)
  }

  ghost predicate Inv(ready: Content -> bool, start: Option<Content>, s: State)
  {
    && DirInv(ready, start, s)
    && forall id :: id in s.procs ==>
      ProcInv(ready, s.procs[id], s.template, s.outputs, AllReady(ready, s.outputs), CanRename(start))
  }

  /** A step changes the directory only by putting a whole output where there was none, or an empty one. */
  lemma ActKeeps(ready: Content -> bool, start: Option<Content>, s: State, id: nat, e: Event, t: State)
    requires Inv(ready, start, s) && Step(ready, s, id, e, t)
    ensures DirInv(ready, start, t) && s.outputs <= t.outputs
    ensures t.template == s.template || (CanRename(s.template) && Whole(t.template, t.outputs))
    ensures ProcInv(ready, t.procs[id], t.template, t.outputs, AllReady(ready, t.outputs), CanRename(start))
  {
    assert s.outputs <= t.outputs;
    assert AllReady(ready, t.outputs) ==> AllReady(ready, s.outputs);
  }

  /** What a process knows outlives the others' steps. */
  lemma OthersKeep(ready: Content -> bool, p: Process, s: State, t: State, clean: bool)
    requires ProcInv(ready, p, s.template, s.outputs, AllReady(ready, s.outputs), clean) && !ready("")
    requires s.outputs <= t.outputs
    requires t.template == s.template || (CanRename(s.template) && Whole(t.template, t.outputs))
    ensures ProcInv(ready, p, t.template, t.outputs, AllReady(ready, t.outputs), clean)
  {
    assert AllReady(ready, t.outputs) ==> AllReady(ready, s.outputs);
  }

  lemma StepKeepsInv(ready: Content -> bool, start: Option<Content>, s: State, id: nat, e: Event, t: State)
    requires Inv(ready, start, s) && Step(ready, s, id, e, t)
    ensures Inv(ready, start, t) && s.outputs <= t.outputs
    ensures !CanRename(s.template) ==> t.template == s.template
  {
    ActKeeps(ready, start, s, id, e, t);
    forall other | other in t.procs
      ensures ProcInv(ready, t.procs[other], t.template, t.outputs, AllReady(ready, t.outputs), CanRename(start))
    {
      if other != id {
        assert t.procs[other] == s.procs[other];
        OthersKeep(ready, s.procs[other], s, t, CanRename(start));
      }
    }
  }

  // ---- Every interleaving

  ghost predicate Behaviour(
    ready: Content -> bool, start: Option<Content>, states: seq<State>, ids: seq<nat>, events: seq<Event>)
  {
    && !ready("")
    && |states| == |events| + 1 && |ids| == |events| && states[0] == State(start, map[], 0, {})
    && forall i :: 0 <= i < |events| ==> Step(ready, states[i], ids[i], events[i], states[i + 1])
  }

  lemma {:induction false} AlwaysInv(
    ready: Content -> bool, start: Option<Content>, states: seq<State>, ids: seq<nat>, events: seq<Event>, i: nat)
    requires Behaviour(ready, start, states, ids, events) && i < |states|
    ensures Inv(ready, start, states[i])
  {
    if i > 0 {
      AlwaysInv(ready, start, states, ids, events, i - 1);
      StepKeepsInv(ready, start, states[i - 1], ids[i - 1], events[i - 1], states[i]);
    }
  }

  /** However the processes interleave and die, in every state: the directory is what it was at first or the whole
      output of one init that returned nil, never half built; whoever returned nil has a ready one or such an output;
      and whoever returned has no temp directory left. If no init returned nil on an empty directory, at most one was
      installed. If every init that returned nil built a directory that is ready, whoever returned nil has a ready one
      and, starting from no template, losing the race was nobody's error. */
  lemma RaceIsSafe(
    ready: Content -> bool, start: Option<Content>, states: seq<State>, ids: seq<nat>, events: seq<Event>, i: nat)
    requires Behaviour(ready, start, states, ids, events) && i < |states|
    ensures states[i].template == start || Whole(states[i].template, states[i].outputs)
    ensures "" !in states[i].outputs ==> states[i].installs <= 1
    ensures forall id :: id in states[i].procs && states[i].procs[id].pc.Returned? ==>
      var p := states[i].procs[id];
      && p.tmp == None
      && (p.pc.result == Ok ==> Ready(ready, states[i].template) || Whole(states[i].template, states[i].outputs))
      && (AllReady(ready, states[i].outputs) ==>
           && (p.pc.result == Ok ==> Ready(ready, states[i].template))
           && (CanRename(start) ==> p.pc.result != Err(NotInstalled(false))))
  {
    AlwaysInv(ready, start, states, ids, events, i);
  }

  // ---- What a process answers, by what it saw

  /** What one step of a process tells it. */
  datatype Sight = Found(ready: bool) | Made(ok: bool) | Built(ok: bool) | Renamed | Refused(fault: bool)

  function See(ready: Content -> bool, template: Option<Content>, e: Event): seq<Sight>
  {
    match e
    case Check => [Found(template.Some? && ready(template.value))]
    case MakeTemp(made) => [Made(made)]
    case InitDone(ok, _) => [Built(ok)]
    case Rename(fault) => [if fault || !(template in {None, Some("")}) then Refused(fault) else Renamed]
    case _ => []
  }

  /** All that the process saw in the first `i` steps of a behaviour, in order. */
  function Seen(
    ready: Content -> bool, states: seq<State>, ids: seq<nat>, events: seq<Event>, i: nat, id: nat): seq<Sight>
    requires |states| == |events| + 1 && |ids| == |events| && i <= |events|
  {
    if i == 0 then []
    else
      Seen(ready, states, ids, events, i - 1, id)
        + if ids[i - 1] == id then See(ready, states[i - 1].template, events[i - 1]) else []
  }

  const BUILT := [Found(false), Made(true), Built(true)]

  /** What it answers: nil as soon as it finds the template ready or has put its own in place, and an error where it
      could not make a directory, its init failed, or its directory was refused and the template is still not ready. */
  function Verdict(seen: seq<Sight>): Option<Result>
  {
    if seen != [] && seen[|seen| - 1] in {Found(true), Renamed} then Some(Ok)
    else if seen == [Found(false), Made(false)] then Some(Err(NoTempDir))
    else if seen == [Found(false), Made(true), Built(false)] then Some(Err(InitFailed))
    else if |seen| == 6 && seen[4].Refused? && seen == BUILT + [Found(false), Refused(seen[4].fault), Found(false)] then
      Some(Err(NotInstalled(seen[4].fault)))
    else None
  }

  predicate Told(p: Process, seen: seq<Sight>)
  {
    match p.pc
    case FirstCheck => seen == []
    case MakingTemp => seen == [Found(false)]
    case Building => seen == [Found(false), Made(true)]
    case SecondCheck => seen == BUILT
    case Renaming => seen == BUILT + [Found(false)]
    case Rechecking(fault) => seen == BUILT + [Found(false), Refused(fault)]
    case Cleaning(r) => Verdict(seen) == Some(r)
    case Returned(r) => Verdict(seen) == Some(r)
    case Dead => true
  }

  lemma ActTells(ready: Content -> bool, p: Process, template: Option<Content>, e: Event, seen: seq<Sight>)
    requires Told(p, seen) && Act(ready, p, template, e).Some?
    ensures Told(Act(ready, p, template, e).value.0, seen + See(ready, template, e))
  {
    if e.Check? {
      CheckTells(ready, p, template, seen);
    } else if e.Rename? {
      RenameTells(ready, p, template, e, seen);
    } else {
      assert seen + [] == seen;
    }
  }

  lemma RenameTells(ready: Content -> bool, p: Process, template: Option<Content>, e: Event, seen: seq<Sight>)
    requires Told(p, seen) && e.Rename? && Act(ready, p, template, e).Some?
    ensures Told(Act(ready, p, template, e).value.0, seen + See(ready, template, e))
  {
    var sight := See(ready, template, e)[0];
    assert seen + [sight] == BUILT + [Found(false), sight];
  }

  lemma CheckTells(ready: Content -> bool, p: Process, template: Option<Content>, seen: seq<Sight>)
    requires Told(p, seen) && Act(ready, p, template, Check).Some?
    ensures Told(Act(ready, p, template, Check).value.0, seen + See(ready, template, Check))
  {
    var sight := See(ready, template, Check)[0];
    var more := seen + [sight];
    match p.pc
    case FirstCheck => assert more == [sight];
    case SecondCheck => assert more == BUILT + [sight];
    case Rechecking(fault) => assert more == BUILT + [Found(false), Refused(fault), sight];
    case _ =>
  }

  /** In every interleaving a process that has answered, answered what the steps it took tell; one that has not stands
      where they lead. */
  lemma {:induction false} AnswersWhatItSaw(
    ready: Content -> bool, start: Option<Content>, states: seq<State>, ids: seq<nat>, events: seq<Event>, i: nat,
    id: nat)
    requires Behaviour(ready, start, states, ids, events) && i < |states|
    ensures
      var seen := Seen(ready, states, ids, events, i, id);
      if id !in states[i].procs then seen == [] else Told(states[i].procs[id], seen)
  {
    if i > 0 {
      AnswersWhatItSaw(ready, start, states, ids, events, i - 1, id);
      var s, e, seen := states[i - 1], events[i - 1], Seen(ready, states, ids, events, i - 1, id);
      assert Step(ready, s, ids[i - 1], e, states[i]);
      if ids[i - 1] == id && e != Begin { ActTells(ready, s.procs[id], s.template, e, seen); }
    }
  }

  /** A directory with something in it, ready or not, stays as it is for good: every later rename fails. */
  lemma {:induction false} FullIsForGood(
    ready: Content -> bool, start: Option<Content>, states: seq<State>, ids: seq<nat>, events: seq<Event>, i: nat,
    j: nat)
    requires Behaviour(ready, start, states, ids, events) && i <= j < |states| && !CanRename(states[i].template)
    ensures states[j].template == states[i].template
    decreases j
  {
    if i < j {
      FullIsForGood(ready, start, states, ids, events, i, j - 1);
      AlwaysInv(ready, start, states, ids, events, j - 1);
      StepKeepsInv(ready, start, states[j - 1], ids[j - 1], events[j - 1], states[j]);
    }
  }

  /** Once ready, the template stays as it is for good. */
  lemma ReadyIsForGood(
    ready: Content -> bool, start: Option<Content>, states: seq<State>, ids: seq<nat>, events: seq<Event>, i: nat,
    j: nat)
    requires Behaviour(ready, start, states, ids, events) && i <= j < |states| && Ready(ready, states[i].template)
    ensures states[j].template == states[i].template
  {
    FullIsForGood(ready, start, states, ids, events, i, j);
  }

  /** Some process has returned nil, in a behaviour whose inits return nil on `good` directories only. */
  ghost predicate NilAnswer(ready: Content -> bool, good: Content -> bool, start: Option<Content>,
                            states: seq<State>, ids: seq<nat>, events: seq<Event>, i: nat, id: nat)
  {
    && Behaviour(ready, start, states, ids, events) && i < |states|
    && (forall c :: c in states[i].outputs ==> good(c))
    && id in states[i].procs && states[i].procs[id].pc == Returned(Ok)
  }

  /** Where there is no template at first, a nil answer always means a ready template if and only if init never returns
      nil on a directory that is not ready: nobody looks at what was built before it is put in place. */
  lemma NilIsReadyExactly(ready: Content -> bool, good: Content -> bool, start: Option<Content>)
    requires !ready("") && CanRename(start)
    ensures (forall c :: good(c) ==> ready(c)) <==>
      forall states: seq<State>, ids, events, i: nat, id: nat ::
        NilAnswer(ready, good, start, states, ids, events, i, id) ==> Ready(ready, states[i].template)
  {
    if forall c :: good(c) ==> ready(c) {
      forall states: seq<State>, ids, events, i: nat, id: nat
        | NilAnswer(ready, good, start, states, ids, events, i, id)
        ensures Ready(ready, states[i].template)
      {
        RaceIsSafe(ready, start, states, ids, events, i);
      }
    } else {
      var c :| good(c) && !ready(c);
      var states, ids, events := Unready(ready, start, c);
      assert NilAnswer(ready, good, start, states, ids, events, 7, 0) && !Ready(ready, states[7].template);
    }
  }

  /** One process alone, whose init returns nil on a directory that is not ready: it installs it and returns nil. */
  lemma Unready(ready: Content -> bool, start: Option<Content>, c: Content)
    returns (states: seq<State>, ids: seq<nat>, events: seq<Event>)
    requires !ready("") && CanRename(start) && !ready(c)
    ensures Behaviour(ready, start, states, ids, events) && |states| == 8
    ensures states[7] == State(Some(c), map[0 := Process(Returned(Ok), None)], 1, {c})
  {
    events := [Begin, Check, MakeTemp(true), InitDone(true, c), Check, Rename(false), Clean];
    ids := [0, 0, 0, 0, 0, 0, 0];
    states := [
      State(start, map[], 0, {}),
      Alone(start, START_PROCESS, 0, {}),
      Alone(start, Process(MakingTemp, None), 0, {}),
      Alone(start, Process(Building, Some("")), 0, {}),
      Alone(start, Process(SecondCheck, Some(c)), 0, {c}),
      Alone(start, Process(Renaming, Some(c)), 0, {c}),
      Alone(Some(c), Process(Cleaning(Ok), None), 1, {c}),
      Alone(Some(c), Process(Returned(Ok), None), 1, {c})];
    forall i | 0 <= i < 7 ensures Step(ready, states[i], ids[i], events[i], states[i + 1]) {
      if i == 0 {
        assert states[0].procs[0 := START_PROCESS] == map[0 := START_PROCESS];
      } else {
        assert forall p: Process :: states[i].procs[0 := p] == map[0 := p];
      }
    }
  }

  function Alone(template: Option<Content>, p: Process, installs: nat, outputs: set<Content>): State
  {
    State(template, map[0 := p], installs, outputs)
  }

  function Rank(p: Process): nat
  {
    match p.pc
    case FirstCheck => 7
    case MakingTemp => 6
    case Building => 5
    case SecondCheck => 4
    case Renaming => 3
    case Rechecking(_) => 2
    case Cleaning(_) => 1
    case _ => 0
  }

  /** Nobody waits for anybody: a process that has not returned or died can always go on, and once its init has ended it
      is a bounded number of steps from returning. */
  lemma NoWaiting(ready: Content -> bool, p: Process, template: Option<Content>, e: Event)
    ensures Act(ready, p, template, e).Some? && !e.Write? ==> Rank(Act(ready, p, template, e).value.0) < Rank(p)
    ensures Rank(p) > 0 ==> exists f: Event :: Act(ready, p, template, f).Some? && f != Crash
  {
    if Rank(p) > 0 {
      var f := match p.pc
        case FirstCheck | SecondCheck | Rechecking(_) => Check
        case MakingTemp => MakeTemp(true)
        case Building => InitDone(false, "")
        case Renaming => Rename(false)
        case _ => Clean;
      assert Act(ready, p, template, f).Some? && f != Crash;
    }
  }
}
