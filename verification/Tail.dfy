/** Streaming a console panel's rows from a module to the host
    (plugin/server.go `Tail`, plugin/adapter.go `tail`). */
module Tail {
  import opened GoStrings

  type Row = string

  const CAPACITY: nat := 64

  /** The module's goroutine: producing, done with its result on the done channel, then with the row channel closed. */
  datatype ModulePc = Producing | Stopped | Closed

  datatype Outcome = SendFailed | FromModule(err: Option<string>)

  datatype SenderPc =
    | Receiving
    | Sending(row: Row)
    | Failed                      // Send failed; about to cancel
    | Draining
    | Awaiting(failed: bool)      // for the module's result
    | Returned(outcome: Outcome)

  /** The host's loop. A nil return is None. */
  datatype HostPc = AtRecv | Holding(row: Row) | HostReturned(err: Option<string>)

  /** `produced`, `sent` and `delivered` are all the rows ever put into the channel, onto the stream, and out to the
      caller; `dropped` those received from the channel but not sent. `result` is what the module's Tail returned. */
  datatype State = State(
    mod: ModulePc, result: Option<Option<string>>, produced: seq<Row>,
    buf: seq<Row>, done: Option<Option<string>>,
    sender: SenderPc, cancelled: bool, sent: seq<Row>, dropped: seq<Row>,
    host: HostPc, received: nat, delivered: seq<Row>, hungUp: bool)

  const START := State(Producing, None, [], [], None, Receiving, false, [], [], AtRecv, 0, [], false)

  datatype Event =
    | Produce(row: Row)
    | Stop(result: Option<string>)
    | CloseRows
    | Receive
    | Send(ok: bool)
    | Cancel
    | Drain
    | TakeResult
    | HangUp                      // the host's context ends
    | HostRecv
    | HostEnd                     // the stream is over, and why
    | HostBreak(error: string)    // the transport broke
    | Deliver
    | GiveUp

  function Act(s: State, e: Event): Option<State>
  {
    match e
    // the module's goroutine
    case Produce(row) =>
      if s.mod == Producing && |s.buf| < CAPACITY then Some(s.(buf := s.buf + [row], produced := s.produced + [row]))
      else None
    case Stop(result) =>
      if s.mod == Producing then Some(s.(mod := Stopped, result := Some(result), done := Some(result))) else None
    case CloseRows =>
      if s.mod == Stopped then Some(s.(mod := Closed)) else None
    // the server's loop over the rows
    case Receive =>
      if s.sender != Receiving then None
      else if s.buf != [] then Some(s.(sender := Sending(s.buf[0]), buf := s.buf[1..]))
      else if s.mod == Closed then Some(s.(sender := Awaiting(false)))
      else None
    case Send(ok) =>
      if !s.sender.Sending? then None
      else if ok then Some(s.(sender := Receiving, sent := s.sent + [s.sender.row]))
      else Some(s.(sender := Failed, dropped := s.dropped + [s.sender.row]))
    case Cancel =>
      if s.sender == Failed then Some(s.(sender := Draining, cancelled := true)) else None
    case Drain =>
      if s.sender != Draining then None
      else if s.buf != [] then Some(s.(buf := s.buf[1..], dropped := s.dropped + [s.buf[0]]))
      else if s.mod == Closed then Some(s.(sender := Awaiting(true)))
      else None
    case TakeResult =>
      if s.sender.Awaiting? && s.done.Some? then
        Some(s.(sender := Returned(if s.sender.failed then SendFailed else FromModule(s.done.value)), done := None,
          cancelled := true))
      else None
    // the host
    case HangUp => if s.hungUp then None else Some(s.(hungUp := true, cancelled := true))
    case HostRecv =>
      if s.host == AtRecv && s.received < |s.sent| then
        Some(s.(host := Holding(s.sent[s.received]), received := s.received + 1))
      else None
    case HostEnd =>
      if s.host == AtRecv && s.received == |s.sent| && s.sender.Returned? then
        Some(s.(host := HostReturned(if s.hungUp then None
                                     else if s.sender.outcome == SendFailed then Some("stream broke")
                                     else s.sender.outcome.err)))
      else None
    case HostBreak(error) =>
      if s.host == AtRecv then Some(s.(host := HostReturned(if s.hungUp then None else Some(error)))) else None
    case Deliver =>
      if s.host.Holding? then Some(s.(host := AtRecv, delivered := s.delivered + [s.host.row])) else None
    case GiveUp =>
      if s.host.Holding? && s.hungUp then Some(s.(host := HostReturned(None))) else None
  }

  // ---- Invariants

  function InFlight(s: State): seq<Row> { if s.sender.Sending? then [s.sender.row] else [] }

  predicate SendFailedYet(s: State)
  {
    s.sender in {Failed, Draining, Awaiting(true), Returned(SendFailed)}
  }

  predicate Pipe(s: State)
  {
    && s.produced == s.sent + s.dropped + InFlight(s) + s.buf
    && (s.dropped != [] <==> SendFailedYet(s))
    && |s.buf| <= CAPACITY
  }

  predicate Ends(s: State)
  {
    && (s.mod == Producing <==> s.result.None?)
    && (s.done.Some? ==> s.done == s.result)
    && (s.sender.Returned? <==> s.done.None? && s.mod != Producing)
    && (s.sender.Awaiting? || s.sender.Returned? ==> s.mod == Closed && s.buf == [])
    && (s.sender.Returned? && s.sender.outcome.FromModule? ==> Some(s.sender.outcome.err) == s.result)
    && (s.sender in {Draining, Awaiting(true)} || s.sender.Returned? ==> s.cancelled)
  }

  predicate HostSide(s: State)
  {
    && s.received <= |s.sent|
    && (match s.host
        case AtRecv => s.delivered == s.sent[..s.received]
        case Holding(row) => s.received > 0 && s.delivered == s.sent[..s.received - 1] && row == s.sent[s.received - 1]
        case HostReturned(err) =>
          && s.delivered <= s.sent
          && (err.None? && !s.hungUp ==> s.sender == Returned(FromModule(None)) && s.delivered == s.sent))
  }

  predicate Inv(s: State) { Pipe(s) && Ends(s) && HostSide(s) }

  /** Moving the first row of the channel: to the sender's hand, or to the floor. */
  lemma TakingOne(sent: seq<Row>, dropped: seq<Row>, buf: seq<Row>)
    requires buf != []
    ensures sent + dropped + [] + buf == sent + dropped + [buf[0]] + buf[1..]
    ensures sent + dropped + [] + buf == sent + (dropped + [buf[0]]) + [] + buf[1..]
  {
    assert buf == [buf[0]] + buf[1..];
  }

  lemma TakeKeepsPipe(s: State, e: Event)
    requires Inv(s) && (e == Receive || e == Drain) && Act(s, e).Some?
    ensures Pipe(Act(s, e).value)
  {
    if s.buf != [] { TakingOne(s.sent, s.dropped, s.buf); }
  }

  lemma SendKeepsPipe(s: State, e: Event)
    requires Inv(s) && e.Send? && Act(s, e).Some?
    ensures Pipe(Act(s, e).value)
  {
    assert s.dropped == [];
    assert s.sent + [] + [s.sender.row] + s.buf == (s.sent + [s.sender.row]) + [] + [] + s.buf;
    assert s.sent + [] + [s.sender.row] + s.buf == s.sent + ([] + [s.sender.row]) + [] + s.buf;
  }

  lemma ActKeepsPipe(s: State, e: Event)
    requires Inv(s) && Act(s, e).Some?
    ensures Pipe(Act(s, e).value)
  {
    if e == Receive || e == Drain {
      TakeKeepsPipe(s, e);
    } else if e.Send? {
      SendKeepsPipe(s, e);
    } else {
      RestKeepPipe(s, e);
    }
  }

  lemma RestKeepPipe(s: State, e: Event)
    requires Inv(s) && e != Receive && e != Drain && !e.Send? && Act(s, e).Some?
    ensures Pipe(Act(s, e).value)
  {
  }

  /** The host's side survives every step but the host's own as long as `sent` only grows. */
  lemma GrowingKeepsHostSide(s: State, t: State)
    requires HostSide(s) && s.sent <= t.sent && (t.host, t.received, t.delivered) == (s.host, s.received, s.delivered)
    requires s.hungUp ==> t.hungUp
    requires s.sender.Returned? ==> t.sender == s.sender && t.sent == s.sent
    ensures HostSide(t)
  {
    assert t.sent[..|s.sent|] == s.sent;
  }

  predicate OfHost(e: Event) { e.HostRecv? || e.HostEnd? || e.HostBreak? || e.Deliver? || e.GiveUp? }

  lemma OthersOnlyGrow(s: State, e: Event)
    requires Act(s, e).Some? && !OfHost(e)
    ensures
      var t := Act(s, e).value;
      && s.sent <= t.sent && (t.host, t.received, t.delivered) == (s.host, s.received, s.delivered)
      && (s.hungUp ==> t.hungUp)
      && (s.sender.Returned? ==> t.sender == s.sender && t.sent == s.sent)
  {
  }

  lemma HostKeepsHostSide(s: State, e: Event)
    requires Inv(s) && Act(s, e).Some? && OfHost(e)
    ensures HostSide(Act(s, e).value)
  {
  }

  lemma ActKeepsHostSide(s: State, e: Event)
    requires Inv(s) && Act(s, e).Some?
    ensures HostSide(Act(s, e).value)
  {
    if OfHost(e) {
      HostKeepsHostSide(s, e);
    } else {
      OthersOnlyGrow(s, e);
      GrowingKeepsHostSide(s, Act(s, e).value);
    }
  }

  lemma ActKeepsInv(s: State, e: Event)
    requires Inv(s) && Act(s, e).Some?
    ensures Inv(Act(s, e).value)
  {
    ActKeepsPipe(s, e);
    ActKeepsEnds(s, e);
    ActKeepsHostSide(s, e);
  }

  lemma ActKeepsEnds(s: State, e: Event)
    requires Inv(s) && Act(s, e).Some?
    ensures Ends(Act(s, e).value)
  {
    if e.Receive? || e.Drain? || e.Send? { EndsWhileSending(s, e); } else { EndsOtherwise(s, e); }
  }

  lemma EndsWhileSending(s: State, e: Event)
    requires Inv(s) && (e.Receive? || e.Drain? || e.Send?) && Act(s, e).Some?
    ensures Ends(Act(s, e).value)
  {
  }

  lemma EndsOtherwise(s: State, e: Event)
    requires Inv(s) && !e.Receive? && !e.Drain? && !e.Send? && Act(s, e).Some?
    ensures Ends(Act(s, e).value)
  {
  }

  // ---- Every interleaving

  ghost predicate Behaviour(states: seq<State>, events: seq<Event>)
  {
    && |states| == |events| + 1 && states[0] == START
    && forall i {:trigger Act(states[i], events[i])} :: 0 <= i < |events| ==>
         Act(states[i], events[i]) == Some(states[i + 1])
  }

  lemma {:induction false} AlwaysInv(states: seq<State>, events: seq<Event>, i: nat)
    requires Behaviour(states, events) && i < |states|
    ensures Inv(states[i])
  {
    if i > 0 {
      AlwaysInv(states, events, i - 1);
      assert Act(states[i - 1], events[i - 1]) == Some(states[i]);
      ActKeepsInv(states[i - 1], events[i - 1]);
    }
  }

  /** Rows arrive in order and without gaps or repeats: what the caller got starts what was sent, which starts what the
      module produced. A server that returns leaves no goroutine behind: the module has finished and the channel is
      closed and empty. Without a send error everything produced was sent and the module's own result is returned; on a
      send error the module is cancelled before its rows are drained and its result awaited. */
  lemma TailDelivers(states: seq<State>, events: seq<Event>, i: nat)
    requires Behaviour(states, events) && i < |states|
    ensures
      var s := states[i];
      && s.delivered <= s.sent <= s.produced
      && (s.sender.Returned? ==> s.mod == Closed && s.buf == [] && s.cancelled)
      && (s.sender.Returned? && s.sender.outcome.FromModule? ==>
        s.sent == s.produced && Some(s.sender.outcome.err) == s.result)
      && (s.sender == Returned(SendFailed) ==> s.dropped != [] && s.produced == s.sent + s.dropped)
      && (s.sender == Draining || s.sender == Awaiting(true) ==> s.cancelled)
  {
    AlwaysInv(states, events, i);
    var s := states[i];
    assert s.sent + s.dropped + InFlight(s) + s.buf == s.sent + (s.dropped + InFlight(s) + s.buf);
  }

  /** A caller that gets nil without having hung up has every row the module ever produced, and the
      module returned nil. */
  lemma NilMeansEverything(states: seq<State>, events: seq<Event>, i: nat)
    requires Behaviour(states, events) && i < |states|
    requires states[i].host == HostReturned(None) && !states[i].hungUp
    ensures states[i].delivered == states[i].produced && states[i].result == Some(None)
  {
    TailDelivers(states, events, i);
    AlwaysInv(states, events, i);
  }

  // ---- What is answered, told by the events

  /** The rows the module put out, in order. */
  function Rows(events: seq<Event>): seq<Row>
  {
    if events == [] then []
    else Rows(events[..|events| - 1]) + match events[|events| - 1] case Produce(row) => [row] case _ => []
  }

  /** How many rows went onto the stream, and how many of them the caller took. */
  function Sends(events: seq<Event>): nat
  {
    if events == [] then 0 else Sends(events[..|events| - 1]) + if events[|events| - 1] == Send(true) then 1 else 0
  }

  function Deliveries(events: seq<Event>): nat
  {
    if events == [] then 0 else Deliveries(events[..|events| - 1]) + if events[|events| - 1] == Deliver then 1 else 0
  }

  /** What the module's Tail returned, once it has. */
  function StopResult(events: seq<Event>): Option<Option<string>>
  {
    if events == [] then None
    else match events[|events| - 1] case Stop(result) => Some(result) case _ => StopResult(events[..|events| - 1])
  }

  /** What the host's loop returned, once it has: nil if it had hung up by then; else what broke the stream, be it the
      transport or the server's send; else what the module returned. */
  function HostResult(events: seq<Event>): Option<Option<string>>
    decreases |events|, 0
  {
    if events == [] then None else HostResultWith(events[..|events| - 1], events[|events| - 1])
  }

  function HostResultWith(before: seq<Event>, e: Event): Option<Option<string>>
    decreases |before|, 1
  {
    match e
    case GiveUp => Some(None)
    case HostBreak(error) => Some(if HangUp in before then None else Some(error))
    case HostEnd =>
      if HangUp in before then Some(None)
      else if Send(false) in before then Some(Some("stream broke"))
      else StopResult(before)
    case _ => HostResult(before)
  }

  /** Both sides' state is what the events make it. */
  predicate Told(s: State, events: seq<Event>)
  {
    && s.produced == Rows(events) && |s.sent| == Sends(events) && |s.delivered| == Deliveries(events)
    && s.result == StopResult(events)
    && (s.hungUp <==> HangUp in events)
    && (s.cancelled <==> HangUp in events || Cancel in events || TakeResult in events)
    && (SendFailedYet(s) <==> Send(false) in events)
    && HostResult(events) == (match s.host case HostReturned(err) => Some(err) case _ => None)
  }

  lemma OneMore(events: seq<Event>, e: Event)
    ensures (events + [e])[..|events|] == events
    ensures forall d :: d in events + [e] <==> d in events || d == e
  {
  }

  lemma ActTells(s: State, events: seq<Event>, e: Event)
    requires Inv(s) && Told(s, events) && Act(s, e).Some?
    ensures Told(Act(s, e).value, events + [e])
  {
    if OfHost(e) {
      HostTells(s, events, e);
    } else if e.Produce? || e.Stop? || e.CloseRows? {
      ModuleTells(s, events, e);
    }
    else { SenderTells(s, events, e); }
  }

  lemma HostTells(s: State, events: seq<Event>, e: Event)
    requires Inv(s) && Told(s, events) && OfHost(e) && Act(s, e).Some?
    ensures Told(Act(s, e).value, events + [e])
  {
    OneMore(events, e);
    assert s.produced + [] == s.produced;
  }

  lemma ModuleTells(s: State, events: seq<Event>, e: Event)
    requires Told(s, events) && (e.Produce? || e.Stop? || e.CloseRows?) && Act(s, e).Some?
    ensures Told(Act(s, e).value, events + [e])
  {
    OneMore(events, e);
    assert s.produced + [] == s.produced;
  }

  lemma SenderTells(s: State, events: seq<Event>, e: Event)
    requires Told(s, events) && !OfHost(e) && !e.Produce? && !e.Stop? && !e.CloseRows? && Act(s, e).Some?
    ensures Told(Act(s, e).value, events + [e])
  {
    OneMore(events, e);
    assert s.produced + [] == s.produced;
  }

  lemma {:induction false} AlwaysTold(states: seq<State>, events: seq<Event>, i: nat)
    requires Behaviour(states, events) && i < |states|
    ensures Told(states[i], events[..i])
  {
    if i > 0 {
      AlwaysTold(states, events, i - 1);
      AlwaysInv(states, events, i - 1);
      assert Act(states[i - 1], events[i - 1]) == Some(states[i]);
      ActTells(states[i - 1], events[..i - 1], events[i - 1]);
      assert events[..i] == events[..i - 1] + [events[i - 1]];
    }
  }

  /** The handler returns the send error exactly when a send failed and otherwise what the module's Tail returned;
      the module's context ends when the host hangs up, a failed send cancels it, or the handler returns; and the
      host returns nil if it had hung up, the error of what broke, or the module's own, having delivered the first
      of the rows sent. */
  lemma TailAnswers(states: seq<State>, events: seq<Event>, i: nat)
    requires Behaviour(states, events) && i < |states|
    ensures
      var s, done := states[i], events[..i];
      && s.produced == Rows(done)
      && s.sent <= Rows(done) && |s.sent| == Sends(done)
      && s.delivered <= Rows(done) && |s.delivered| == Deliveries(done)
      && (s.sender == Returned(SendFailed) ==> Send(false) in done)
      && (forall r :: s.sender == Returned(FromModule(r)) ==> Send(false) !in done && StopResult(done) == Some(r))
      && (s.cancelled <==> HangUp in done || Cancel in done || s.sender.Returned?)
      && (forall err :: s.host == HostReturned(err) <==> HostResult(done) == Some(err))
  {
    AlwaysTold(states, events, i);
    AlwaysInv(states, events, i);
    TailDelivers(states, events, i);
    TakenIsReturned(states, events, i);
  }

  lemma {:induction false} TakenIsReturned(states: seq<State>, events: seq<Event>, i: nat)
    requires Behaviour(states, events) && i < |states|
    ensures TakeResult in events[..i] <==> states[i].sender.Returned?
  {
    if i > 0 {
      TakenIsReturned(states, events, i - 1);
      assert Act(states[i - 1], events[i - 1]) == Some(states[i]);
      assert events[..i] == events[..i - 1] + [events[i - 1]];
    }
  }

  // ---- No deadlock

  predicate SenderCanAct(s: State)
  {
    Act(s, Receive).Some? || Act(s, Send(true)).Some? || Act(s, Cancel).Some? || Act(s, Drain).Some?
      || Act(s, TakeResult).Some?
  }

  /** A module stuck on a full channel is always being emptied by the sender, and a sender with nothing to do is
      waiting for a module that has not closed yet, whose next row the channel has room for. */
  lemma NoDeadlock(s: State)
    requires Inv(s)
    ensures s.mod == Producing && |s.buf| == CAPACITY ==> SenderCanAct(s)
    ensures !s.sender.Returned? && !SenderCanAct(s) ==>
      s.mod != Closed && (s.mod == Producing ==> |s.buf| < CAPACITY && forall row :: Act(s, Produce(row)).Some?)
  {
  }

  function Measure(s: State): nat
  {
    3 * |s.buf|
    + (match s.sender
       case Receiving => 4
       case Sending(_) => 6
       case Failed => 5
       case Draining => 3
       case Awaiting(_) => 2
       case Returned(_) => 0)
    + (match s.mod case Producing => 2 case Stopped => 1 case Closed => 0)
  }

  /** Each step of the server or its module but producing a row uses up the measure, so once a cancelled module stops
      producing the handler comes to its end. */
  lemma StepsTerminate(s: State, e: Event)
    requires Act(s, e).Some?
    ensures Measure(Act(s, e).value) <= Measure(s) + if e.Produce? then 3 else 0
    ensures e.Stop? || e.CloseRows? || e.Receive? || e.Send? || e.Cancel? || e.Drain? || e.TakeResult? ==>
      Measure(Act(s, e).value) < Measure(s)
  {
  }

  // ---- The handler comes to its end

  /** A step of the server's handler, or the module's goroutine finishing. */
  predicate OfHandler(e: Event)
  {
    e.Stop? || e.CloseRows? || e.Receive? || e.Send? || e.Cancel? || e.Drain? || e.TakeResult?
  }

  function HandlerSteps(events: seq<Event>): nat
  {
    if events == [] then 0 else HandlerSteps(events[..|events| - 1]) + if OfHandler(events[|events| - 1]) then 1 else 0
  }

  function Produced(events: seq<Event>): nat
  {
    if events == [] then 0 else Produced(events[..|events| - 1]) + if events[|events| - 1].Produce? then 1 else 0
  }

  lemma LastStep(states: seq<State>, events: seq<Event>, j: nat)
    requires Behaviour(states, events) && 0 < j < |states|
    ensures Act(states[j - 1], events[j - 1]) == Some(states[j])
    ensures HandlerSteps(events[..j]) == HandlerSteps(events[..j - 1]) + if OfHandler(events[j - 1]) then 1 else 0
    ensures Produced(events[..j]) == Produced(events[..j - 1]) + if events[j - 1].Produce? then 1 else 0
  {
    assert events[..j][..j - 1] == events[..j - 1] && events[..j][j - 1] == events[j - 1];
  }

  /** In every interleaving the handler and the module's goroutine take at most six steps, and three
      more for each row. */
  lemma {:induction false} HandlerEnds(states: seq<State>, events: seq<Event>, i: nat)
    requires Behaviour(states, events) && i < |states|
    ensures HandlerSteps(events[..i]) + Measure(states[i]) <= 6 + 3 * Produced(events[..i])
  {
    if i > 0 {
      HandlerEnds(states, events, i - 1);
      LastStep(states, events, i);
      StepsTerminate(states[i - 1], events[i - 1]);
    }
  }

  /** Once the module has stopped there are no more rows, and its stopping stays. */
  lemma StoppedStep(states: seq<State>, events: seq<Event>, j: nat)
    requires Behaviour(states, events) && 0 < j < |states| && states[j - 1].mod != Producing
    ensures states[j].mod != Producing && Produced(events[..j]) == Produced(events[..j - 1])
    ensures HandlerSteps(events[..j]) + Measure(states[j]) <= HandlerSteps(events[..j - 1]) + Measure(states[j - 1])
  {
    LastStep(states, events, j);
    NoMoreRows(states[j - 1], events[j - 1]);
    StepsTerminate(states[j - 1], events[j - 1]);
  }

  lemma NoMoreRows(s: State, e: Event)
    requires s.mod != Producing && Act(s, e).Some?
    ensures Act(s, e).value.mod != Producing && !e.Produce?
  {
  }

  lemma {:induction false} StoppedStays(states: seq<State>, events: seq<Event>, i: nat, j: nat)
    requires Behaviour(states, events) && i <= j < |states| && states[i].mod != Producing
    ensures states[j].mod != Producing && Produced(events[..j]) == Produced(events[..i])
    ensures HandlerSteps(events[..j]) + Measure(states[j]) <= HandlerSteps(events[..i]) + Measure(states[i])
    decreases j
  {
    if i < j {
      StoppedStays(states, events, i, j - 1);
      StoppedStep(states, events, j);
    }
  }

  /** So a module that stops, cancelled or not, lets the handler return: from then on at most 199 steps are left, and a
      state in which none of them can be taken is one where the handler has returned. */
  lemma StoppedModuleReturns(states: seq<State>, events: seq<Event>, i: nat, j: nat)
    requires Behaviour(states, events) && i <= j < |states| && states[i].mod != Producing
    ensures HandlerSteps(events[..j]) <= HandlerSteps(events[..i]) + 199
    ensures (forall e :: OfHandler(e) ==> Act(states[j], e).None?) ==>
      states[j].sender.Returned? && states[j].mod == Closed
  {
    AlwaysInv(states, events, i);
    StoppedStays(states, events, i, j);
    AlwaysInv(states, events, j);
    if forall e :: OfHandler(e) ==> Act(states[j], e).None? {
      assert OfHandler(CloseRows) && OfHandler(Receive) && OfHandler(Send(true)) && OfHandler(Cancel)
        && OfHandler(Drain) && OfHandler(TakeResult);
      assert Act(states[j], CloseRows).None?;
      NoDeadlock(states[j]);
    }
  }
}
