/** The client hand-off between host and plugin, over every interleaving of any number of connections
    (plugin/wire.go `Handoff`, plugin/wireserver.go `handle`). */
module Handoff {
  import opened GoStrings

  type Key = string

  // ---- One connection

  /** Lines from the plugin, and the host's replies. */
  datatype Msg = BootMsg | HandledMsg | SpliceMsg | ErrorMsg
  datatype Reply = BackendReply | BootFailReply

  datatype Result = Nil | BootError | ReadError | WireError

  datatype HostPc =
    | Reading              // in ReadString
    | Booting              // in host.Boot
    | Splicing             // acquired; discarding until the plugin closes its end
    | Returning(r: Result) // about to run the deferred side.Close
    | Returned(result: Result)
    | HostCrashed

  datatype PluginPc =
    | Receiving            // recvConn
    | InPreamble
    | AskingBoot
    | Waiting              // for the reply to "boot"
    | Dialing
    | Replaying
    | InHandshake
    | AskingSplice
    | InSplice
    | Unwinding            // running deferred calls, last first
    | Finished
    | PluginCrashed

  datatype Defer = CloseSide | CloseClient | CloseBackend | Cleanup(key: Option<Key>)

  datatype Preamble = NotRun | PreambleError | PreambleHandled | PreambleOk

  /** `sent` and `replies` are all that ever went into the two queues; `read` and `repliesRead` say
      how much came out. */
  datatype Conn = Conn(
    host: HostPc, plugin: PluginPc, defers: seq<Defer>,
    sent: seq<Msg>, read: nat, replies: seq<Reply>, repliesRead: nat,
    sideOpen: bool, clientOpen: bool, backendOpen: bool, key: Option<Key>,
    preamble: Preamble, boots: nat, booted: nat, acquires: nat, releases: nat)

  /** Handoff has dialled and passed the client; the plugin has accepted, its first defer in place. */
  const FRESH := Conn(Reading, Receiving, [CloseSide], [], 0, [], 0, true, false, false, None, NotRun, 0, 0, 0, 0)

  predicate HostGone(c: Conn) { c.host.Returned? || c.host.HostCrashed? }

  predicate PluginGone(c: Conn) { c.plugin.Finished? || c.plugin.PluginCrashed? }

  /** A write to an end that is gone is lost, and nobody looks at the error. */
  function Send(c: Conn, m: Msg): Conn
  {
    if HostGone(c) then c else c.(sent := c.sent + [m])
  }

  function Answer(c: Conn, r: Reply): Conn
  {
    if !c.sideOpen then c else c.(replies := c.replies + [r])
  }

  // ---- Steps of the two sides

  datatype HostEvent =
    | ReadLine
    | ReadEnd(reset: bool)   // end of file, or a reset, with nothing left to read
    | BootDone(ok: bool)
    | SpliceOver
    | CloseHost

  datatype PluginEvent =
    | Recv(received: bool)
    | PreambleDone(p: Preamble)
    | AskBoot
    | ReadReply
    | ReplyEnd
    | Dial(dialled: bool)
    | Replay(written: bool)
    | HandshakeDone(ready: bool, cleanup: bool, k: Option<Key>)
    | AskSplice
    | SpliceDone
    | RunDefer

  function HostStep(c: Conn, e: HostEvent): Option<Conn>
  {
    match e
    case ReadLine =>
      if c.host == Reading && c.read < |c.sent| then
        var c' := c.(read := c.read + 1);
        Some(match c.sent[c.read]
             case HandledMsg => c'.(host := Returning(Nil))
             case BootMsg => c'.(host := Booting, boots := c.boots + 1)
             case SpliceMsg => c'.(host := Splicing, acquires := c.acquires + 1)
             case ErrorMsg => c'.(host := Returning(WireError)))
      else None
    case ReadEnd(reset) =>
      if c.host == Reading && c.read >= |c.sent| && !c.sideOpen
      then Some(c.(host := Returning(if reset then ReadError else Nil))) else None
    case BootDone(ok) =>
      if c.host == Booting then
        Some(if ok then Answer(c.(host := Reading, booted := c.booted + 1), BackendReply)
             else Answer(c.(host := Returning(BootError)), BootFailReply))
      else None
    case SpliceOver =>
      if c.host == Splicing && !c.sideOpen then Some(c.(host := Returning(Nil), releases := c.releases + 1)) else None
    case CloseHost =>
      if c.host.Returning? then Some(c.(host := Returned(c.host.r))) else None
  }

  function Unwind(c: Conn): Conn { c.(plugin := Unwinding) }

  function Deferred(c: Conn, d: Defer): Conn { c.(defers := c.defers + [d]) }

  function PluginStep(c: Conn, e: PluginEvent): Option<Conn>
  {
    match e
    case Recv(ok) =>
      if c.plugin != Receiving then None
      else if !ok then Some(Unwind(c))
      else Some(Deferred(c.(plugin := InPreamble, clientOpen := true), CloseClient))
    case PreambleDone(p) =>
      if c.plugin != InPreamble || p == NotRun then None
      else
        var c' := c.(preamble := p);
        Some(match p
             case PreambleError => Unwind(Send(c', ErrorMsg))
             case PreambleHandled => Unwind(Send(c', HandledMsg))
             case _ => c'.(plugin := AskingBoot))
    case AskBoot =>
      if c.plugin == AskingBoot then Some(Send(c, BootMsg).(plugin := Waiting)) else None
    case ReadReply =>
      if c.plugin == Waiting && c.repliesRead < |c.replies| then
        var c' := c.(repliesRead := c.repliesRead + 1);
        Some(if c.replies[c.repliesRead] == BackendReply then c'.(plugin := Dialing) else Unwind(c'))
      else None
    case ReplyEnd =>
      if c.plugin == Waiting && c.repliesRead >= |c.replies| && HostGone(c) then Some(Unwind(c)) else None
    case Dial(ok) =>
      if c.plugin != Dialing then None
      else if !ok then Some(Unwind(c))
      else Some(Deferred(c.(plugin := Replaying, backendOpen := true), CloseBackend))
    case Replay(ok) =>
      if c.plugin != Replaying then None
      else if !ok then Some(Unwind(c))
      else Some(c.(plugin := InHandshake))
    case HandshakeDone(ready, cleanup, k) =>
      // a key left registered comes with a cleanup that removes it
      if c.plugin != InHandshake || (k.Some? && !cleanup) then None
      else
        var c' := if cleanup then Deferred(c.(key := k), Cleanup(k)) else c;
        Some(if ready then c'.(plugin := AskingSplice) else Unwind(c'))
    case AskSplice =>
      if c.plugin == AskingSplice then Some(Send(c, SpliceMsg).(plugin := InSplice)) else None
    case SpliceDone =>
      if c.plugin == InSplice then Some(Unwind(c.(clientOpen := false, backendOpen := false))) else None
    case RunDefer =>
      if c.plugin != Unwinding then None
      else if c.defers == [] then Some(c.(plugin := Finished))
      else
        var d := c.defers[|c.defers| - 1];
        Some(c.(defers := c.defers[..|c.defers| - 1],
                sideOpen := c.sideOpen && d != CloseSide,
                clientOpen := c.clientOpen && d != CloseClient,
                backendOpen := c.backendOpen && d != CloseBackend,
                key := if d.Cleanup? then None else c.key))
  }

  // ---- What every reachable connection satisfies

  /** Go's deferred calls pile up in this order and no other. */
  predicate DeferOrder(ds: seq<Defer>)
  {
    && |ds| <= 4
    && (|ds| > 0 ==> ds[0] == CloseSide)
    && (|ds| > 1 ==> ds[1] == CloseClient)
    && (|ds| > 2 ==> ds[2] == CloseBackend)
    && (|ds| > 3 ==> ds[3].Cleanup?)
  }

  /** Each open resource of the plugin has its deferred release still to run. */
  predicate Guarded(c: Conn)
  {
    && DeferOrder(c.defers)
    && (c.sideOpen <==> |c.defers| > 0)
    && (c.clientOpen ==> |c.defers| > 1)
    && (c.backendOpen ==> |c.defers| > 2)
    && (c.key.Some? ==> |c.defers| > 3 && c.defers[3] == Cleanup(c.key))
    && match c.plugin
       case Receiving => |c.defers| == 1
       case InPreamble | AskingBoot | Waiting | Dialing => |c.defers| == 2
       case Replaying | InHandshake => |c.defers| == 3
       case AskingSplice | InSplice => |c.defers| >= 3
       case Unwinding => true
       case Finished | PluginCrashed => c.defers == []
  }

  /** What the plugin has said so far, by where it is. */
  predicate Script(c: Conn)
  {
    && (c.sent == [] || c.sent == [HandledMsg] || c.sent == [ErrorMsg] || c.sent == [BootMsg]
      || c.sent == [BootMsg, SpliceMsg])
    && (c.sent != [] && c.sent[0] == BootMsg ==> c.preamble == PreambleOk)
    && (|c.sent| == 2 ==> c.replies == [BackendReply])
    && match c.plugin
       case Receiving | InPreamble => c.sent == [] && c.preamble == NotRun && c.repliesRead == 0
       case AskingBoot => c.sent == [] && c.preamble == PreambleOk && c.repliesRead == 0
       case Waiting =>
         c.preamble == PreambleOk && c.repliesRead == 0 && (c.sent == [BootMsg] || (HostGone(c) && c.sent == []))
       case Dialing | Replaying | InHandshake | AskingSplice => c.sent == [BootMsg] && c.replies == [BackendReply]
       case InSplice => c.sent == [BootMsg, SpliceMsg] || (HostGone(c) && c.sent == [BootMsg])
       case Unwinding | Finished | PluginCrashed => true
  }

  /** What the host has done so far, by what it has read. */
  predicate Books(c: Conn)
  {
    && c.read <= |c.sent| && c.repliesRead <= |c.replies|
    && c.booted <= c.boots <= 1 && c.releases <= c.acquires <= 1
    && (c.boots == 1 <==> c.read >= 1 && c.sent[0] == BootMsg)
    && (c.acquires == 1 <==> c.read == 2)
    && (c.replies == [] || c.replies == [BackendReply] || c.replies == [BootFailReply])
    && (c.replies == [BackendReply] ==> c.booted == 1)
    && (c.acquires == 1 ==> c.booted == 1)
    && match c.host
       case Reading =>
         c.acquires == 0 && c.booted == c.boots == c.read
           && (c.read == 1 ==> !c.sideOpen || c.replies == [BackendReply]) && (c.read == 0 ==> c.replies == [])
       case Booting => c.read == 1 && c.boots == 1 && c.booted == 0 && c.replies == []
       case Splicing => c.acquires == 1 && c.releases == 0
       case Returning(r) =>
         c.releases == c.acquires && (r == BootError ==> !c.sideOpen || c.replies == [BootFailReply])
           && (c.releases == 1 ==> !c.sideOpen)
       case Returned(_) => c.releases == c.acquires && (c.releases == 1 ==> !c.sideOpen)
       case HostCrashed => c.releases == 1 ==> !c.sideOpen
  }

  predicate ConnInv(c: Conn) { Guarded(c) && Script(c) && Books(c) }

  /** What the plugin did does not look at where the host is, but for whether it is gone. */
  lemma ReadingKeepsPluginSide(c: Conn)
    requires Guarded(c) && Script(c) && HostStep(c, ReadLine).Some?
    ensures Guarded(HostStep(c, ReadLine).value) && Script(HostStep(c, ReadLine).value)
  {
  }

  lemma ReadFirstKeepsBooks(c: Conn)
    requires Script(c) && Books(c) && HostStep(c, ReadLine).Some? && c.read == 0
    ensures Books(HostStep(c, ReadLine).value)
  {
  }

  lemma ReadFirstKeepsInv(c: Conn)
    requires ConnInv(c) && HostStep(c, ReadLine).Some? && c.read == 0
    ensures ConnInv(HostStep(c, ReadLine).value)
  {
    ReadingKeepsPluginSide(c);
    ReadFirstKeepsBooks(c);
  }

  lemma ReadSecondKeepsInv(c: Conn)
    requires ConnInv(c) && HostStep(c, ReadLine).Some? && c.read != 0
    ensures ConnInv(HostStep(c, ReadLine).value)
  {
    assert c.sent == [BootMsg, SpliceMsg];
  }

  lemma BootDoneKeepsInv(c: Conn, e: HostEvent)
    requires ConnInv(c) && e.BootDone? && HostStep(c, e).Some?
    ensures ConnInv(HostStep(c, e).value)
  {
    assert forall r: Reply :: [] + [r] == [r];
  }

  lemma PreamblePassesKeepsInv(c: Conn, e: PluginEvent)
    requires ConnInv(c) && e == PreambleDone(PreambleOk) && PluginStep(c, e).Some?
    ensures ConnInv(PluginStep(c, e).value)
  {
  }

  lemma PreambleEndsKeepsInv(c: Conn, e: PluginEvent)
    requires ConnInv(c) && e.PreambleDone? && e.p != PreambleOk && PluginStep(c, e).Some?
    ensures ConnInv(PluginStep(c, e).value)
  {
    assert forall m: Msg :: [] + [m] == [m];
  }

  lemma AskBootKeepsInv(c: Conn, e: PluginEvent)
    requires ConnInv(c) && e.AskBoot? && PluginStep(c, e).Some?
    ensures ConnInv(PluginStep(c, e).value)
  {
    assert forall m: Msg :: [] + [m] == [m];
  }

  lemma ReadReplyKeepsInv(c: Conn, e: PluginEvent)
    requires ConnInv(c) && e.ReadReply? && PluginStep(c, e).Some?
    ensures ConnInv(PluginStep(c, e).value)
  {
  }

  /** The host's books do not look at where the plugin is. */
  lemma BooksStand(c: Conn, d: Conn)
    requires Books(c) && (d.sideOpen ==> c.sideOpen)
    requires (d.host, d.sent, d.read, d.replies, d.repliesRead) == (c.host, c.sent, c.read, c.replies, c.repliesRead)
    requires (d.boots, d.booted, d.acquires, d.releases) == (c.boots, c.booted, c.acquires, c.releases)
    ensures Books(d)
  {
  }

  lemma HandshakeDoneKeepsGuarded(c: Conn, e: PluginEvent)
    requires Guarded(c) && e.HandshakeDone? && PluginStep(c, e).Some?
    ensures Guarded(PluginStep(c, e).value)
  {
  }

  lemma HandshakeDoneKeepsScript(c: Conn, e: PluginEvent)
    requires Script(c) && e.HandshakeDone? && PluginStep(c, e).Some?
    ensures Script(PluginStep(c, e).value)
  {
  }

  lemma HandshakeDoneKeepsInv(c: Conn, e: PluginEvent)
    requires ConnInv(c) && e.HandshakeDone? && PluginStep(c, e).Some?
    ensures ConnInv(PluginStep(c, e).value)
  {
    HandshakeDoneKeepsGuarded(c, e);
    HandshakeDoneKeepsScript(c, e);
    BooksStand(c, PluginStep(c, e).value);
  }

  lemma AskSpliceKeepsInv(c: Conn, e: PluginEvent)
    requires ConnInv(c) && e.AskSplice? && PluginStep(c, e).Some?
    ensures ConnInv(PluginStep(c, e).value)
  {
    assert [BootMsg] + [SpliceMsg] == [BootMsg, SpliceMsg];
  }

  /** What a plugin holds open for a connection, and what each deferred call closes. */
  datatype Resource = Side | Client | Backend | CancelKey

  function Opened(c: Conn): set<Resource>
  {
    (if c.sideOpen then {Side} else {}) + (if c.clientOpen then {Client} else {})
    + (if c.backendOpen then {Backend} else {}) + if c.key.Some? then {CancelKey} else {}
  }

  function Closes(d: Defer): Resource
  {
    match d
    case CloseSide => Side
    case CloseClient => Client
    case CloseBackend => Backend
    case Cleanup(_) => CancelKey
  }

  lemma RunDeferCloses(c: Conn)
    requires Guarded(c) && PluginStep(c, RunDefer).Some? && c.defers != []
    ensures
      var after, last := PluginStep(c, RunDefer).value, c.defers[|c.defers| - 1];
      && c.defers == after.defers + [last] && Opened(after) == Opened(c) - {Closes(last)}
      && (CancelKey in Opened(after) ==> after.key == c.key)
  {
  }

  lemma RunDeferStaysGuarded(c: Conn)
    requires Guarded(c) && PluginStep(c, RunDefer).Some?
    ensures Guarded(PluginStep(c, RunDefer).value)
  {
    var n, after := |c.defers|, PluginStep(c, RunDefer).value;
    if n > 0 {
      assert after.defers == c.defers[..n - 1];
      assert DeferOrder(after.defers);
    }
  }

  /** A deferred call closes its own resource and nothing else, and what stays open has its call among those left. */
  lemma RunDeferKeepsGuarded(c: Conn)
    requires Guarded(c) && PluginStep(c, RunDefer).Some?
    ensures
      var after := PluginStep(c, RunDefer).value;
      && Guarded(after)
      && (forall r :: r in Opened(after) ==> exists i :: 0 <= i < |after.defers| && Closes(after.defers[i]) == r)
      && if c.defers == [] then after == c.(plugin := Finished)
         else
           var last := c.defers[|c.defers| - 1];
           && c.defers == after.defers + [last] && Opened(after) == Opened(c) - {Closes(last)}
           && (CancelKey in Opened(after) ==> after.key == c.key)
  {
    RunDeferStaysGuarded(c);
    OpenIsGuarded(PluginStep(c, RunDefer).value);
    if c.defers != [] { RunDeferCloses(c); }
  }

  lemma OpenIsGuarded(c: Conn)
    requires Guarded(c)
    ensures forall r :: r in Opened(c) ==> exists i :: 0 <= i < |c.defers| && Closes(c.defers[i]) == r
  {
    forall r | r in Opened(c) ensures exists i :: 0 <= i < |c.defers| && Closes(c.defers[i]) == r {
      match r
      case Side => assert Closes(c.defers[0]) == r;
      case Client => assert Closes(c.defers[1]) == r;
      case Backend => assert Closes(c.defers[2]) == r;
      case CancelKey => assert Closes(c.defers[3]) == r;
    }
  }

  /** A plugin that is unwinding or gone says and reads nothing more, so the books stand as they were. */
  lemma LettingGo(c: Conn, d: Conn)
    requires Script(c) && Books(c)
    requires d.plugin in {Unwinding, Finished, PluginCrashed} && (d.sideOpen ==> c.sideOpen)
    requires (d.host, d.sent, d.read, d.replies, d.repliesRead) == (c.host, c.sent, c.read, c.replies, c.repliesRead)
    requires (d.preamble, d.boots, d.booted, d.acquires, d.releases) ==
      (c.preamble, c.boots, c.booted, c.acquires, c.releases)
    ensures Script(d) && Books(d)
  {
  }

  lemma RunDeferKeepsInv(c: Conn)
    requires ConnInv(c) && PluginStep(c, RunDefer).Some?
    ensures ConnInv(PluginStep(c, RunDefer).value)
  {
    RunDeferStaysGuarded(c);
    LettingGo(c, PluginStep(c, RunDefer).value);
  }

  lemma HostKeepsInv(c: Conn, e: HostEvent)
    requires ConnInv(c) && HostStep(c, e).Some?
    ensures ConnInv(HostStep(c, e).value)
  {
    match e
    case ReadLine => if c.read == 0 { ReadFirstKeepsInv(c); } else { ReadSecondKeepsInv(c); }
    case BootDone(_) => BootDoneKeepsInv(c, e);
    case _ => EndKeepsInv(c, e);
  }

  lemma EndKeepsInv(c: Conn, e: HostEvent)
    requires ConnInv(c) && !e.ReadLine? && !e.BootDone? && HostStep(c, e).Some?
    ensures ConnInv(HostStep(c, e).value)
  {
  }

  lemma QuietKeepsInv(c: Conn, e: PluginEvent)
    requires ConnInv(c) && (e.Recv? || e.ReplyEnd? || e.SpliceDone?) && PluginStep(c, e).Some?
    ensures ConnInv(PluginStep(c, e).value)
  {
  }

  lemma DialKeepsInv(c: Conn, e: PluginEvent)
    requires ConnInv(c) && (e.Dial? || e.Replay?) && PluginStep(c, e).Some?
    ensures ConnInv(PluginStep(c, e).value)
  {
  }

  lemma PluginKeepsInv(c: Conn, e: PluginEvent)
    requires ConnInv(c) && PluginStep(c, e).Some?
    ensures ConnInv(PluginStep(c, e).value)
  {
    match e
    case PreambleDone(r) => if r == PreambleOk { PreamblePassesKeepsInv(c, e); } else { PreambleEndsKeepsInv(c, e); }
    case AskBoot => AskBootKeepsInv(c, e);
    case ReadReply => ReadReplyKeepsInv(c, e);
    case HandshakeDone(_, _, _) => HandshakeDoneKeepsInv(c, e);
    case AskSplice => AskSpliceKeepsInv(c, e);
    case Dial(_) => DialKeepsInv(c, e);
    case Replay(_) => DialKeepsInv(c, e);
    case RunDefer => RunDeferKeepsInv(c);
    case _ => QuietKeepsInv(c, e);
  }

  // ---- Crashes of a whole process

  function LosePlugin(c: Conn): Conn
  {
    if c.plugin.Finished? then c
    else c.(plugin := PluginCrashed, defers := [], sideOpen := false, clientOpen := false, backendOpen := false,
      key := None)
  }

  function LoseHost(c: Conn): Conn
  {
    if c.host.Returned? then c else c.(host := HostCrashed)
  }

  lemma PluginCrashKeeps(c: Conn)
    requires ConnInv(c)
    ensures ConnInv(LosePlugin(c))
  {
    if !c.plugin.Finished? { LettingGo(c, LosePlugin(c)); }
  }

  lemma PluginCrashForgets(c: Conn)
    requires Guarded(c)
    ensures LosePlugin(c).host == c.host && LosePlugin(c).key == None
  {
  }

  lemma HostCrashKeeps(c: Conn)
    requires ConnInv(c)
    ensures ConnInv(LoseHost(c)) && LoseHost(c).host != Splicing && LoseHost(c).key == c.key
  {
  }

  lemma FreshIsFine()
    ensures ConnInv(FRESH)
  {
  }

  // ---- Progress

  /** Reading from the side channel with nothing there, and the other end open. */
  predicate HostBlocked(c: Conn)
  {
    (c.host == Reading && c.read >= |c.sent| && c.sideOpen) || (c.host == Splicing && c.sideOpen)
  }

  predicate PluginBlocked(c: Conn)
  {
    c.plugin == Waiting && c.repliesRead >= |c.replies| && !HostGone(c)
  }

  /** No reachable state has both sides waiting to read. */
  lemma NeverBothBlocked(c: Conn)
    requires ConnInv(c)
    ensures !(HostBlocked(c) && PluginBlocked(c))
  {
  }

  /** A side that is neither gone nor blocked has a step; each Boot, Preamble, Handshake and splice
      that finishes is one. */
  lemma HostCanStep(c: Conn) returns (e: HostEvent)
    requires !HostGone(c) && !HostBlocked(c)
    ensures HostStep(c, e).Some?
  {
    e := match c.host
      case Reading => (if c.read < |c.sent| then ReadLine else ReadEnd(false))
      case Booting => BootDone(true)
      case Splicing => SpliceOver
      case _ => CloseHost;
  }

  lemma PluginCanStep(c: Conn) returns (e: PluginEvent)
    requires !PluginGone(c) && !PluginBlocked(c)
    ensures PluginStep(c, e).Some? && Registers(e).None?
  {
    e := match c.plugin
      case Receiving => Recv(true)
      case InPreamble => PreambleDone(PreambleOk)
      case AskingBoot => AskBoot
      case Waiting => (if c.repliesRead < |c.replies| then ReadReply else ReplyEnd)
      case Dialing => Dial(true)
      case Replaying => Replay(true)
      case InHandshake => HandshakeDone(true, false, None)
      case AskingSplice => AskSplice
      case InSplice => SpliceDone
      case _ => RunDefer;
  }

  /** Once one side is gone nothing blocks the other: an end of file or a crash on either side ends both. */
  lemma OtherSideEnds(c: Conn)
    requires ConnInv(c)
    ensures PluginGone(c) ==> !HostBlocked(c)
    ensures HostGone(c) ==> !PluginBlocked(c)
  {
  }

  function HostMeasure(c: Conn): nat
  {
    match c.host
    case Reading => if c.read == 0 then 5 else 3
    case Booting => 4
    case Splicing => 2
    case Returning(_) => 1
    case _ => 0
  }

  function PluginMeasure(c: Conn): nat
  {
    match c.plugin
    case Receiving => 14
    case InPreamble => 13
    case AskingBoot => 12
    case Waiting => 11
    case Dialing => 10
    case Replaying => 9
    case InHandshake => 8
    case AskingSplice => 7
    case InSplice => 6
    case Unwinding => 1 + |c.defers|
    case _ => 0
  }

  function Measure(c: Conn): nat { HostMeasure(c) + PluginMeasure(c) }

  /** Every step uses up a bounded budget, so with no side ever blocked for good both automata end. */
  lemma HostStepsTerminate(c: Conn, h: HostEvent)
    requires ConnInv(c) && HostStep(c, h).Some?
    ensures Measure(HostStep(c, h).value) < Measure(c)
  {
    HostAdvances(c, h);
  }

  lemma HostAdvances(c: Conn, h: HostEvent)
    requires Script(c) && Books(c) && HostStep(c, h).Some?
    ensures HostMeasure(HostStep(c, h).value) < HostMeasure(c)
    ensures PluginMeasure(HostStep(c, h).value) == PluginMeasure(c)
  {
  }

  lemma PluginStepsTerminate(c: Conn, p: PluginEvent)
    requires ConnInv(c) && PluginStep(c, p).Some?
    ensures Measure(PluginStep(c, p).value) < Measure(c)
  {
    PluginStepKey(c, p);
    if p == RunDefer {
      UnwindingTerminates(c);
    } else if p.Recv? || p.PreambleDone? || p.AskBoot? || p.ReadReply? || p.ReplyEnd? {
      PluginAdvances(c, p);
    } else {
      PluginAdvancesBooted(c, p);
    }
  }

  lemma UnwindingTerminates(c: Conn)
    requires PluginStep(c, RunDefer).Some?
    ensures PluginMeasure(PluginStep(c, RunDefer).value) < PluginMeasure(c)
  {
  }

  lemma PluginAdvances(c: Conn, p: PluginEvent)
    requires |c.defers| <= 4 && (p.Recv? || p.PreambleDone? || p.AskBoot? || p.ReadReply? || p.ReplyEnd?)
    requires PluginStep(c, p).Some?
    ensures PluginMeasure(PluginStep(c, p).value) < PluginMeasure(c)
  {
  }

  lemma PluginAdvancesBooted(c: Conn, p: PluginEvent)
    requires |c.defers| <= 4 && (p.Dial? || p.Replay? || p.HandshakeDone? || p.AskSplice? || p.SpliceDone?)
    requires PluginStep(c, p).Some?
    ensures PluginMeasure(PluginStep(c, p).value) < PluginMeasure(c)
  {
  }

  // ---- All connections at once

  /** `registry` maps each synthetic key to the connection that registered it; `live` is what Acquire
      and Release keep. */
  datatype System = System(conns: map<nat, Conn>, registry: map<Key, nat>, live: int, hostUp: bool, pluginUp: bool)

  const START := System(map[], map[], 0, true, true)

  datatype Event =
    | Open(id: nat)
    | AtHost(at: nat, h: HostEvent)
    | AtPlugin(on: nat, p: PluginEvent)
    | CrashPlugin
    | CrashHost

  /** The key a step registers, which the registry makes sure is new. */
  function Registers(p: PluginEvent): Option<Key>
  {
    if p.HandshakeDone? && p.cleanup then p.k else None
  }

  function PluginLost(conns: map<nat, Conn>): map<nat, Conn>
  {
    map id | id in conns :: LosePlugin(conns[id])
  }

  ghost predicate Step(s: System, e: Event, t: System)
  {
    match e
    case Open(id) =>
      s.hostUp && s.pluginUp && id !in s.conns && t == s.(conns := s.conns[id := FRESH])
    case AtHost(id, h) =>
      && id in s.conns && HostStep(s.conns[id], h).Some?
      && var c, d := s.conns[id], HostStep(s.conns[id], h).value;
         t == s.(conns := s.conns[id := d], live := s.live + (d.acquires - c.acquires) - (d.releases - c.releases))
    case AtPlugin(id, p) =>
      && id in s.conns && PluginStep(s.conns[id], p).Some?
      && (Registers(p).Some? ==> Registers(p).value !in s.registry)
      && var c, d := s.conns[id], PluginStep(s.conns[id], p).value;
         t == s.(conns := s.conns[id := d],
                 registry := if Registers(p).Some? then s.registry[Registers(p).value := id]
                             else if c.key.Some? && d.key.None? then s.registry - {c.key.value} else s.registry)
    case CrashPlugin =>
      t == s.(conns := PluginLost(s.conns), registry := map[], pluginUp := false)
    case CrashHost =>
      t == s.(conns := map id | id in s.conns :: LoseHost(s.conns[id]), live := 0, hostUp := false)
  }

  /** The connections between Acquire and Release. */
  function LiveSet(conns: map<nat, Conn>): set<nat>
  {
    set id | id in conns && conns[id].host == Splicing
  }

  /** The registry holds each connection's key, and nothing else. */
  ghost predicate KeysMatch(conns: map<nat, Conn>, registry: map<Key, nat>)
  {
    && (forall k :: k in registry ==> registry[k] in conns && conns[registry[k]].key == Some(k))
    && (forall id :: id in conns && conns[id].key.Some? ==>
      conns[id].key.value in registry && registry[conns[id].key.value] == id)
  }

  ghost predicate AllInv(conns: map<nat, Conn>)
  {
    forall id :: id in conns ==> ConnInv(conns[id])
  }

  ghost predicate SysInv(s: System)
  {
    AllInv(s.conns) && s.live == |LiveSet(s.conns)| && KeysMatch(s.conns, s.registry)
  }

  function AtWork(c: Conn): int { if c.host == Splicing then 1 else 0 }

  lemma LiveSetUpdate(conns: map<nat, Conn>, id: nat, d: Conn)
    requires id in conns
    ensures |LiveSet(conns[id := d])| == |LiveSet(conns)| + AtWork(d) - AtWork(conns[id])
  {
    var before, after := LiveSet(conns), LiveSet(conns[id := d]);
    assert after - {id} == before - {id};
    assert id in after ==> after == (after - {id}) + {id};
    assert id in before ==> before == (before - {id}) + {id};
  }

  /** Acquire and Release bracket exactly the time in Splicing. */
  lemma AcquireBracketsSplice(c: Conn, h: HostEvent)
    requires HostStep(c, h).Some?
    ensures var d := HostStep(c, h).value;
      (d.acquires - c.acquires) - (d.releases - c.releases) == AtWork(d) - AtWork(c) && d.key == c.key
  {
  }

  /** A step takes the connection's key from none to the one registered, from one to none, or leaves it. */
  lemma PluginStepKey(c: Conn, p: PluginEvent)
    requires Guarded(c) && PluginStep(c, p).Some?
    ensures var d := PluginStep(c, p).value;
      && d.host == c.host && d.read == c.read
      && if Registers(p).Some? then c.key.None? && d.key == Registers(p) else d.key == c.key || d.key.None?
  {
  }

  lemma KeysMatchUpdate(conns: map<nat, Conn>, registry: map<Key, nat>, id: nat, d: Conn)
    requires KeysMatch(conns, registry) && id in conns
    ensures d.key == conns[id].key ==> KeysMatch(conns[id := d], registry)
    ensures conns[id].key.None? && d.key.Some? && d.key.value !in registry ==>
      KeysMatch(conns[id := d], registry[d.key.value := id])
    ensures conns[id].key.Some? && d.key.None? ==> KeysMatch(conns[id := d], registry - {conns[id].key.value})
  {
  }

  lemma HostStepKeepsInv(s: System, id: nat, h: HostEvent, t: System)
    requires SysInv(s) && Step(s, AtHost(id, h), t)
    ensures SysInv(t)
  {
    var c, d := s.conns[id], HostStep(s.conns[id], h).value;
    HostKeepsInv(c, h);
    AcquireBracketsSplice(c, h);
    LiveSetUpdate(s.conns, id, d);
    KeysMatchUpdate(s.conns, s.registry, id, d);
  }

  lemma PluginStepKeepsKeys(s: System, id: nat, p: PluginEvent, t: System)
    requires SysInv(s) && Step(s, AtPlugin(id, p), t)
    ensures KeysMatch(t.conns, t.registry)
  {
    assert Guarded(s.conns[id]);
    PluginStepKey(s.conns[id], p);
    KeysMatchUpdate(s.conns, s.registry, id, PluginStep(s.conns[id], p).value);
  }

  lemma PluginStepKeepsConns(s: System, id: nat, p: PluginEvent, t: System)
    requires AllInv(s.conns) && Step(s, AtPlugin(id, p), t)
    ensures AllInv(t.conns)
  {
    assert ConnInv(s.conns[id]);
    PluginKeepsInv(s.conns[id], p);
  }

  lemma PluginStepKeepsLive(s: System, id: nat, p: PluginEvent, t: System)
    requires SysInv(s) && Step(s, AtPlugin(id, p), t)
    ensures t.live == |LiveSet(t.conns)|
  {
    assert Guarded(s.conns[id]);
    PluginStepKey(s.conns[id], p);
    LiveSetUpdate(s.conns, id, PluginStep(s.conns[id], p).value);
  }

  lemma PluginStepKeepsInv(s: System, id: nat, p: PluginEvent, t: System)
    requires SysInv(s) && Step(s, AtPlugin(id, p), t)
    ensures SysInv(t)
  {
    PluginStepKeepsConns(s, id, p, t);
    PluginStepKeepsLive(s, id, p, t);
    PluginStepKeepsKeys(s, id, p, t);
  }

  lemma PluginCrashKeepsInv(s: System, t: System)
    requires SysInv(s) && Step(s, CrashPlugin, t)
    ensures SysInv(t)
  {
    AllSurvivePluginCrash(s.conns);
    HostsSurvivePluginCrash(s.conns);
  }

  lemma AllSurvivePluginCrash(conns: map<nat, Conn>)
    requires AllInv(conns)
    ensures AllInv(PluginLost(conns))
  {
    forall id | id in conns ensures ConnInv(PluginLost(conns)[id]) { PluginCrashKeeps(conns[id]); }
  }

  lemma HostsSurvivePluginCrash(conns: map<nat, Conn>)
    requires AllInv(conns)
    ensures LiveSet(PluginLost(conns)) == LiveSet(conns) && KeysMatch(PluginLost(conns), map[])
  {
    var after := PluginLost(conns);
    forall id | id in conns ensures after[id].host == conns[id].host && after[id].key == None {
      assert Guarded(conns[id]);
      PluginCrashForgets(conns[id]);
    }
  }

  lemma HostCrashKeepsInv(s: System, t: System)
    requires SysInv(s) && Step(s, CrashHost, t)
    ensures SysInv(t)
  {
    forall id | id in s.conns
      ensures ConnInv(t.conns[id]) && t.conns[id].host != Splicing && t.conns[id].key == s.conns[id].key
    {
      HostCrashKeeps(s.conns[id]);
    }
    assert LiveSet(t.conns) == {};
  }

  lemma OpenKeepsInv(s: System, id: nat, t: System)
    requires SysInv(s) && Step(s, Open(id), t)
    ensures SysInv(t)
  {
    FreshIsFine();
    assert LiveSet(t.conns) == LiveSet(s.conns);
    KeysMatchOpen(s.conns, s.registry, id);
  }

  lemma KeysMatchOpen(conns: map<nat, Conn>, registry: map<Key, nat>, id: nat)
    requires KeysMatch(conns, registry) && id !in conns
    ensures KeysMatch(conns[id := FRESH], registry)
  {
  }

  lemma StepKeepsInv(s: System, e: Event, t: System)
    requires SysInv(s) && Step(s, e, t)
    ensures SysInv(t)
  {
    match e
    case Open(id) => OpenKeepsInv(s, id, t);
    case AtHost(id, h) => HostStepKeepsInv(s, id, h, t);
    case AtPlugin(id, p) => PluginStepKeepsInv(s, id, p, t);
    case CrashPlugin => PluginCrashKeepsInv(s, t);
    case CrashHost => HostCrashKeepsInv(s, t);
  }

  /** Any interleaving, from a fresh host and plugin. */
  ghost predicate Behaviour(states: seq<System>, events: seq<Event>)
  {
    && |states| == |events| + 1 && states[0] == START
    && forall i :: 0 <= i < |events| ==> Step(states[i], events[i], states[i + 1])
  }

  lemma {:induction false} AlwaysInv(states: seq<System>, events: seq<Event>, i: nat)
    requires Behaviour(states, events) && i < |states|
    ensures SysInv(states[i])
  {
    if i == 0 {
      assert LiveSet(START.conns) == {};
    } else {
      AlwaysInv(states, events, i - 1);
      StepKeepsInv(states[i - 1], events[i - 1], states[i]);
    }
  }

  /** The accounting theorem. In every reachable state the live count is the number of connections between Acquire and
      Release; each connection was booted for at most once, and never when its preamble failed or handled it; it was
      acquired at most once, after a Boot that succeeded; and a released one's plugin side is through with its deferred
      calls: its cancel key is out of the registry, its backend and client are closed. */
  lemma Accounting(states: seq<System>, events: seq<Event>, i: nat)
    requires Behaviour(states, events) && i < |states|
    ensures states[i].live == |LiveSet(states[i].conns)|
    ensures forall id :: id in states[i].conns ==>
      var c := states[i].conns[id];
      && c.boots <= 1 && (c.boots == 1 ==> c.preamble == PreambleOk)
      && c.releases <= c.acquires <= 1 && (c.acquires == 1 ==> c.booted == 1)
      && (c.acquires - c.releases == 1 <==> c.host == Splicing || (c.host == HostCrashed && c.acquires > c.releases))
      && (c.releases == 1 ==>
        c.defers == [] && !c.backendOpen && !c.clientOpen &&
          forall k :: k in states[i].registry ==> states[i].registry[k] != id)
  {
    AlwaysInv(states, events, i);
  }

  /** In every reachable state, every connection that is not over on both sides has a side that can take a step. */
  lemma AlwaysProgress(states: seq<System>, events: seq<Event>, i: nat, id: nat)
    requires Behaviour(states, events) && i < |states| && id in states[i].conns
    requires !HostGone(states[i].conns[id]) || !PluginGone(states[i].conns[id])
    ensures
      var c := states[i].conns[id];
      || (!HostGone(c) && !HostBlocked(c) && exists e :: HostStep(c, e).Some?)
      || (!PluginGone(c) && !PluginBlocked(c) && exists e :: PluginStep(c, e).Some?)
  {
    AlwaysInv(states, events, i);
    var c := states[i].conns[id];
    NeverBothBlocked(c);
    OtherSideEnds(c);
    if !HostGone(c) && !HostBlocked(c) {
      var e := HostCanStep(c);
    } else {
      var e := PluginCanStep(c);
    }
  }

  // ---- Every hand-off ends

  predicate Concerns(e: Event, id: nat)
  {
    (e.AtHost? && e.at == id) || (e.AtPlugin? && e.on == id)
  }

  /** How many of the events are steps of connection `id`, on either side. */
  function StepsOf(events: seq<Event>, id: nat): nat
  {
    if events == [] then 0
    else StepsOf(events[..|events| - 1], id) + if Concerns(events[|events| - 1], id) then 1 else 0
  }

  lemma CrashesShrink(c: Conn)
    ensures Measure(LosePlugin(c)) <= Measure(c) && Measure(LoseHost(c)) <= Measure(c)
  {
  }

  lemma OwnStepSpends(s: System, e: Event, t: System, id: nat)
    requires AllInv(s.conns) && Step(s, e, t) && id in s.conns && Concerns(e, id)
    ensures id in t.conns && Measure(t.conns[id]) < Measure(s.conns[id])
  {
    assert ConnInv(s.conns[id]);
    match e
    case AtHost(_, h) => HostStepsTerminate(s.conns[id], h);
    case AtPlugin(_, p) => PluginStepsTerminate(s.conns[id], p);
  }

  /** A step spends the budget of the connection it concerns and adds to no other's. */
  lemma StepSpends(s: System, e: Event, t: System, id: nat)
    requires AllInv(s.conns) && Step(s, e, t) && id in s.conns
    ensures id in t.conns && Measure(t.conns[id]) + (if Concerns(e, id) then 1 else 0) <= Measure(s.conns[id])
  {
    CrashesShrink(s.conns[id]);
    if Concerns(e, id) { OwnStepSpends(s, e, t, id); }
  }

  lemma OpeningSpends(s: System, e: Event, t: System, id: nat)
    requires Step(s, e, t) && id !in s.conns
    ensures !Concerns(e, id) && (id in t.conns ==> Measure(t.conns[id]) == 19)
  {
  }

  /** Whatever else goes on and whoever dies, a hand-off is over within 19 steps of its two sides. */
  lemma {:induction false} HandoffsEnd(states: seq<System>, events: seq<Event>, i: nat, id: nat)
    requires Behaviour(states, events) && i < |states|
    ensures StepsOf(events[..i], id) + (if id in states[i].conns then Measure(states[i].conns[id]) else 0) <= 19
    ensures id !in states[i].conns ==> StepsOf(events[..i], id) == 0
  {
    if i > 0 {
      HandoffsEnd(states, events, i - 1, id);
      AlwaysInv(states, events, i - 1);
      var s, e, t := states[i - 1], events[i - 1], states[i];
      assert Step(s, e, t);
      assert events[..i][..i - 1] == events[..i - 1] && events[..i][i - 1] == e;
      if id in s.conns { StepSpends(s, e, t, id); } else { OpeningSpends(s, e, t, id); }
    }
  }

  /** A hand-off that has come to a standstill is over on both sides: with HandoffsEnd, every hand-off gets there,
      unless the call its side is in never comes back. */
  lemma StandstillMeansOver(states: seq<System>, events: seq<Event>, i: nat, id: nat)
    requires Behaviour(states, events) && i < |states| && id in states[i].conns
    requires forall e, t :: Concerns(e, id) ==> !Step(states[i], e, t)
    ensures HostGone(states[i].conns[id]) && PluginGone(states[i].conns[id])
  {
    var s := states[i];
    var c := s.conns[id];
    AlwaysInv(states, events, i);
    assert ConnInv(c);
    NeverBothBlocked(c);
    OtherSideEnds(c);
    if !HostGone(c) && !HostBlocked(c) {
      var h := HostCanStep(c);
      HostStepIsStep(s, id, h);
    } else if !PluginGone(c) && !PluginBlocked(c) {
      var p := PluginCanStep(c);
      PluginStepIsStep(s, id, p);
    }
  }

  lemma HostStepIsStep(s: System, id: nat, h: HostEvent)
    requires id in s.conns && HostStep(s.conns[id], h).Some?
    ensures exists t :: Step(s, AtHost(id, h), t)
  {
    var c, d := s.conns[id], HostStep(s.conns[id], h).value;
    var t := s.(conns := s.conns[id := d], live := s.live + (d.acquires - c.acquires) - (d.releases - c.releases));
    assert Step(s, AtHost(id, h), t);
  }

  lemma PluginStepIsStep(s: System, id: nat, p: PluginEvent)
    requires id in s.conns && PluginStep(s.conns[id], p).Some? && Registers(p).None?
    ensures exists t :: Step(s, AtPlugin(id, p), t)
  {
    var c, d := s.conns[id], PluginStep(s.conns[id], p).value;
    var registry := if c.key.Some? && d.key.None? then s.registry - {c.key.value} else s.registry;
    var t := s.(conns := s.conns[id := d], registry := registry);
    assert Step(s, AtPlugin(id, p), t);
  }
}
