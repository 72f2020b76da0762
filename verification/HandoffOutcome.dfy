/** How a hand-off comes out, told by the events of its two sides (plugin/wireserver.go `handle`, plugin/wire.go
    `Handoff`). */
module HandoffOutcome {
  import opened GoStrings
  import opened Handoff

  // ---- What has happened on one connection

  /** The steps of a connection's plugin side so far, in order. */
  function Mine(events: seq<Event>, id: nat): seq<PluginEvent>
  {
    if events == [] then []
    else MineWith(Mine(events[..|events| - 1], id), events[|events| - 1], id)
  }

  function MineWith(mine: seq<PluginEvent>, e: Event, id: nat): seq<PluginEvent>
  {
    if e.AtPlugin? && e.on == id then mine + [e.p] else mine
  }

  /** And of its host side. */
  function Theirs(events: seq<Event>, id: nat): seq<HostEvent>
  {
    if events == [] then []
    else TheirsWith(Theirs(events[..|events| - 1], id), events[|events| - 1], id)
  }

  function TheirsWith(theirs: seq<HostEvent>, e: Event, id: nat): seq<HostEvent>
  {
    if e.AtHost? && e.at == id then theirs + [e.h] else theirs
  }

  lemma {:induction false} MineHappened(events: seq<Event>, id: nat, k: nat) returns (j: nat)
    requires k < |Mine(events, id)|
    ensures j < |events| && events[j] == AtPlugin(id, Mine(events, id)[k])
  {
    var init, last := events[..|events| - 1], events[|events| - 1];
    if last.AtPlugin? && last.on == id && k == |Mine(init, id)| {
      j := |events| - 1;
    } else {
      j := MineHappened(init, id, k);
    }
  }

  // ---- The plugin's script

  /** The `k`-th step of a hand-off in which all goes well. */
  predicate GoesWell(e: PluginEvent, k: nat)
  {
    match k
    case 0 => e == Recv(true)
    case 1 => e == PreambleDone(PreambleOk)
    case 2 => e == AskBoot
    case 3 => e == ReadReply
    case 4 => e == Dial(true)
    case 5 => e == Replay(true)
    case 6 => e.HandshakeDone? && e.ready
    case 7 => e == AskSplice
    case 8 => e == SpliceDone
    case _ => false
  }

  /** A step that ends the hand-off in that place. */
  predicate GivesUp(e: PluginEvent, k: nat)
  {
    match k
    case 0 => e == Recv(false)
    case 1 => e == PreambleDone(PreambleError) || e == PreambleDone(PreambleHandled)
    case 3 => e == ReplyEnd
    case 4 => e == Dial(false)
    case 5 => e == Replay(false)
    case 6 => e.HandshakeDone? && !e.ready
    case _ => false
  }

  /** How many steps went well. */
  function Far(mine: seq<PluginEvent>): (n: nat)
    ensures n <= |mine| && n <= 9
  {
    if mine == [] then 0
    else
      var n, last := Far(mine[..|mine| - 1]), |mine| - 1;
      if n == last && GoesWell(mine[last], n) then n + 1 else n
  }

  lemma {:induction false} FarGoesWell(mine: seq<PluginEvent>, k: nat)
    requires k < Far(mine)
    ensures GoesWell(mine[k], k)
  {
    var init := mine[..|mine| - 1];
    if k < Far(init) { FarGoesWell(init, k); }
  }

  /** How many steps it takes to get there, all of them well. */
  function Place(pc: PluginPc): Option<nat>
  {
    match pc
    case Receiving => Some(0)
    case InPreamble => Some(1)
    case AskingBoot => Some(2)
    case Waiting => Some(3)
    case Dialing => Some(4)
    case Replaying => Some(5)
    case InHandshake => Some(6)
    case AskingSplice => Some(7)
    case InSplice => Some(8)
    case _ => None
  }

  /** Why the plugin is letting go: it was through, the host could not boot the backend, or a step gave up. */
  predicate Through(c: Conn, mine: seq<PluginEvent>)
  {
    var n := Far(mine);
    n == 9 || (n == 4 && c.replies == [BootFailReply]) || (n < |mine| && GivesUp(mine[n], n))
  }

  /** Past the steps that went well there is the one that gave up, if one did, and deferred calls. */
  predicate LettingGoSince(mine: seq<PluginEvent>)
  {
    var n := Far(mine);
    forall k :: n <= k < |mine| ==> mine[k] == RunDefer || (k == n && GivesUp(mine[k], n))
  }

  predicate PluginStory(c: Conn, mine: seq<PluginEvent>)
  {
    && LettingGoSince(mine)
    && (Place(c.plugin).Some? ==> Far(mine) == |mine| == Place(c.plugin).value)
    && (c.plugin in {Unwinding, Finished} ==> Through(c, mine))
  }

  /** Only a backend that was booted is dialled. */
  predicate Dialled(c: Conn, mine: seq<PluginEvent>)
  {
    Dial(true) in mine || Dial(false) in mine ==> c.replies == [BackendReply]
  }

  // ---- What the plugin holds

  /** How many deferred calls are still to run: one was there to begin with, and each thing taken lays down another. */
  function Laid(mine: seq<PluginEvent>): nat
  {
    if mine == [] then 1 else LaidWith(Laid(mine[..|mine| - 1]), mine[|mine| - 1])
  }

  function LaidWith(n: nat, p: PluginEvent): nat
  {
    match p
    case Recv(true) => n + 1
    case Dial(true) => n + 1
    case HandshakeDone(_, true, _) => n + 1
    case RunDefer => if n == 0 then 0 else n - 1
    case _ => n
  }

  /** The key its handshake registered, if any. */
  function Registered(mine: seq<PluginEvent>): Option<Key>
  {
    if mine == [] then None else RegisteredWith(Registered(mine[..|mine| - 1]), mine[|mine| - 1])
  }

  function RegisteredWith(k: Option<Key>, p: PluginEvent): Option<Key>
  {
    if p.HandshakeDone? && p.cleanup then p.k else k
  }

  /** A plugin that lives holds what it has taken, until the deferred call that lets it go, or, for the two it splices,
      until the splice is done. */
  predicate Holding(c: Conn, mine: seq<PluginEvent>)
  {
    !c.plugin.PluginCrashed? ==>
      && |c.defers| == Laid(mine)
      && (c.clientOpen <==> Laid(mine) > 1 && SpliceDone !in mine)
      && (c.backendOpen <==> Laid(mine) > 2 && SpliceDone !in mine)
      && c.key == if Laid(mine) > 3 then Registered(mine) else None
  }

  // ---- What is said

  function Says(e: PluginEvent): seq<Msg>
  {
    match e
    case PreambleDone(PreambleError) => [ErrorMsg]
    case PreambleDone(PreambleHandled) => [HandledMsg]
    case AskBoot => [BootMsg]
    case AskSplice => [SpliceMsg]
    case _ => []
  }

  function Said(mine: seq<PluginEvent>): seq<Msg>
  {
    if mine == [] then [] else Said(mine[..|mine| - 1]) + Says(mine[|mine| - 1])
  }

  /** Only a dead host misses a line, or leaves the plugin without an answer. */
  predicate Heard(c: Conn, mine: seq<PluginEvent>)
  {
    c.sent <= Said(mine) && (!c.host.HostCrashed? ==> c.sent == Said(mine) && ReplyEnd !in mine)
  }

  // ---- The host's books

  function Lines(theirs: seq<HostEvent>): nat
  {
    if theirs == [] then 0
    else Lines(theirs[..|theirs| - 1]) + if theirs[|theirs| - 1] == ReadLine then 1 else 0
  }

  predicate Ended(c: Conn) { c.host.Returning? || c.host.Returned? }

  function EndedWith(c: Conn): Option<Result>
  {
    match c.host
    case Returning(r) => Some(r)
    case Returned(r) => Some(r)
    case _ => None
  }

  /** The line read last is this one. */
  predicate LastRead(c: Conn, m: Msg) { 0 < c.read <= |c.sent| && c.sent[c.read - 1] == m }

  /** What the host has done, and, as long as it lives, what it returns. */
  predicate HostStory(c: Conn, theirs: seq<HostEvent>)
  {
    && Lines(theirs) == c.read
    && (BootDone(true) in theirs <==> c.booted == 1)
    && (SpliceOver in theirs <==> c.releases == 1)
    && (c.replies == [BackendReply] ==> BootDone(true) in theirs)
    && (c.replies == [BootFailReply] ==> BootDone(false) in theirs)
    && (!c.host.HostCrashed? ==> Verdict(c, theirs) && Patient(c))
  }

  predicate Verdict(c: Conn, theirs: seq<HostEvent>)
  {
    && (EndedWith(c) == Some(WireError) <==> LastRead(c, ErrorMsg))
    && (EndedWith(c) == Some(BootError) <==> BootDone(false) in theirs)
    && (EndedWith(c) == Some(ReadError) <==> ReadEnd(true) in theirs)
    && (EndedWith(c) == Some(Nil) <==> LastRead(c, HandledMsg) || ReadEnd(false) in theirs || SpliceOver in theirs)
  }

  /** The host does not leave while the plugin may still say something that matters. */
  predicate Patient(c: Conn)
  {
    && (Ended(c) && c.sideOpen ==> c.replies == [BootFailReply] || LastRead(c, HandledMsg) || LastRead(c, ErrorMsg))
    && (Ended(c) && EndedWith(c) != Some(BootError) ==> c.read == |c.sent|)
    && (c.replies != [] ==> c.read > 0)
    && (EndedWith(c) == Some(BootError) ==> LastRead(c, BootMsg) && c.booted == 0)
  }

  // ---- Each step adds to the story

  lemma FarGrows(mine: seq<PluginEvent>, p: PluginEvent)
    ensures Far(mine + [p]) == if Far(mine) == |mine| && GoesWell(p, |mine|) then |mine| + 1 else Far(mine)
  {
    assert (mine + [p])[..|mine|] == mine;
  }

  /** A step from one of the places goes well and leads on, or gives up. */
  lemma PlaceMoves(c: Conn, p: PluginEvent)
    requires Script(c) && Books(c) && Place(c.plugin).Some? && PluginStep(c, p).Some?
    ensures
      var k, d := Place(c.plugin).value, PluginStep(c, p).value;
      if GoesWell(p, k) then
        Place(d.plugin) == Some(k + 1)
          || (d.plugin == Unwinding && (k == 8 || (k == 3 && d.replies == [BootFailReply])))
      else GivesUp(p, k) && d.plugin == Unwinding
  {
  }

  lemma UnwindingStays(c: Conn, p: PluginEvent)
    requires Place(c.plugin).None? && PluginStep(c, p).Some?
    ensures p == RunDefer && c.plugin == Unwinding
    ensures PluginStep(c, p).value.plugin in {Unwinding, Finished} && PluginStep(c, p).value.replies == c.replies
  {
  }

  lemma PluginStoryGrows(c: Conn, mine: seq<PluginEvent>, p: PluginEvent)
    requires Script(c) && Books(c) && PluginStory(c, mine) && PluginStep(c, p).Some?
    ensures PluginStory(PluginStep(c, p).value, mine + [p])
  {
    var more := mine + [p];
    FarGrows(mine, p);
    if Place(c.plugin).Some? { PlaceMoves(c, p); } else { UnwindingStays(c, p); }
    forall k | Far(more) <= k < |more|
      ensures more[k] == RunDefer || (k == Far(more) && GivesUp(more[k], Far(more)))
    {
      if k < |mine| { assert more[k] == mine[k]; }
    }
    assert forall k :: 0 <= k < |mine| ==> more[k] == mine[k];
  }

  lemma DialledGrows(c: Conn, mine: seq<PluginEvent>, p: PluginEvent)
    requires Script(c) && Dialled(c, mine) && PluginStep(c, p).Some?
    ensures Dialled(PluginStep(c, p).value, mine + [p])
  {
    PluginFrame(c, p);
  }

  lemma OneMoreHeld(mine: seq<PluginEvent>, p: PluginEvent)
    ensures Laid(mine + [p]) == LaidWith(Laid(mine), p) && Registered(mine + [p]) == RegisteredWith(Registered(mine), p)
    ensures SpliceDone in mine + [p] <==> SpliceDone in mine || p == SpliceDone
  {
    assert (mine + [p])[..|mine|] == mine;
  }

  lemma TakingHolds(c: Conn, mine: seq<PluginEvent>, p: PluginEvent)
    requires Guarded(c) && Holding(c, mine) && (p.Recv? || p.Dial? || p.HandshakeDone?) && PluginStep(c, p).Some?
    requires SpliceDone !in mine
    ensures Holding(PluginStep(c, p).value, mine + [p])
  {
    OneMoreHeld(mine, p);
  }

  lemma LettingGoHolds(c: Conn, mine: seq<PluginEvent>, p: PluginEvent)
    requires Guarded(c) && Holding(c, mine) && (p == RunDefer || p == SpliceDone) && PluginStep(c, p).Some?
    ensures Holding(PluginStep(c, p).value, mine + [p])
  {
    OneMoreHeld(mine, p);
  }

  lemma HoldingGrows(c: Conn, mine: seq<PluginEvent>, p: PluginEvent)
    requires Guarded(c) && Holding(c, mine) && PluginStory(c, mine) && PluginStep(c, p).Some?
    ensures Holding(PluginStep(c, p).value, mine + [p])
  {
    OneMoreHeld(mine, p);
    if p == RunDefer || p == SpliceDone {
      LettingGoHolds(c, mine, p);
    } else {
      if SpliceDone in mine { SplicedAtTheEnd(c, mine); }
      if p.Recv? || p.Dial? || p.HandshakeDone? { TakingHolds(c, mine, p); }
    }
  }

  lemma SplicedAtTheEnd(c: Conn, mine: seq<PluginEvent>)
    requires PluginStory(c, mine) && SpliceDone in mine
    ensures Place(c.plugin).None?
  {
    if Place(c.plugin).Some? {
      forall k | 0 <= k < |mine| ensures mine[k] != SpliceDone { FarGoesWell(mine, k); }
    }
  }

  predicate Speaks(p: PluginEvent) { p.PreambleDone? || p.AskBoot? || p.AskSplice? }

  /** A plugin's step leaves what the host has done alone, but for the line it may say. */
  ghost predicate Framed(c: Conn, p: PluginEvent, d: Conn)
  {
    && (d.host, d.read, d.replies, d.booted, d.releases) == (c.host, c.read, c.replies, c.booted, c.releases)
    && d.sent == (if HostGone(c) then c.sent else c.sent + Says(p)) && (d.sideOpen ==> c.sideOpen)
  }

  lemma SpeakingFrame(c: Conn, p: PluginEvent)
    requires Speaks(p) && PluginStep(c, p).Some?
    ensures Framed(c, p, PluginStep(c, p).value)
  {
  }

  lemma SilentFrame(c: Conn, p: PluginEvent)
    requires !Speaks(p) && p != RunDefer && PluginStep(c, p).Some?
    ensures Framed(c, p, PluginStep(c, p).value)
  {
    assert c.sent + [] == c.sent;
  }

  lemma PluginFrame(c: Conn, p: PluginEvent)
    requires PluginStep(c, p).Some?
    ensures Framed(c, p, PluginStep(c, p).value)
  {
    if Speaks(p) {
      SpeakingFrame(c, p);
    } else if p == RunDefer {
      assert c.sent + [] == c.sent;
    } else {
      SilentFrame(c, p);
    }
  }

  /** Once the host's call has ended the plugin has nothing more to say. */
  lemma QuietOnceEnded(c: Conn, p: PluginEvent)
    requires ConnInv(c) && Patient(c) && Ended(c) && PluginStep(c, p).Some?
    ensures Says(p) == []
  {
    assert c.plugin in {InPreamble, AskingBoot, AskingSplice} ==> c.sideOpen;
  }

  lemma HeardGrows(c: Conn, mine: seq<PluginEvent>, p: PluginEvent)
    requires ConnInv(c) && Heard(c, mine) && (!c.host.HostCrashed? ==> Patient(c)) && PluginStep(c, p).Some?
    ensures Heard(PluginStep(c, p).value, mine + [p])
  {
    assert (mine + [p])[..|mine|] == mine;
    PluginFrame(c, p);
    if Ended(c) { QuietOnceEnded(c, p); }
    if p == ReplyEnd && !c.host.HostCrashed? { NeverUnanswered(c); }
  }

  /** A host that returns while the plugin waits has answered. */
  lemma NeverUnanswered(c: Conn)
    requires ConnInv(c) && Patient(c) && !c.host.HostCrashed?
    ensures PluginStep(c, ReplyEnd).None?
  {
  }

  lemma HostStoryStands(c: Conn, theirs: seq<HostEvent>, p: PluginEvent)
    requires ConnInv(c) && HostStory(c, theirs) && PluginStep(c, p).Some?
    ensures HostStory(PluginStep(c, p).value, theirs)
  {
    PluginFrame(c, p);
    var d := PluginStep(c, p).value;
    if Ended(c) { QuietOnceEnded(c, p); }
    assert c.read <= |c.sent| <= |d.sent| && d.sent[..c.read] == c.sent[..c.read]
      && (Ended(c) ==> |d.sent| == |c.sent|);
    ReadStands(c, d, theirs);
  }

  /** What the host returns and when looks at the lines it has read, not at those still to come. */
  lemma ReadStands(c: Conn, d: Conn, theirs: seq<HostEvent>)
    requires HostStory(c, theirs) && (d.sideOpen ==> c.sideOpen)
    requires (d.host, d.read, d.replies, d.booted, d.releases) == (c.host, c.read, c.replies, c.booted, c.releases)
    requires c.read <= |c.sent| <= |d.sent| && d.sent[..c.read] == c.sent[..c.read]
    requires Ended(c) ==> |d.sent| == |c.sent|
    ensures HostStory(d, theirs)
  {
    assert forall m :: LastRead(c, m) <==> LastRead(d, m) by {
      if c.read > 0 { assert d.sent[..c.read][c.read - 1] == c.sent[..c.read][c.read - 1]; }
    }
  }

  lemma OneMore(theirs: seq<HostEvent>, h: HostEvent)
    ensures Lines(theirs + [h]) == Lines(theirs) + if h == ReadLine then 1 else 0
    ensures forall e :: e in theirs + [h] <==> e in theirs || e == h
  {
    assert (theirs + [h])[..|theirs|] == theirs;
  }

  lemma HostBooksGrow(c: Conn, theirs: seq<HostEvent>, h: HostEvent)
    requires Books(c) && HostStory(c, theirs) && HostStep(c, h).Some?
    ensures
      var d, more := HostStep(c, h).value, theirs + [h];
      Lines(more) == d.read && (BootDone(true) in more <==> d.booted == 1) && (SpliceOver in more <==> d.releases == 1)
  {
    OneMore(theirs, h);
    HostCounts(c, h);
    assert h == BootDone(true) ==> c.booted == 0;
    assert h == SpliceOver ==> c.releases == 0;
  }

  lemma HostCounts(c: Conn, h: HostEvent)
    requires HostStep(c, h).Some?
    ensures
      var d := HostStep(c, h).value;
      && d.read == c.read + (if h == ReadLine then 1 else 0)
      && d.booted == c.booted + (if h == BootDone(true) then 1 else 0)
      && d.releases == c.releases + (if h == SpliceOver then 1 else 0)
  {
  }

  lemma RepliesGrow(c: Conn, theirs: seq<HostEvent>, h: HostEvent)
    requires Books(c) && HostStory(c, theirs) && HostStep(c, h).Some?
    ensures
      var d, more := HostStep(c, h).value, theirs + [h];
      && (d.replies == [BackendReply] ==> BootDone(true) in more)
      && (d.replies == [BootFailReply] ==> BootDone(false) in more)
  {
    OneMore(theirs, h);
    if h.BootDone? { assert c.replies == [] && forall r: Reply :: [] + [r] == [r]; }
  }

  lemma VerdictGrows(c: Conn, theirs: seq<HostEvent>, h: HostEvent)
    requires ConnInv(c) && HostStory(c, theirs) && HostStep(c, h).Some?
    ensures Verdict(HostStep(c, h).value, theirs + [h])
  {
    OneMore(theirs, h);
    match h
    case ReadLine => ReadingTells(c, theirs);
    case CloseHost =>
    case ReadEnd(_) => EndTells(c, theirs, h);
    case BootDone(_) => BootTells(c, theirs, h);
    case SpliceOver => SpliceTells(c, theirs);
  }

  lemma ReadingTells(c: Conn, theirs: seq<HostEvent>)
    requires ConnInv(c) && Verdict(c, theirs) && HostStep(c, ReadLine).Some?
    ensures Verdict(HostStep(c, ReadLine).value, theirs + [ReadLine])
  {
    OneMore(theirs, ReadLine);
    LineRead(c);
    assert EndedWith(c) == None;
  }

  lemma LineRead(c: Conn)
    requires HostStep(c, ReadLine).Some?
    ensures
      var d := HostStep(c, ReadLine).value;
      && (forall m :: LastRead(d, m) <==> c.sent[c.read] == m)
      && EndedWith(d) ==
           match c.sent[c.read] case HandledMsg => Some(Nil) case ErrorMsg => Some(WireError) case _ => None
  {
  }

  lemma EndTells(c: Conn, theirs: seq<HostEvent>, h: HostEvent)
    requires Verdict(c, theirs) && h.ReadEnd? && HostStep(c, h).Some?
    ensures Verdict(HostStep(c, h).value, theirs + [h])
  {
    OneMore(theirs, h);
  }

  lemma BootTells(c: Conn, theirs: seq<HostEvent>, h: HostEvent)
    requires Verdict(c, theirs) && h.BootDone? && HostStep(c, h).Some?
    ensures Verdict(HostStep(c, h).value, theirs + [h])
  {
    OneMore(theirs, h);
  }

  lemma SpliceTells(c: Conn, theirs: seq<HostEvent>)
    requires Verdict(c, theirs) && HostStep(c, SpliceOver).Some?
    ensures Verdict(HostStep(c, SpliceOver).value, theirs + [SpliceOver])
  {
    OneMore(theirs, SpliceOver);
  }

  lemma PatientGrows(c: Conn, h: HostEvent)
    requires ConnInv(c) && Patient(c) && HostStep(c, h).Some?
    ensures Patient(HostStep(c, h).value)
  {
    if h == ReadLine { PatientReading(c); } else { PatientOtherwise(c, h); }
  }

  lemma PatientReading(c: Conn)
    requires Script(c) && Books(c) && Patient(c) && HostStep(c, ReadLine).Some?
    ensures Patient(HostStep(c, ReadLine).value)
  {
    LineRead(c);
  }

  lemma PatientOtherwise(c: Conn, h: HostEvent)
    requires Script(c) && Books(c) && Patient(c) && h != ReadLine && HostStep(c, h).Some?
    ensures Patient(HostStep(c, h).value)
  {
  }

  lemma HostStoryGrows(c: Conn, theirs: seq<HostEvent>, h: HostEvent)
    requires ConnInv(c) && HostStory(c, theirs) && HostStep(c, h).Some?
    ensures HostStory(HostStep(c, h).value, theirs + [h])
  {
    HostBooksGrow(c, theirs, h);
    RepliesGrow(c, theirs, h);
    VerdictGrows(c, theirs, h);
    PatientGrows(c, h);
  }

  lemma HostFrame(c: Conn, h: HostEvent)
    requires Books(c) && HostStep(c, h).Some?
    ensures
      var d := HostStep(c, h).value;
      && (d.plugin, d.sent) == (c.plugin, c.sent) && (c.replies != [] ==> d.replies == c.replies)
      && !c.host.HostCrashed? && !d.host.HostCrashed?
  {
  }

  lemma HoldingStands(c: Conn, mine: seq<PluginEvent>, h: HostEvent)
    requires Holding(c, mine) && HostStep(c, h).Some?
    ensures Holding(HostStep(c, h).value, mine)
  {
  }

  lemma PluginStoryStands(c: Conn, mine: seq<PluginEvent>, h: HostEvent)
    requires Books(c) && PluginStory(c, mine) && Dialled(c, mine) && Heard(c, mine) && HostStep(c, h).Some?
    ensures
      var d := HostStep(c, h).value;
      PluginStory(d, mine) && Dialled(d, mine) && Heard(d, mine)
  {
    HostFrame(c, h);
  }

  // ---- Over every interleaving

  ghost predicate Story(c: Conn, mine: seq<PluginEvent>, theirs: seq<HostEvent>)
  {
    PluginStory(c, mine) && Dialled(c, mine) && Holding(c, mine) && Heard(c, mine) && HostStory(c, theirs)
  }

  lemma FreshStory()
    ensures Story(FRESH, [], [])
  {
  }

  lemma PluginCrashStory(c: Conn, mine: seq<PluginEvent>, theirs: seq<HostEvent>)
    requires Story(c, mine, theirs) && c.read <= |c.sent|
    ensures Story(LosePlugin(c), mine, theirs)
  {
    ReadStands(c, LosePlugin(c), theirs);
  }

  lemma HostCrashStory(c: Conn, mine: seq<PluginEvent>, theirs: seq<HostEvent>)
    requires Story(c, mine, theirs)
    ensures Story(LoseHost(c), mine, theirs)
  {
  }

  /** A side that is dead died with its process. */
  predicate Alive(s: System, c: Conn)
  {
    (s.hostUp ==> !c.host.HostCrashed?) && (s.pluginUp ==> !c.plugin.PluginCrashed?)
  }

  lemma HostStepStory(c: Conn, h: HostEvent, mine: seq<PluginEvent>, theirs: seq<HostEvent>)
    requires ConnInv(c) && Story(c, mine, theirs) && HostStep(c, h).Some?
    ensures Story(HostStep(c, h).value, mine, theirs + [h])
  {
    PluginStoryStands(c, mine, h);
    HoldingStands(c, mine, h);
    HostStoryGrows(c, theirs, h);
  }

  lemma PluginStepStory(c: Conn, p: PluginEvent, mine: seq<PluginEvent>, theirs: seq<HostEvent>)
    requires ConnInv(c) && Story(c, mine, theirs) && PluginStep(c, p).Some?
    ensures Story(PluginStep(c, p).value, mine + [p], theirs)
  {
    PluginStoryGrows(c, mine, p);
    DialledGrows(c, mine, p);
    HoldingGrows(c, mine, p);
    HeardGrows(c, mine, p);
    HostStoryStands(c, theirs, p);
  }

  lemma StepAlive(s: System, e: Event, t: System, id: nat)
    requires AllInv(s.conns) && Step(s, e, t) && id in s.conns && Alive(s, s.conns[id])
    ensures id in t.conns && Alive(t, t.conns[id])
  {
    assert ConnInv(s.conns[id]);
    if Concerns(e, id) { OwnStepAlive(s.conns[id], e, t.conns[id]); }
  }

  lemma OwnStepAlive(c: Conn, e: Event, d: Conn)
    requires Books(c) && (e.AtHost? || e.AtPlugin?)
    requires e.AtHost? ==> HostStep(c, e.h) == Some(d)
    requires e.AtPlugin? ==> PluginStep(c, e.p) == Some(d)
    ensures !c.host.HostCrashed? ==> !d.host.HostCrashed?
    ensures !c.plugin.PluginCrashed? ==> !d.plugin.PluginCrashed?
  {
    if e.AtHost? { HostFrame(c, e.h); } else { PluginFrame(c, e.p); PluginLives(c, e.p); }
  }

  lemma PluginLives(c: Conn, p: PluginEvent)
    requires PluginStep(c, p).Some?
    ensures !c.plugin.PluginCrashed? && !PluginStep(c, p).value.plugin.PluginCrashed?
  {
  }

  /** What a step of the system adds to one connection's story. */
  lemma ConnStory(s: System, e: Event, t: System, id: nat, mine: seq<PluginEvent>, theirs: seq<HostEvent>)
    requires AllInv(s.conns) && Step(s, e, t) && id in s.conns && id in t.conns && Story(s.conns[id], mine, theirs)
    ensures Story(t.conns[id], MineWith(mine, e, id), TheirsWith(theirs, e, id))
  {
    assert ConnInv(s.conns[id]);
    if Concerns(e, id) {
      OwnStepStory(s.conns[id], e, id, t.conns[id], mine, theirs);
    } else {
      OthersStepStory(s, e, t, id, mine, theirs);
    }
  }

  lemma OthersStepStory(s: System, e: Event, t: System, id: nat, mine: seq<PluginEvent>, theirs: seq<HostEvent>)
    requires AllInv(s.conns) && Step(s, e, t) && id in s.conns && !Concerns(e, id) && Story(s.conns[id], mine, theirs)
    ensures id in t.conns && Story(t.conns[id], mine, theirs)
  {
    assert ConnInv(s.conns[id]);
    PluginCrashStory(s.conns[id], mine, theirs);
    HostCrashStory(s.conns[id], mine, theirs);
    assert t.conns[id] in {s.conns[id], LosePlugin(s.conns[id]), LoseHost(s.conns[id])};
  }

  lemma OwnStepStory(c: Conn, e: Event, id: nat, d: Conn, mine: seq<PluginEvent>, theirs: seq<HostEvent>)
    requires ConnInv(c) && Story(c, mine, theirs) && Concerns(e, id)
    requires e.AtHost? ==> HostStep(c, e.h) == Some(d)
    requires e.AtPlugin? ==> PluginStep(c, e.p) == Some(d)
    ensures Story(d, MineWith(mine, e, id), TheirsWith(theirs, e, id))
  {
    if e.AtHost? { HostStepStory(c, e.h, mine, theirs); } else { PluginStepStory(c, e.p, mine, theirs); }
  }

  lemma {:induction false} AlwaysStory(states: seq<System>, events: seq<Event>, i: nat, id: nat)
    requires Behaviour(states, events) && i < |states|
    ensures id in states[i].conns ==>
      Story(states[i].conns[id], Mine(events[..i], id), Theirs(events[..i], id))
        && Alive(states[i], states[i].conns[id])
    ensures id !in states[i].conns ==> Mine(events[..i], id) == [] && Theirs(events[..i], id) == []
  {
    if i > 0 {
      AlwaysStory(states, events, i - 1, id);
      AlwaysInv(states, events, i - 1);
      assert Step(states[i - 1], events[i - 1], states[i]);
      assert events[..i][..i - 1] == events[..i - 1] && events[..i][i - 1] == events[i - 1];
      StoryStep(states[i - 1], events[i - 1], states[i], id, Mine(events[..i - 1], id), Theirs(events[..i - 1], id));
    }
  }

  lemma StoryStep(s: System, e: Event, t: System, id: nat, mine: seq<PluginEvent>, theirs: seq<HostEvent>)
    requires AllInv(s.conns) && Step(s, e, t)
    requires id in s.conns ==> Story(s.conns[id], mine, theirs) && Alive(s, s.conns[id])
    requires id !in s.conns ==> mine == [] && theirs == []
    ensures id in t.conns ==>
      Story(t.conns[id], MineWith(mine, e, id), TheirsWith(theirs, e, id)) && Alive(t, t.conns[id])
    ensures id !in t.conns ==> MineWith(mine, e, id) == [] && TheirsWith(theirs, e, id) == []
  {
    if id in s.conns {
      StepAlive(s, e, t, id);
      ConnStory(s, e, t, id, mine, theirs);
    } else {
      OpeningTells(s, e, t, id);
    }
  }

  lemma OpeningTells(s: System, e: Event, t: System, id: nat)
    requires Step(s, e, t) && id !in s.conns
    ensures !(e.AtPlugin? && e.on == id) && !(e.AtHost? && e.at == id)
    ensures id in t.conns ==> Story(t.conns[id], [], []) && Alive(t, t.conns[id])
  {
    FreshStory();
  }

  // ---- What the events say

  /** The script of a plugin's side: `Far` steps that went well, each in its place, and where it stands after as many;
      if it is letting go, that is because it was through, the host could not boot the backend, or the next step gave
      up; and then there is nothing but its deferred calls. */
  lemma PluginFollowsItsScript(states: seq<System>, events: seq<Event>, i: nat, id: nat)
    requires Behaviour(states, events) && i < |states| && id in states[i].conns
    ensures
      var c, mine := states[i].conns[id], Mine(events[..i], id);
      && (forall k :: 0 <= k < Far(mine) ==> GoesWell(mine[k], k))
      && (Place(c.plugin).Some? ==> Far(mine) == |mine| == Place(c.plugin).value)
      && (c.plugin in {Unwinding, Finished} ==> Through(c, mine))
      && LettingGoSince(mine)
  {
    AlwaysStory(states, events, i, id);
    forall k | 0 <= k < Far(Mine(events[..i], id)) ensures GoesWell(Mine(events[..i], id)[k], k) {
      FarGoesWell(Mine(events[..i], id), k);
    }
  }

  /** At every moment the plugin holds exactly what its steps took and have not let go: the client, the backend, and the
      key that its handshake registered, under as many deferred calls. */
  lemma HoldsWhatItTook(states: seq<System>, events: seq<Event>, i: nat, id: nat)
    requires Behaviour(states, events) && i < |states| && id in states[i].conns
    ensures
      var c, mine := states[i].conns[id], Mine(events[..i], id);
      if c.plugin.PluginCrashed? then !c.sideOpen && !c.clientOpen && !c.backendOpen && c.key.None?
      else
        && |c.defers| == Laid(mine) && (c.sideOpen <==> Laid(mine) > 0)
        && (c.clientOpen <==> Laid(mine) > 1 && SpliceDone !in mine)
        && (c.backendOpen <==> Laid(mine) > 2 && SpliceDone !in mine)
        && c.key == if Laid(mine) > 3 then Registered(mine) else None
  {
    AlwaysStory(states, events, i, id);
    AlwaysInv(states, events, i);
    var c := states[i].conns[id];
    assert ConnInv(c);
    NothingOpenUnguarded(c);
  }

  lemma NothingOpenUnguarded(c: Conn)
    requires Guarded(c)
    ensures c.sideOpen <==> |c.defers| > 0
    ensures c.plugin.PluginCrashed? ==> !c.sideOpen && !c.clientOpen && !c.backendOpen && c.key.None?
  {
  }


  /** The one step that says the line. */
  function SaidIn(m: Msg): PluginEvent
  {
    match m
    case BootMsg => AskBoot
    case SpliceMsg => AskSplice
    case ErrorMsg => PreambleDone(PreambleError)
    case HandledMsg => PreambleDone(PreambleHandled)
  }

  lemma SaysOne(p: PluginEvent, m: Msg)
    ensures m in Says(p) <==> p == SaidIn(m)
  {
  }

  lemma {:induction false} SaidExactly(mine: seq<PluginEvent>, m: Msg)
    ensures m in Said(mine) <==> SaidIn(m) in mine
  {
    if mine != [] {
      var init, last := mine[..|mine| - 1], mine[|mine| - 1];
      assert mine == init + [last];
      SaidExactly(init, m);
      SaysOne(last, m);
    }
  }

  /** Which lines a script has said, by how far it went. */
  lemma ScriptSaid(mine: seq<PluginEvent>)
    requires LettingGoSince(mine) && forall k :: 0 <= k < Far(mine) ==> GoesWell(mine[k], k)
    ensures BootMsg in Said(mine) <==> Far(mine) >= 3
    ensures SpliceMsg in Said(mine) <==> Far(mine) >= 8
    ensures ErrorMsg in Said(mine) <==> PreambleDone(PreambleError) in mine
    ensures HandledMsg in Said(mine) <==> PreambleDone(PreambleHandled) in mine
  {
    ScriptHolds(mine);
    SaidExactly(mine, BootMsg);
    SaidExactly(mine, SpliceMsg);
    SaidExactly(mine, ErrorMsg);
    SaidExactly(mine, HandledMsg);
  }

  /** Which steps a script holds, by how far it went. */
  lemma ScriptHolds(mine: seq<PluginEvent>)
    requires LettingGoSince(mine) && forall k :: 0 <= k < Far(mine) ==> GoesWell(mine[k], k)
    ensures PreambleDone(PreambleOk) in mine <==> Far(mine) >= 2
    ensures AskBoot in mine <==> Far(mine) >= 3
    ensures (exists p :: p in mine && p.HandshakeDone? && p.ready) <==> Far(mine) >= 7
    ensures AskSplice in mine <==> Far(mine) >= 8
    ensures Far(mine) >= 7 ==> forall p :: p in mine && p.HandshakeDone? ==> p.ready
  {
    forall k | 0 <= k < |mine|
      ensures mine[k] == PreambleDone(PreambleOk) ==> k == 1 && Far(mine) >= 2
      ensures mine[k] == AskBoot ==> k == 2 && Far(mine) >= 3
      ensures mine[k].HandshakeDone? && mine[k].ready ==> k == 6 && Far(mine) >= 7
      ensures mine[k] == AskSplice ==> k == 7 && Far(mine) >= 8
      ensures Far(mine) >= 7 && mine[k].HandshakeDone? ==> mine[k].ready
    {
      if k < Far(mine) { assert GoesWell(mine[k], k); }
    }
    if Far(mine) >= 7 { assert mine[6] in mine; }
  }

  /** Nobody is spliced, or acquired for, but a client whose preamble passed, whose backend was booted, dialled and
      replayed to, and whose handshake the backend found ready: all earlier steps, in that order; and none whose
      handshake failed. */
  lemma SpliceNeedsHandshake(states: seq<System>, events: seq<Event>, i: nat, id: nat) returns (at: nat)
    requires Behaviour(states, events) && i < |states| && id in states[i].conns
    requires states[i].conns[id].acquires == 1 || SpliceMsg in states[i].conns[id].sent
      || states[i].conns[id].plugin == InSplice
    ensures at < i && events[at].AtPlugin? && events[at].on == id && events[at].p.HandshakeDone? && events[at].p.ready
    ensures
      var mine := Mine(events[..i], id);
      && |mine| >= 8 && (forall k :: 0 <= k < 8 ==> GoesWell(mine[k], k))
      && forall p :: p in mine && p.HandshakeDone? ==> p.ready
  {
    AlwaysStory(states, events, i, id);
    AlwaysInv(states, events, i);
    PluginFollowsItsScript(states, events, i, id);
    SplicedIsFar(states[i].conns[id], Mine(events[..i], id), Theirs(events[..i], id));
    ScriptHolds(Mine(events[..i], id));
    at := MineHappened(events[..i], id, 6);
  }

  lemma SplicedIsFar(c: Conn, mine: seq<PluginEvent>, theirs: seq<HostEvent>)
    requires ConnInv(c) && Story(c, mine, theirs) && (c.acquires == 1 || SpliceMsg in c.sent || c.plugin == InSplice)
    requires forall k :: 0 <= k < Far(mine) ==> GoesWell(mine[k], k)
    ensures Far(mine) >= 8
  {
    assert c.acquires == 1 ==> c.sent[1] == SpliceMsg;
    ScriptSaid(mine);
  }

  /** A client whose handshake failed is never acquired for, before or after. */
  lemma RefusedIsNeverAcquired(states: seq<System>, events: seq<Event>, j: nat, i: nat, id: nat)
    requires Behaviour(states, events) && j < i < |states| && events[j].AtPlugin? && events[j].on == id
    requires events[j].p.HandshakeDone? && !events[j].p.ready && id in states[i].conns
    ensures states[i].conns[id].acquires == 0 && SpliceMsg !in states[i].conns[id].sent
    ensures states[i].conns[id].plugin != InSplice
  {
    var c := states[i].conns[id];
    MineHas(events, i, j, id);
    AlwaysInv(states, events, i);
    if c.acquires != 0 || SpliceMsg in c.sent || c.plugin == InSplice {
      var at := SpliceNeedsHandshake(states, events, i, id);
      assert false;
    }
  }

  lemma {:induction false} MineHas(events: seq<Event>, i: nat, j: nat, id: nat)
    requires j < i <= |events| && events[j].AtPlugin? && events[j].on == id
    ensures events[j].p in Mine(events[..i], id)
    decreases i
  {
    assert events[..i][..i - 1] == events[..i - 1] && events[..i][i - 1] == events[i - 1];
    if j < i - 1 { MineHas(events, i - 1, j, id); }
  }

  /** What a host that lives returns: the plugin's error if that is the line it read last; the error of a Boot that
      failed; that of a read that failed; nil if the plugin handled the client, went away, or was spliced. */
  lemma HostReturnsWhatHappened(states: seq<System>, events: seq<Event>, i: nat, id: nat)
    requires Behaviour(states, events) && i < |states| && id in states[i].conns
      && !states[i].conns[id].host.HostCrashed?
    ensures
      var c, mine, theirs := states[i].conns[id], Mine(events[..i], id), Theirs(events[..i], id);
      && c.sent == Said(mine) && Lines(theirs) == c.read
      && (EndedWith(c) == Some(WireError) <==> LastRead(c, ErrorMsg))
      && (EndedWith(c) == Some(BootError) <==> BootDone(false) in theirs)
      && (EndedWith(c) == Some(ReadError) <==> ReadEnd(true) in theirs)
      && (EndedWith(c) == Some(Nil) <==> LastRead(c, HandledMsg) || ReadEnd(false) in theirs || SpliceOver in theirs)
      && (EndedWith(c) == Some(WireError) ==> PreambleDone(PreambleError) in mine)
      && (LastRead(c, HandledMsg) ==> PreambleDone(PreambleHandled) in mine)
  {
    AlwaysStory(states, events, i, id);
    PluginFollowsItsScript(states, events, i, id);
    ScriptSaid(Mine(events[..i], id));
  }

  /** Where neither process died and nothing of the hand-off is left to do, it has come out as its steps went: the
      backend was asked for exactly when the preamble passed, the splice was accounted for exactly when the handshake
      was ready, and the host returned the error that was. */
  lemma OutcomeExactly(states: seq<System>, events: seq<Event>, i: nat, id: nat)
    requires Behaviour(states, events) && i < |states| && id in states[i].conns
    requires states[i].hostUp && states[i].pluginUp
    requires forall e, t :: Concerns(e, id) ==> !Step(states[i], e, t)
    ensures
      var c, mine, theirs := states[i].conns[id], Mine(events[..i], id), Theirs(events[..i], id);
      && (c.boots == 1 <==> PreambleDone(PreambleOk) in mine)
      && (c.booted == 1 <==> BootDone(true) in theirs) && (c.booted == 1 <==> Dial(true) in mine || Dial(false) in mine)
      && (c.acquires == 1 <==> exists p :: p in mine && p.HandshakeDone? && p.ready)
      && c.releases == c.acquires
      && (c.host == Returned(WireError) <==> PreambleDone(PreambleError) in mine)
      && (c.host == Returned(BootError) <==> BootDone(false) in theirs)
      && (c.host == Returned(ReadError) <==> ReadEnd(true) in theirs)
  {
    StandstillMeansOver(states, events, i, id);
    AlwaysStory(states, events, i, id);
    AlwaysInv(states, events, i);
    PluginFollowsItsScript(states, events, i, id);
    OverIsToldWhole(states[i].conns[id], Mine(events[..i], id), Theirs(events[..i], id));
  }

  /** A connection that is over on both sides, no process having died. */
  lemma OverIsToldWhole(c: Conn, mine: seq<PluginEvent>, theirs: seq<HostEvent>)
    requires ConnInv(c) && Story(c, mine, theirs) && c.host.Returned? && c.plugin == Finished
    requires forall k :: 0 <= k < Far(mine) ==> GoesWell(mine[k], k)
    ensures c.boots == 1 <==> PreambleDone(PreambleOk) in mine
    ensures c.acquires == 1 <==> exists p :: p in mine && p.HandshakeDone? && p.ready
    ensures c.host == Returned(WireError) <==> PreambleDone(PreambleError) in mine
    ensures c.booted == 1 <==> Dial(true) in mine || Dial(false) in mine
  {
    ScriptSaid(mine);
    ScriptHolds(mine);
    OverIsHeard(c, mine, theirs);
    OverIsDialled(c, mine, theirs);
  }

  /** A backend that was booted was dialled, well or not, and no other was. */
  lemma OverIsDialled(c: Conn, mine: seq<PluginEvent>, theirs: seq<HostEvent>)
    requires ConnInv(c) && Story(c, mine, theirs) && c.host.Returned? && c.plugin == Finished
    requires forall k :: 0 <= k < Far(mine) ==> GoesWell(mine[k], k)
    ensures c.booted == 1 <==> Dial(true) in mine || Dial(false) in mine
  {
    if c.booted == 1 {
      ScriptSaid(mine);
      assert c.sent[0] == BootMsg;
      BootedIsDialled(c, mine);
    }
  }

  lemma BootedIsDialled(c: Conn, mine: seq<PluginEvent>)
    requires Through(c, mine) && Far(mine) >= 3 && ReplyEnd !in mine && c.replies != [BootFailReply]
    requires forall k :: 0 <= k < Far(mine) ==> GoesWell(mine[k], k)
    ensures Dial(true) in mine || Dial(false) in mine
  {
    assert forall k :: 0 <= k < |mine| ==> mine[k] in mine;
    assert Far(mine) >= 5 ==> GoesWell(mine[4], 4);
  }

  /** The script does not stop where the plugin has a line to say, and the host has read what was said. */
  lemma OverIsHeard(c: Conn, mine: seq<PluginEvent>, theirs: seq<HostEvent>)
    requires ConnInv(c) && Story(c, mine, theirs) && c.host.Returned? && c.plugin == Finished
    ensures Far(mine) !in {2, 7, 8} && c.sent == Said(mine)
    ensures c.host != Returned(BootError) ==> c.read == |c.sent|
  {
    var n := Far(mine);
    assert Through(c, mine);
    assert n in {2, 7, 8} && n < |mine| ==> !GivesUp(mine[n], n);
  }
}
