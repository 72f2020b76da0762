/** Resolving through the lock, in process and across the plugin boundary
    (engine/resolve.go, plugin/server.go, plugin/adapter.go). */
module Resolve {
  import opened GoStrings
  import opened Lockfile

  datatype Toolchain = Toolchain(eng: string, full: string, binDir: string)

  /** What the host's fetcher would answer during one call: None is an error. Ensure takes the engine, the full
      version, the platform triple and the digest it must match ("" for none), and gives the bin dir and digest. */
  datatype Fetcher = Fetcher(resolveMajor: (string, string) -> Option<string>,
                             ensure: (string, string, string, string) -> Option<(string, string)>)

  /** One ResolveVia call: `exact` is what exactFull makes of the spec. */
  datatype Request = Request(eng: string, spec: string, exact: Option<string>, fetch: Fetcher)

  /** The version to fetch and the digest to insist on. */
  function Target(pin: Option<Pin>, req: Request, triple: string): Option<(string, string)>
  {
    if pin.Some? && pin.value.resolved != "" then Some((pin.value.resolved, Lookup(pin.value.hashes, triple)))
    else if req.exact.Some? then Some((req.exact.value, ""))
    else
      var major := req.fetch.resolveMajor(req.eng, req.spec);
      if major.Some? then Some((major.value, "")) else None
  }

  /** What ResolveVia makes of a request when the lock answers `pin`: a toolchain and the pin it records. */
  function Outcome(pin: Option<Pin>, req: Request, triple: string): Option<(Toolchain, Pin)>
  {
    var target := Target(pin, req, triple);
    if target.None? then None
    else
      var got := req.fetch.ensure(req.eng, target.value.0, triple, target.value.1);
      if got.None? then None
      else Some((Toolchain(req.eng, target.value.0, got.value.0),
                 Pin(target.value.0, "mirror", if got.value.1 != "" then map[triple := got.value.1] else map[])))
  }

  /** The digest the pin insists on: a pin without a version insists on none. */
  function Expected(pin: Option<Pin>, triple: string): string
  {
    if pin.Some? && pin.value.resolved != "" then Lookup(pin.value.hashes, triple) else ""
  }

  /** A version to fetch: the pinned one, or else the spec's own when it is exact, or else what the
      mirror maps it to. */
  predicate Wanted(pin: Option<Pin>, req: Request, full: string)
  {
    if pin.Some? && pin.value.resolved != "" then full == pin.value.resolved
    else if req.exact.Some? then full == req.exact.value
    else req.fetch.resolveMajor(req.eng, req.spec) == Some(full)
  }

  /** The toolchain is the engine's, of the version wanted, and where the fetcher, told the digest expected, put it
      with this digest. */
  predicate Answers(pin: Option<Pin>, req: Request, triple: string, tc: Toolchain, digest: string)
  {
    && tc.eng == req.eng && Wanted(pin, req, tc.full)
    && req.fetch.ensure(req.eng, tc.full, triple, Expected(pin, triple)) == Some((tc.binDir, digest))
  }

  /** A request succeeds exactly when there is such a toolchain, and it is that one; what is recorded is its version,
      and its digest if it has one. */
  lemma OutcomeMeans(pin: Option<Pin>, req: Request, triple: string)
    ensures Outcome(pin, req, triple).Some? <==> exists tc, digest :: Answers(pin, req, triple, tc, digest)
    ensures forall tc, digest :: Answers(pin, req, triple, tc, digest) ==>
      Outcome(pin, req, triple) ==
        Some((tc, Pin(tc.full, "mirror", if digest == "" then map[] else map[triple := digest])))
  {
    var out := Outcome(pin, req, triple);
    if out.Some? {
      var tc := out.value.0;
      var digest := req.fetch.ensure(req.eng, tc.full, triple, Expected(pin, triple)).value.1;
      assert Answers(pin, req, triple, tc, digest);
    }
  }

  /** The lock's entry for the key is null, and Get would dereference it. */
  predicate NullAt(c: Content, key: Key)
  {
    key in c.engines && c.engines[key].None?
  }

  function KeyOf(req: Request): Key { (req.eng, req.spec) }

  /** A driver's Resolve in process: requests in turn straight on the lock, stopping at the first that fails, or that
      makes the lock dereference null. */
  function LocalRun(s: State, triple: string, reqs: seq<Request>): (State, Option<seq<Toolchain>>)
    decreases |reqs|
  {
    if reqs == [] then (s, Some([]))
    else if NullAt(s.content, KeyOf(reqs[0])) then (s, None)
    else
      var out := Outcome(Held(s.content, reqs[0].eng, reqs[0].spec), reqs[0], triple);
      if out.None? then (s, None)
      else
        var (after, rest) := LocalRun(Apply(s, Record(reqs[0].eng, reqs[0].spec, out.value.1)), triple, reqs[1..]);
        (after, if rest.Some? then Some([out.value.0] + rest.value) else None)
  }

  // ---- The plugin's copy of the lock

  const NUL: char := '\0'

  function LockKey(eng: string, spec: string): string { eng + [NUL] + spec }

  datatype Seeded = Seeded(pins: map<string, Pin>, order: seq<string>)

  function Answer(l: Seeded, eng: string, spec: string): Option<Pin>
  {
    var k := LockKey(eng, spec);
    if k in l.pins then Some(l.pins[k]) else None
  }

  function Noted(l: Seeded, eng: string, spec: string, pin: Pin): Seeded
  {
    var k := LockKey(eng, spec);
    Seeded(l.pins[k := pin], if k in l.order then l.order else l.order + [k])
  }

  function EntryFor(l: Seeded, k: string): LockEntry
    requires k in l.pins
  {
    var (eng, spec) := Cut(k, NUL);
    LockEntry(eng, spec, l.pins[k])
  }

  predicate Consistent(l: Seeded)
  {
    forall k :: k in l.order ==> k in l.pins
  }

  function Recordings(l: Seeded): (r: seq<LockEntry>)
    requires Consistent(l)
    ensures |r| == |l.order|
  {
    seq(|l.order|, i requires 0 <= i < |l.order| => assert l.order[i] in l.order; EntryFor(l, l.order[i]))
  }

  function Seed(entries: seq<LockEntry>): map<string, Pin>
  {
    if entries == [] then map[]
    else
      var e := entries[|entries| - 1];
      Seed(entries[..|entries| - 1])[LockKey(e.eng, e.spec) := e.pin]
  }

  class MapLocker {
    var pins: map<string, Pin>
    var order: seq<string>

    ghost function View(): Seeded
      reads this
    {
      Seeded(pins, order)
    }

    constructor (seed: seq<LockEntry>)
      ensures View() == Seeded(Seed(seed), [])
    {
      var pins: map<string, Pin> := map[];
      for i := 0 to |seed|
        invariant pins == Seed(seed[..i])
      {
        assert seed[..i + 1][..i] == seed[..i];
        pins := pins[LockKey(seed[i].eng, seed[i].spec) := seed[i].pin];
      }
      assert seed[..|seed|] == seed;
      this.pins, order := pins, [];
    }

    method Get(eng: string, spec: string) returns (pin: Option<Pin>)
      ensures pin == Answer(View(), eng, spec)
    {
      var k := LockKey(eng, spec);
      if k in pins { return Some(pins[k]); }
      return None;
    }

    method Record(eng: string, spec: string, pin: Pin)
      requires Consistent(View())
      modifies this
      ensures View() == Noted(old(View()), eng, spec, pin) && Consistent(View())
    {
      var k := LockKey(eng, spec);
      if k !in pins {
        order := order + [k];
      } else if k !in order {
        order := order + [k];
      }
      pins := pins[k := pin];
    }

    method Recorded() returns (out: seq<LockEntry>)
      requires Consistent(View())
      ensures out == Recordings(View())
    {
      out := [];
      for i := 0 to |order|
        invariant |out| == i
        invariant forall j :: 0 <= j < i ==> out[j] == EntryFor(View(), order[j])
      {
        var (eng, spec) := Cut(order[i], NUL);
        out := out + [LockEntry(eng, spec, pins[order[i]])];
      }
    }
  }

  /** The same driver inside the plugin, on the seeded copy. */
  function PluginRun(l: Seeded, triple: string, reqs: seq<Request>): (r: (Seeded, Option<seq<Toolchain>>))
    requires Consistent(l)
    ensures Consistent(r.0)
    decreases |reqs|
  {
    if reqs == [] then (l, Some([]))
    else
      var out := Outcome(Answer(l, reqs[0].eng, reqs[0].spec), reqs[0], triple);
      if out.None? then (l, None)
      else
        var (after, rest) := PluginRun(Noted(l, reqs[0].eng, reqs[0].spec, out.value.1), triple, reqs[1..]);
        (after, if rest.Some? then Some([out.value.0] + rest.value) else None)
  }

  function Replay(s: State, entries: seq<LockEntry>): State
  {
    if entries == [] then s
    else
      var e := entries[|entries| - 1];
      Apply(Replay(s, entries[..|entries| - 1]), Record(e.eng, e.spec, e.pin))
  }

  /** The host's Resolve of a module: ship the entries, let the plugin run, replay what it recorded unless it failed. */
  function RemoteRun(
    s: State, entries: seq<LockEntry>, triple: string, reqs: seq<Request>): (State, Option<seq<Toolchain>>)
  {
    var (l, out) := PluginRun(Seeded(Seed(entries), []), triple, reqs);
    (if out.Some? then Replay(s, Recordings(l)) else s, out)
  }

  /** The pin held is of the toolchain's version, and has the digest, if there is one, for the platform. */
  predicate Keeps(held: Option<Pin>, triple: string, tc: Toolchain, digest: string)
  {
    held.Some? && held.value.resolved == tc.full && (digest != "" ==> Lookup(held.value.hashes, triple) == digest)
  }

  // ---- The running methods

  /** ResolveVia on the lock itself. A null pin under the very key would be dereferenced. */
  method ResolveVia(lk: Lock, triple: string, req: Request) returns (r: Option<Toolchain>)
    requires lk.Valid() && !NullAt(lk.content, KeyOf(req))
    modifies lk, lk.books.Keys
    ensures lk.Valid() && fresh(lk.books.Keys - old(lk.books.Keys))
    ensures
      var out := Outcome(Held(old(lk.View()).content, req.eng, req.spec), req, triple);
      if out.None? then r.None? && lk.View() == old(lk.View())
      else r == Some(out.value.0) && lk.View() == Apply(old(lk.View()), Op.Record(req.eng, req.spec, out.value.1))
    ensures
      var pin := Held(old(lk.View()).content, req.eng, req.spec);
      && (r.Some? <==> exists tc, digest :: Answers(pin, req, triple, tc, digest))
      && (r.Some? ==> exists digest ::
           Answers(pin, req, triple, r.value, digest)
             && Keeps(Held(lk.content, req.eng, req.spec), triple, r.value, digest))
  {
    ghost var before := lk.View();
    OutcomeMeans(Held(before.content, req.eng, req.spec), req, triple);
    var target := Aim(lk, triple, req);
    if target.None? { return None; }
    var got := req.fetch.ensure(req.eng, target.value.0, triple, target.value.1);
    if got.None? { return None; }
    RecordMeans(before, req.eng, req.spec, Outcome(Held(before.content, req.eng, req.spec), req, triple).value.1);
    assert Answers(Held(before.content, req.eng, req.spec), req, triple,
      Toolchain(req.eng, target.value.0, got.value.0), got.value.1);
    var hashes := new Cell(if got.value.1 != "" then map[triple := got.value.1] else map[]);
    lk.Record(req.eng, req.spec, PinRef(target.value.0, "mirror", hashes));
    return Some(Toolchain(req.eng, target.value.0, got.value.0));
  }

  /** The first half of ResolveVia: the version to fetch, and the digest to insist on. */
  method Aim(lk: Lock, triple: string, req: Request) returns (target: Option<(string, string)>)
    requires lk.Valid() && !NullAt(lk.content, KeyOf(req))
    ensures target == Target(Held(lk.content, req.eng, req.spec), req, triple)
  {
    var pin := lk.Get(req.eng, req.spec);
    if pin.Some? && pin.value.resolved != "" {
      return Some((pin.value.resolved, Lookup(MapOf(pin.value.hashes), triple)));
    }
    if req.exact.Some? { return Some((req.exact.value, "")); }
    var major := req.fetch.resolveMajor(req.eng, req.spec);
    if major.None? { return None; }
    return Some((major.value, ""));
  }

  /** The driver's requests against the plugin's copy. */
  method RunPlugin(plugin: MapLocker, triple: string, reqs: seq<Request>) returns (out: Option<seq<Toolchain>>)
    requires Consistent(plugin.View())
    modifies plugin
    ensures Consistent(plugin.View())
    ensures (plugin.View(), out) == PluginRun(old(plugin.View()), triple, reqs)
  {
    var tcs: seq<Toolchain> := [];
    ghost var whole := PluginRun(plugin.View(), triple, reqs);
    assert reqs[0..] == reqs;
    PrependNothing(whole);
    for i := 0 to |reqs|
      invariant Consistent(plugin.View())
      invariant whole == Prepend(tcs, PluginRun(plugin.View(), triple, reqs[i..]))
    {
      var req := reqs[i];
      assert reqs[i..][1..] == reqs[i + 1..];
      var pin := plugin.Get(req.eng, req.spec);
      var outcome := Outcome(pin, req, triple);
      if outcome.None? { return None; }
      plugin.Record(req.eng, req.spec, outcome.value.1);
      PrependMore(tcs, outcome.value.0, PluginRun(plugin.View(), triple, reqs[i + 1..]));
      tcs := tcs + [outcome.value.0];
    }
    assert tcs + [] == tcs;
    return Some(tcs);
  }

  /** The host's replay of what came back, in maps made for it. */
  method ReplayOnto(lk: Lock, recorded: seq<LockEntry>)
    requires lk.Valid()
    modifies lk, lk.books.Keys
    ensures lk.Valid() && fresh(lk.books.Keys - old(lk.books.Keys))
    ensures lk.View() == Replay(old(lk.View()), recorded)
  {
    ghost var before := lk.View();
    for i := 0 to |recorded|
      invariant lk.Valid() && fresh(lk.books.Keys - old(lk.books.Keys))
      invariant lk.View() == Replay(before, recorded[..i])
    {
      var e := recorded[i];
      var hashes := new Cell(e.pin.hashes);
      lk.Record(e.eng, e.spec, PinRef(e.pin.resolved, e.pin.source, hashes));
      assert recorded[..i + 1][..i] == recorded[..i];
    }
    assert recorded[..|recorded|] == recorded;
  }

  /** The entries as they cross to the plugin: as values. */
  method Ship(entries: seq<EntryRef>, ghost values: seq<LockEntry>) returns (wire: seq<LockEntry>)
    requires |entries| == |values| && forall i :: 0 <= i < |entries| ==> Reads(entries[i], values[i])
    ensures wire == values
  {
    wire := [];
    for i := 0 to |entries|
      invariant wire == values[..i]
    {
      wire := wire + [LockEntry(entries[i].eng, entries[i].spec, PinOf(entries[i].pin))];
      assert Reads(entries[i], values[i]);
    }
  }

  /** The plugin's side: its copy of the lock, the driver's requests against it, and what it recorded. */
  method AskPlugin(lk: Lock, triple: string, reqs: seq<Request>)
    returns (r: Option<seq<Toolchain>>, recorded: seq<LockEntry>, ghost entries: seq<LockEntry>)
    requires lk.Valid()
    ensures IsEntries(lk.content, entries)
    ensures
      var (l, out) := PluginRun(Seeded(Seed(entries), []), triple, reqs);
      r == out && recorded == Recordings(l)
  {
    var shipped;
    shipped, entries := lk.Entries();
    var wire := Ship(shipped, entries);
    var plugin := new MapLocker(wire);
    r := RunPlugin(plugin, triple, reqs);
    recorded := plugin.Recorded();
  }

  /** A module's Resolve, host and plugin together. `entries` is the order the lock's pins were shipped in. */
  method ResolveRemotely(lk: Lock, triple: string, reqs: seq<Request>)
    returns (r: Option<seq<Toolchain>>, ghost entries: seq<LockEntry>)
    requires lk.Valid()
    modifies lk, lk.books.Keys
    ensures lk.Valid() && fresh(lk.books.Keys - old(lk.books.Keys))
    ensures IsEntries(old(lk.View()).content, entries)
    ensures (lk.View(), r) == RemoteRun(old(lk.View()), entries, triple, reqs)
  {
    var recorded;
    r, recorded, entries := AskPlugin(lk, triple, reqs);
    if r.Some? { ReplayOnto(lk, recorded); }
  }

  function Prepend(tcs: seq<Toolchain>, r: (Seeded, Option<seq<Toolchain>>)): (Seeded, Option<seq<Toolchain>>)
  {
    (r.0, if r.1.Some? then Some(tcs + r.1.value) else None)
  }

  lemma PrependNothing(r: (Seeded, Option<seq<Toolchain>>))
    ensures Prepend([], r) == r
  {
    if r.1.Some? { assert [] + r.1.value == r.1.value; }
  }

  lemma PrependMore(tcs: seq<Toolchain>, tc: Toolchain, r: (Seeded, Option<seq<Toolchain>>))
    ensures Prepend(tcs, (r.0, if r.1.Some? then Some([tc] + r.1.value) else None)) == Prepend(tcs + [tc], r)
  {
    if r.1.Some? { assert tcs + ([tc] + r.1.value) == tcs + [tc] + r.1.value; }
  }

  // ---- What the requests of a run get

  /** What one request, with this outcome, leaves of the lock, and of the plugin's copy. */
  function LocalStep(s: State, req: Request, out: Option<(Toolchain, Pin)>): State
  {
    if out.None? then s else Apply(s, Record(req.eng, req.spec, out.value.1))
  }

  function PluginStep(l: Seeded, req: Request, out: Option<(Toolchain, Pin)>): Seeded
  {
    if out.None? then l else Noted(l, req.eng, req.spec, out.value.1)
  }

  /** The request was answered so when the lock held `before`, and recorded in what it holds `after`. */
  ghost predicate Served(before: Option<Pin>, req: Request, triple: string, tc: Toolchain, after: Option<Pin>)
  {
    exists digest :: Answers(before, req, triple, tc, digest) && Keeps(after, triple, tc, digest)
  }

  /** The lock after the first request of a run. */
  function AfterFirst(s: State, triple: string, reqs: seq<Request>): State
    requires reqs != []
  {
    LocalStep(s, reqs[0], Outcome(Held(s.content, reqs[0].eng, reqs[0].spec), reqs[0], triple))
  }

  lemma FirstServed(s: State, triple: string, req: Request)
    requires Outcome(Held(s.content, req.eng, req.spec), req, triple).Some?
    ensures Served(Held(s.content, req.eng, req.spec), req, triple,
                   Outcome(Held(s.content, req.eng, req.spec), req, triple).value.0,
                   Held(AfterFirst(s, triple, [req]).content, req.eng, req.spec))
  {
    var held := Held(s.content, req.eng, req.spec);
    OutcomeMeans(held, req, triple);
    var tc, digest :| Answers(held, req, triple, tc, digest);
    RecordMeans(s, req.eng, req.spec, Outcome(held, req, triple).value.1);
    assert Keeps(Held(AfterFirst(s, triple, [req]).content, req.eng, req.spec), triple, tc, digest);
  }

  /** What the lock holds after `i` requests of a run. */
  function HeldAfter(s: State, triple: string, reqs: seq<Request>, i: nat, req: Request): Option<Pin>
    requires i <= |reqs|
  {
    Held(LocalRun(s, triple, reqs[..i]).0.content, req.eng, req.spec)
  }

  lemma ShorterRun(s: State, triple: string, reqs: seq<Request>, i: nat, req: Request)
    requires LocalRun(s, triple, reqs).1.Some? && 0 < i <= |reqs|
    ensures HeldAfter(s, triple, reqs, i, req) == HeldAfter(AfterFirst(s, triple, reqs), triple, reqs[1..], i - 1, req)
  {
    assert reqs[..i][1..] == reqs[1..][..i - 1] && reqs[..i][0] == reqs[0];
  }

  lemma RunUnfolds(s: State, triple: string, reqs: seq<Request>)
    requires LocalRun(s, triple, reqs).1.Some? && reqs != []
    ensures
      var out, rest :=
        Outcome(Held(s.content, reqs[0].eng, reqs[0].spec), reqs[0], triple),
        LocalRun(AfterFirst(s, triple, reqs), triple, reqs[1..]).1;
      out.Some? && rest.Some? && LocalRun(s, triple, reqs).1.value == [out.value.0] + rest.value
  {
  }

  /** In process, each request in turn gets the toolchain its own fetcher gives for what the lock then holds, and the
      lock holds that version afterwards. */
  lemma {:induction false} LocalRunServes(s: State, triple: string, reqs: seq<Request>, i: nat)
    requires LocalRun(s, triple, reqs).1.Some? && i <= |reqs|
    ensures |LocalRun(s, triple, reqs).1.value| == |reqs|
    ensures i < |reqs| ==>
      Served(HeldAfter(s, triple, reqs, i, reqs[i]), reqs[i], triple, LocalRun(s, triple, reqs).1.value[i],
             HeldAfter(s, triple, reqs, i + 1, reqs[i]))
    decreases |reqs|
  {
    if reqs != [] {
      var after := AfterFirst(s, triple, reqs);
      RunUnfolds(s, triple, reqs);
      if i == 0 {
        LocalRunServes(after, triple, reqs[1..], |reqs| - 1);
        FirstServed(s, triple, reqs[0]);
        ShorterRun(s, triple, reqs, 1, reqs[0]);
        assert reqs[..0] == [] && reqs[1..][..0] == [];
      } else {
        LocalRunServes(after, triple, reqs[1..], i - 1);
        if i < |reqs| {
          ShorterRun(s, triple, reqs, i, reqs[i]);
          ShorterRun(s, triple, reqs, i + 1, reqs[i]);
        }
      }
    }
  }

  /** And so does each in the plugin, from its copy of the lock. */
  lemma {:induction false} PluginRunServes(l: Seeded, triple: string, reqs: seq<Request>, i: nat)
    requires Consistent(l) && PluginRun(l, triple, reqs).1.Some? && i <= |reqs|
    ensures |PluginRun(l, triple, reqs).1.value| == |reqs|
    ensures i < |reqs| ==>
      Served(PinAfter(l, triple, reqs, i, reqs[i]), reqs[i], triple, PluginRun(l, triple, reqs).1.value[i],
             PinAfter(l, triple, reqs, i + 1, reqs[i]))
    decreases |reqs|
  {
    if reqs != [] {
      var out := Outcome(Answer(l, reqs[0].eng, reqs[0].spec), reqs[0], triple);
      var after := Noted(l, reqs[0].eng, reqs[0].spec, out.value.1);
      if i == 0 {
        PluginRunServes(after, triple, reqs[1..], |reqs| - 1);
        FirstNoted(l, triple, reqs[0]);
        ShorterPluginRun(l, triple, reqs, 1, reqs[0]);
        assert reqs[..0] == [] && reqs[1..][..0] == [];
      } else {
        PluginRunServes(after, triple, reqs[1..], i - 1);
        if i < |reqs| {
          ShorterPluginRun(l, triple, reqs, i, reqs[i]);
          ShorterPluginRun(l, triple, reqs, i + 1, reqs[i]);
        }
      }
    }
  }

  function PinAfter(l: Seeded, triple: string, reqs: seq<Request>, i: nat, req: Request): Option<Pin>
    requires Consistent(l) && i <= |reqs|
  {
    Answer(PluginRun(l, triple, reqs[..i]).0, req.eng, req.spec)
  }

  lemma FirstNoted(l: Seeded, triple: string, req: Request)
    requires Outcome(Answer(l, req.eng, req.spec), req, triple).Some?
    ensures
      var out := Outcome(Answer(l, req.eng, req.spec), req, triple).value;
      Served(Answer(l, req.eng, req.spec), req, triple, out.0,
        Answer(Noted(l, req.eng, req.spec, out.1), req.eng, req.spec))
  {
    var pin := Answer(l, req.eng, req.spec);
    OutcomeMeans(pin, req, triple);
    var tc, digest :| Answers(pin, req, triple, tc, digest);
    var out := Outcome(pin, req, triple).value;
    assert Keeps(Answer(Noted(l, req.eng, req.spec, out.1), req.eng, req.spec), triple, tc, digest);
  }

  lemma ShorterPluginRun(l: Seeded, triple: string, reqs: seq<Request>, i: nat, req: Request)
    requires Consistent(l) && PluginRun(l, triple, reqs).1.Some? && 0 < i <= |reqs|
    ensures
      var out := Outcome(Answer(l, reqs[0].eng, reqs[0].spec), reqs[0], triple);
      && out.Some?
      && PinAfter(l, triple, reqs, i, req) ==
           PinAfter(Noted(l, reqs[0].eng, reqs[0].spec, out.value.1), triple, reqs[1..], i - 1, req)
  {
    assert reqs[..i][1..] == reqs[1..][..i - 1] && reqs[..i][0] == reqs[0];
  }

  // ---- When a run goes through

  /** The lock has no null under the key, and some toolchain answers the request. */
  ghost predicate CanServe(s: State, triple: string, req: Request)
  {
    && !NullAt(s.content, KeyOf(req))
    && exists tc, digest :: Answers(Held(s.content, req.eng, req.spec), req, triple, tc, digest)
  }

  lemma LocalRunStep(s: State, triple: string, reqs: seq<Request>)
    requires reqs != []
    ensures
      var after, rest := AfterFirst(s, triple, reqs), reqs[1..];
      if CanServe(s, triple, reqs[0]) then
        && (LocalRun(s, triple, reqs).1.Some? <==> LocalRun(after, triple, rest).1.Some?)
        && LocalRun(s, triple, reqs).0 == LocalRun(after, triple, rest).0
      else LocalRun(s, triple, reqs) == (s, None)
  {
    OutcomeMeans(Held(s.content, reqs[0].eng, reqs[0].spec), reqs[0], triple);
  }

  /** In process a run goes through exactly when each request in turn can be served from the lock as those before it
      left it, and otherwise it stops, with the lock so, at the first that cannot. */
  lemma {:induction false} LocalRunExactly(s: State, triple: string, reqs: seq<Request>, n: nat)
    requires n <= |reqs| && forall i :: 0 <= i < n ==> CanServe(LocalRun(s, triple, reqs[..i]).0, triple, reqs[i])
    requires n < |reqs| ==> !CanServe(LocalRun(s, triple, reqs[..n]).0, triple, reqs[n])
    ensures LocalRun(s, triple, reqs).1.Some? <==> n == |reqs|
    ensures LocalRun(s, triple, reqs).0 == LocalRun(s, triple, reqs[..n]).0
    decreases |reqs|
  {
    assert reqs[..|reqs|] == reqs;
    if reqs != [] {
      assert reqs[..0] == [];
      LocalRunStep(s, triple, reqs);
      if n > 0 {
        var after := AfterFirst(s, triple, reqs);
        assert CanServe(LocalRun(s, triple, reqs[..0]).0, triple, reqs[0]);
        forall i | 0 < i <= n
          ensures LocalRun(s, triple, reqs[..i]).0 == LocalRun(after, triple, reqs[1..][..i - 1]).0
        {
          PrefixStep(s, triple, reqs, i);
        }
        forall i | 0 <= i < n - 1 ensures CanServe(LocalRun(after, triple, reqs[1..][..i]).0, triple, reqs[1..][i]) {
          assert CanServe(LocalRun(s, triple, reqs[..i + 1]).0, triple, reqs[i + 1]);
        }
        LocalRunExactly(after, triple, reqs[1..], n - 1);
      }
    }
  }

  lemma PrefixStep(s: State, triple: string, reqs: seq<Request>, i: nat)
    requires 0 < i <= |reqs| && CanServe(s, triple, reqs[0])
    ensures LocalRun(s, triple, reqs[..i]).0 == LocalRun(AfterFirst(s, triple, reqs), triple, reqs[1..][..i - 1]).0
  {
    assert reqs[..i][1..] == reqs[1..][..i - 1] && reqs[..i][0] == reqs[0];
    LocalRunStep(s, triple, reqs[..i]);
  }

  /** In the plugin likewise, from its copy, which has no nulls. */
  ghost predicate CanServeFrom(l: Seeded, triple: string, req: Request)
  {
    exists tc, digest :: Answers(Answer(l, req.eng, req.spec), req, triple, tc, digest)
  }

  function NotedFirst(l: Seeded, triple: string, reqs: seq<Request>): Seeded
    requires reqs != []
  {
    PluginStep(l, reqs[0], Outcome(Answer(l, reqs[0].eng, reqs[0].spec), reqs[0], triple))
  }

  lemma PluginRunStep(l: Seeded, triple: string, reqs: seq<Request>)
    requires Consistent(l) && reqs != []
    ensures
      var after, rest := NotedFirst(l, triple, reqs), reqs[1..];
      if CanServeFrom(l, triple, reqs[0]) then
        && Consistent(after) && (PluginRun(l, triple, reqs).1.Some? <==> PluginRun(after, triple, rest).1.Some?)
        && PluginRun(l, triple, reqs).0 == PluginRun(after, triple, rest).0
      else PluginRun(l, triple, reqs) == (l, None)
  {
    OutcomeMeans(Answer(l, reqs[0].eng, reqs[0].spec), reqs[0], triple);
  }

  lemma {:induction false} PluginRunExactly(l: Seeded, triple: string, reqs: seq<Request>, n: nat)
    requires Consistent(l) && n <= |reqs|
    requires forall i :: 0 <= i < n ==> CanServeFrom(PluginRun(l, triple, reqs[..i]).0, triple, reqs[i])
    requires n < |reqs| ==> !CanServeFrom(PluginRun(l, triple, reqs[..n]).0, triple, reqs[n])
    ensures PluginRun(l, triple, reqs).1.Some? <==> n == |reqs|
    decreases |reqs|
  {
    assert reqs[..|reqs|] == reqs;
    if reqs != [] {
      assert reqs[..0] == [];
      PluginRunStep(l, triple, reqs);
      if n > 0 {
        var after := NotedFirst(l, triple, reqs);
        assert CanServeFrom(PluginRun(l, triple, reqs[..0]).0, triple, reqs[0]);
        forall i | 0 < i <= n
          ensures PluginRun(l, triple, reqs[..i]).0 == PluginRun(after, triple, reqs[1..][..i - 1]).0
        {
          assert reqs[..i][1..] == reqs[1..][..i - 1] && reqs[..i][0] == reqs[0];
          PluginRunStep(l, triple, reqs[..i]);
        }
        forall i | 0 <= i < n - 1
          ensures CanServeFrom(PluginRun(after, triple, reqs[1..][..i]).0, triple, reqs[1..][i])
        {
          assert CanServeFrom(PluginRun(l, triple, reqs[..i + 1]).0, triple, reqs[i + 1]);
        }
        PluginRunExactly(after, triple, reqs[1..], n - 1);
      }
    }
  }

  // ---- Out of process is as in process

  predicate NulFree(s: string) { NUL !in s }

  /** A recorded key comes back as the engine and spec it was made of exactly when the engine's name has no NUL. */
  lemma KeyRoundTrip(eng: string, spec: string)
    ensures Cut(LockKey(eng, spec), NUL) == (eng, spec) <==> NulFree(eng)
  {
    CutJoin(eng, NUL, spec);
  }

  ghost predicate Shippable(c: Content)
  {
    forall eng, spec :: Held(c, eng, spec).Some? ==> NulFree(eng)
  }

  /** The entries are the lock's, and their keys can be cut back. */
  ghost predicate Ships(s: State, entries: seq<LockEntry>)
  {
    IsEntries(s.content, entries) && Shippable(s.content)
  }

  /** The copy answers every Get as the lock does. */
  lemma {:induction false} SeedAnswers(c: Content, entries: seq<LockEntry>, eng: string, spec: string)
    requires IsEntries(c, entries) && Shippable(c) && NulFree(eng)
    ensures Answer(Seeded(Seed(entries), []), eng, spec) == Held(c, eng, spec)
  {
    forall e | e in entries ensures LockKey(e.eng, e.spec) == LockKey(eng, spec) ==> (e.eng, e.spec) == (eng, spec) {
      assert Held(c, e.eng, e.spec).Some?;
      KeyRoundTrip(e.eng, e.spec);
      KeyRoundTrip(eng, spec);
    }
    SeedLookup(entries, LockKey(eng, spec));
    if Held(c, eng, spec).Some? { assert LockEntry(eng, spec, Held(c, eng, spec).value) in entries; }
  }

  lemma {:induction false} SeedLookup(entries: seq<LockEntry>, k: string)
    ensures k in Seed(entries) <==> exists e :: e in entries && LockKey(e.eng, e.spec) == k
    ensures k in Seed(entries) ==> exists e :: e in entries && LockKey(e.eng, e.spec) == k && e.pin == Seed(entries)[k]
  {
    if entries != [] {
      var init, last := entries[..|entries| - 1], entries[|entries| - 1];
      SeedLookup(init, k);
      assert entries == init + [last];
      assert last in entries && forall e :: e in init ==> e in entries;
      if k in Seed(entries) && LockKey(last.eng, last.spec) != k {
        var e :| e in init && LockKey(e.eng, e.spec) == k && e.pin == Seed(init)[k];
        assert e in entries;
      }
    }
  }

  ghost predicate Distinct(keys: seq<Key>)
  {
    forall i, j :: 0 <= i < j < |keys| ==> keys[i] != keys[j]
  }

  function KeysOf(reqs: seq<Request>): (keys: seq<Key>)
    ensures |keys| == |reqs| && forall i :: 0 <= i < |reqs| ==> keys[i] == (reqs[i].eng, reqs[i].spec)
  {
    seq(|reqs|, i requires 0 <= i < |reqs| => (reqs[i].eng, reqs[i].spec))
  }

  predicate AllNulFree(keys: seq<Key>)
  {
    forall i :: 0 <= i < |keys| ==> NulFree(keys[i].0)
  }

  /** No key leads to a null entry. */
  predicate NoNulls(c: Content, keys: seq<Key>)
  {
    forall i :: 0 <= i < |keys| ==> !NullAt(c, keys[i])
  }

  /** The plugin's copy `l` stands for the host's lock `s`: replaying the recordings so far on `s0` gives `s`, and keys
      not asked for yet read as the lock has them. */
  ghost predicate Mirrors(s0: State, s: State, l: Seeded, asked: set<Key>)
  {
    && Consistent(l)
    && Replay(s0, Recordings(l)) == s
    && forall k: Key :: NulFree(k.0) && k !in asked ==>
         && Answer(l, k.0, k.1) == Held(s.content, k.0, k.1)
         && LockKey(k.0, k.1) !in l.order
         && (NullAt(s.content, k) <==> NullAt(s0.content, k))
  }

  lemma SeedMirrors(s: State, entries: seq<LockEntry>)
    requires Ships(s, entries)
    ensures Mirrors(s, s, Seeded(Seed(entries), []), {})
  {
    var l := Seeded(Seed(entries), []);
    forall k: Key | NulFree(k.0) ensures Answer(l, k.0, k.1) == Held(s.content, k.0, k.1) {
      SeedAnswers(s.content, entries, k.0, k.1);
    }
    assert Recordings(l) == [];
  }

  lemma NotedAppends(l: Seeded, eng: string, spec: string, pin: Pin)
    requires Consistent(l) && NulFree(eng) && LockKey(eng, spec) !in l.order
    ensures Consistent(Noted(l, eng, spec, pin))
    ensures Recordings(Noted(l, eng, spec, pin)) == Recordings(l) + [LockEntry(eng, spec, pin)]
  {
    KeyRoundTrip(eng, spec);
    var after := Noted(l, eng, spec, pin);
    forall i | 0 <= i < |l.order| ensures EntryFor(after, l.order[i]) == EntryFor(l, l.order[i]) {
      assert l.order[i] in l.order;
    }
  }

  lemma MirrorsStep(s0: State, s: State, l: Seeded, asked: set<Key>, key: Key, pin: Pin)
    requires Mirrors(s0, s, l, asked) && NulFree(key.0) && key !in asked
    ensures Mirrors(s0, Apply(s, Record(key.0, key.1, pin)), Noted(l, key.0, key.1, pin), asked + {key})
  {
    NotedAppends(l, key.0, key.1, pin);
    var recorded := Recordings(Noted(l, key.0, key.1, pin));
    assert recorded[..|recorded| - 1] == Recordings(l);
    KeyRoundTrip(key.0, key.1);
    RecordFrame(s, key.0, key.1, pin);
    forall k: Key | NulFree(k.0) && k !in asked + {key} ensures LockKey(k.0, k.1) != LockKey(key.0, key.1) {
      KeyRoundTrip(k.0, k.1);
    }
  }

  lemma {:induction false} PluginRunMirrors(
    s0: State, s: State, l: Seeded, asked: set<Key>, triple: string, reqs: seq<Request>)
    requires Mirrors(s0, s, l, asked)
    requires Distinct(KeysOf(reqs)) && AllNulFree(KeysOf(reqs)) && NoNulls(s0.content, KeysOf(reqs))
    requires forall k :: k in KeysOf(reqs) ==> k !in asked
    ensures PluginRun(l, triple, reqs).1 == LocalRun(s, triple, reqs).1
    ensures Replay(s0, Recordings(PluginRun(l, triple, reqs).0)) == LocalRun(s, triple, reqs).0
    decreases |reqs|
  {
    if reqs != [] {
      var key := KeyOf(reqs[0]);
      assert KeysOf(reqs)[0] == key && KeysOf(reqs)[1..] == KeysOf(reqs[1..]);
      var out := Outcome(Held(s.content, key.0, key.1), reqs[0], triple);
      if out.Some? {
        MirrorsStep(s0, s, l, asked, key, out.value.1);
        var pin := out.value.1;
        PluginRunMirrors(
          s0, Apply(s, Record(key.0, key.1, pin)), Noted(l, key.0, key.1, pin), asked + {key}, triple, reqs[1..]);
      }
    }
  }

  /** The same toolchains in process and across the boundary, and on success the same lock to the dirty flag; on failure
      the host's lock is untouched. */
  ghost predicate Refines(s: State, entries: seq<LockEntry>, triple: string, reqs: seq<Request>)
  {
    var (remote, out) := RemoteRun(s, entries, triple, reqs);
    var (local, direct) := LocalRun(s, triple, reqs);
    && out == direct
    && remote == if out.Some? then local else s
  }

  /** Resolving across the plugin boundary refines resolving in process, for requests on distinct keys that lead
      to no null entry. */
  lemma RemoteRefinesLocal(s: State, entries: seq<LockEntry>, triple: string, reqs: seq<Request>)
    requires Ships(s, entries)
    requires Distinct(KeysOf(reqs)) && AllNulFree(KeysOf(reqs)) && NoNulls(s.content, KeysOf(reqs))
    ensures Refines(s, entries, triple, reqs)
  {
    SeedMirrors(s, entries);
    PluginRunMirrors(s, s, Seeded(Seed(entries), []), {}, triple, reqs);
  }

  /** The order the entries are shipped in makes no difference. */
  lemma ShippingOrderIrrelevant(
    s: State, entries: seq<LockEntry>, others: seq<LockEntry>, triple: string, reqs: seq<Request>)
    requires Ships(s, entries) && Ships(s, others)
    requires Distinct(KeysOf(reqs)) && AllNulFree(KeysOf(reqs))
    ensures RemoteRun(s, entries, triple, reqs) == RemoteRun(s, others, triple, reqs)
  {
    var l, m := Seeded(Seed(entries), []), Seeded(Seed(others), []);
    SeedMirrors(s, entries);
    SeedMirrors(s, others);
    SameAnswersSameRun(l, m, triple, reqs);
  }

  /** Two copies that have recorded the same and answer alike what is still to be asked record the same. */
  lemma {:induction false} SameAnswersSameRun(l: Seeded, m: Seeded, triple: string, reqs: seq<Request>)
    requires Consistent(l) && Consistent(m) && l.order == m.order && Recordings(l) == Recordings(m)
    requires AllNulFree(KeysOf(reqs)) && Distinct(KeysOf(reqs))
    requires forall k :: k in KeysOf(reqs) ==>
      Answer(l, k.0, k.1) == Answer(m, k.0, k.1) && LockKey(k.0, k.1) !in l.order
    ensures PluginRun(l, triple, reqs).1 == PluginRun(m, triple, reqs).1
    ensures Recordings(PluginRun(l, triple, reqs).0) == Recordings(PluginRun(m, triple, reqs).0)
    decreases |reqs|
  {
    if reqs != [] {
      var key := KeyOf(reqs[0]);
      assert KeysOf(reqs)[0] == key && KeysOf(reqs)[1..] == KeysOf(reqs[1..]);
      var out := Outcome(Answer(l, key.0, key.1), reqs[0], triple);
      if out.Some? {
        NotedAppends(l, key.0, key.1, out.value.1);
        NotedAppends(m, key.0, key.1, out.value.1);
        var rest := KeysOf(reqs[1..]);
        forall k | k in rest ensures LockKey(k.0, k.1) != LockKey(key.0, key.1) {
          KeyRoundTrip(k.0, k.1);
          KeyRoundTrip(key.0, key.1);
        }
        SameAnswersSameRun(Noted(l, key.0, key.1, out.value.1), Noted(m, key.0, key.1, out.value.1), triple, reqs[1..]);
      }
    }
  }

  // ---- Drivers that look at the answers

  /** What a driver asks for next, given the answers so far, failures included; None when it is through. */
  type Driver = seq<Option<Toolchain>> -> Option<Request>

  function AnswerOf(out: Option<(Toolchain, Pin)>): Option<Toolchain>
  {
    if out.Some? then Some(out.value.0) else None
  }

  /** At most `n` requests of the driver, straight on the lock. No answers at all when the lock dereferences null. */
  function DriveLocally(
    s: State, triple: string, driver: Driver, answers: seq<Option<Toolchain>>, n: nat)
    : (State, Option<seq<Option<Toolchain>>>)
    decreases n
  {
    var next := driver(answers);
    if n == 0 || next.None? then (s, Some(answers))
    else if NullAt(s.content, KeyOf(next.value)) then (s, None)
    else
      var out := Outcome(Held(s.content, next.value.eng, next.value.spec), next.value, triple);
      DriveLocally(LocalStep(s, next.value, out), triple, driver, answers + [AnswerOf(out)], n - 1)
  }

  /** The same inside the plugin. */
  function DriveInPlugin(l: Seeded, triple: string, driver: Driver, answers: seq<Option<Toolchain>>, n: nat)
    : (r: (Seeded, seq<Option<Toolchain>>))
    requires Consistent(l)
    ensures Consistent(r.0)
    decreases n
  {
    var next := driver(answers);
    if n == 0 || next.None? then (l, answers)
    else
      var out := Outcome(Answer(l, next.value.eng, next.value.spec), next.value, triple);
      DriveInPlugin(PluginStep(l, next.value, out), triple, driver, answers + [AnswerOf(out)], n - 1)
  }

  /** The request got this answer when the lock stood so before it, and left the lock so after it. */
  ghost predicate Replied(before: State, req: Request, triple: string, answer: Option<Toolchain>, after: State)
  {
    match answer
    case Some(tc) =>
      Served(Held(before.content, req.eng, req.spec), req, triple, tc, Held(after.content, req.eng, req.spec))
    case None => after == before && !CanServe(before, triple, req)
  }

  /** One request more is one step from where a run got to. */
  lemma {:induction false} DriveFurther(
    s: State, triple: string, driver: Driver, answers: seq<Option<Toolchain>>, n: nat)
    ensures
      var (t, got) := DriveLocally(s, triple, driver, answers, n);
      DriveLocally(s, triple, driver, answers, n + 1) ==
        if got.Some? then DriveLocally(t, triple, driver, got.value, 1) else (t, None)
    decreases n
  {
    var next := driver(answers);
    if n > 0 && next.Some? && !NullAt(s.content, KeyOf(next.value)) {
      var out := Outcome(Held(s.content, next.value.eng, next.value.spec), next.value, triple);
      DriveFurther(LocalStep(s, next.value, out), triple, driver, answers + [AnswerOf(out)], n - 1);
    }
  }

  /** A run gives one answer for each request it was let make, unless the driver was through before. */
  lemma {:induction false} DriveLength(
    s: State, triple: string, driver: Driver, answers: seq<Option<Toolchain>>, n: nat)
    requires DriveLocally(s, triple, driver, answers, n).1.Some?
    ensures
      var got := DriveLocally(s, triple, driver, answers, n).1.value;
      |got| == |answers| + n || (|got| < |answers| + n && driver(got).None?)
    decreases n
  {
    var next := driver(answers);
    if n > 0 && next.Some? && !NullAt(s.content, KeyOf(next.value)) {
      var out := Outcome(Held(s.content, next.value.eng, next.value.spec), next.value, triple);
      DriveLength(LocalStep(s, next.value, out), triple, driver, answers + [AnswerOf(out)], n - 1);
    }
  }

  /** In process a driver's `k`-th request, which it chose by the answers before, is answered from the lock
      as it then stands. */
  lemma {:induction false} DriveServes(
    s: State, triple: string, driver: Driver, n: nat, got: seq<Option<Toolchain>>, k: nat)
    requires DriveLocally(s, triple, driver, [], n).1 == Some(got) && k < |got|
    ensures k < n && RequestServed(s, triple, driver, got, k)
    decreases n
  {
    DriveLength(s, triple, driver, [], n);
    DriveFurther(s, triple, driver, [], n - 1);
    DriveLength(s, triple, driver, [], n - 1);
    var (t, before) := DriveLocally(s, triple, driver, [], n - 1);
    if driver(before.value).Some? { DriveOnce(t, triple, driver, before.value); }
    if k < |before.value| {
      DriveServes(s, triple, driver, n - 1, before.value, k);
      assert before.value[..k] == got[..k] && before.value[k] == got[k];
    } else {
      assert before.value == got[..k];
    }
  }

  /** The `k`-th answer is that to what the driver asked for, given those before it. */
  ghost predicate RequestServed(s: State, triple: string, driver: Driver, got: seq<Option<Toolchain>>, k: nat)
    requires k < |got|
  {
    var (before, answers) := DriveLocally(s, triple, driver, [], k);
    && answers == Some(got[..k]) && driver(got[..k]).Some?
    && Replied(before, driver(got[..k]).value, triple, got[k], DriveLocally(s, triple, driver, [], k + 1).0)
  }

  lemma DriveOnce(t: State, triple: string, driver: Driver, answers: seq<Option<Toolchain>>)
    requires driver(answers).Some? && DriveLocally(t, triple, driver, answers, 1).1.Some?
    ensures
      var (u, got) := DriveLocally(t, triple, driver, answers, 1);
      |got.value| == |answers| + 1 && got.value[..|answers|] == answers
      && Replied(t, driver(answers).value, triple, got.value[|answers|], u)
  {
    var req := driver(answers).value;
    OutcomeMeans(Held(t.content, req.eng, req.spec), req, triple);
    if Outcome(Held(t.content, req.eng, req.spec), req, triple).Some? { FirstServed(t, triple, req); }
  }

  /** The keys asked for on the way to these answers. */
  function Asked(driver: Driver, answers: seq<Option<Toolchain>>): set<Key>
  {
    if answers == [] then {}
    else
      var before := answers[..|answers| - 1];
      Asked(driver, before) + if driver(before).Some? then {KeyOf(driver(before).value)} else {}
  }

  /** What it asks for after these answers, it has not asked for before. */
  predicate AsksAnew(driver: Driver, answers: seq<Option<Toolchain>>)
  {
    driver(answers).Some? ==> KeyOf(driver(answers).value) !in Asked(driver, answers)
  }

  ghost predicate NeverRepeats(driver: Driver)
  {
    forall answers :: AsksAnew(driver, answers)
  }

  /** It asks for no key with a NUL, or that leads to a null entry. */
  predicate AsksWellAfter(c: Content, driver: Driver, answers: seq<Option<Toolchain>>)
  {
    driver(answers).Some? ==> NulFree(driver(answers).value.eng) && !NullAt(c, KeyOf(driver(answers).value))
  }

  ghost predicate AsksWell(c: Content, driver: Driver)
  {
    forall answers :: AsksWellAfter(c, driver, answers)
  }

  /** One request of the driver, on both sides. */
  lemma DriveStep(s0: State, s: State, l: Seeded, triple: string, driver: Driver, answers: seq<Option<Toolchain>>)
    requires Mirrors(s0, s, l, Asked(driver, answers)) && NeverRepeats(driver) && AsksWell(s0.content, driver)
    requires driver(answers).Some?
    ensures
      var req := driver(answers).value;
      var out := Outcome(Held(s.content, req.eng, req.spec), req, triple);
      && !NullAt(s.content, KeyOf(req))
      && Answer(l, req.eng, req.spec) == Held(s.content, req.eng, req.spec)
      && Mirrors(s0, LocalStep(s, req, out), PluginStep(l, req, out), Asked(driver, answers + [AnswerOf(out)]))
  {
    var req := driver(answers).value;
    assert AsksWellAfter(s0.content, driver, answers);
    assert AsksAnew(driver, answers);
    var out := Outcome(Held(s.content, req.eng, req.spec), req, triple);
    assert (answers + [AnswerOf(out)])[..|answers|] == answers;
    if out.Some? { MirrorsStep(s0, s, l, Asked(driver, answers), KeyOf(req), out.value.1); }
  }

  /** So a run goes on from there with one request fewer. */
  lemma DriveOn(
    s0: State, s: State, l: Seeded, triple: string, driver: Driver, answers: seq<Option<Toolchain>>, n: nat)
    returns (next: State, copy: Seeded, more: seq<Option<Toolchain>>)
    requires Mirrors(s0, s, l, Asked(driver, answers)) && NeverRepeats(driver) && AsksWell(s0.content, driver)
    requires n > 0 && driver(answers).Some?
    ensures Mirrors(s0, next, copy, Asked(driver, more))
    ensures DriveLocally(s, triple, driver, answers, n) == DriveLocally(next, triple, driver, more, n - 1)
    ensures DriveInPlugin(l, triple, driver, answers, n) == DriveInPlugin(copy, triple, driver, more, n - 1)
  {
    var req := driver(answers).value;
    DriveStep(s0, s, l, triple, driver, answers);
    var out := Outcome(Held(s.content, req.eng, req.spec), req, triple);
    next, copy, more := LocalStep(s, req, out), PluginStep(l, req, out), answers + [AnswerOf(out)];
  }

  /** At the end of a run as at its start, the copy stands for the lock. */
  lemma {:induction false} DriveMirrors(
    s0: State, s: State, l: Seeded, triple: string, driver: Driver, answers: seq<Option<Toolchain>>, n: nat)
    returns (end: State, after: Seeded, got: seq<Option<Toolchain>>)
    requires Mirrors(s0, s, l, Asked(driver, answers)) && NeverRepeats(driver) && AsksWell(s0.content, driver)
    ensures DriveInPlugin(l, triple, driver, answers, n) == (after, got)
    ensures DriveLocally(s, triple, driver, answers, n) == (end, Some(got))
    ensures Mirrors(s0, end, after, Asked(driver, got))
    decreases n
  {
    if n == 0 || driver(answers).None? {
      end, after, got := s, l, answers;
    } else {
      var next, copy, more := DriveOn(s0, s, l, triple, driver, answers, n);
      end, after, got := DriveMirrors(s0, next, copy, triple, driver, more, n - 1);
    }
  }

  /** A driver that chooses its requests by the answers, going on after failures as it likes, gets the same answers
      across the boundary as in process, and what it recorded replays to the lock an in-process run leaves. */
  lemma DriverRefines(s: State, entries: seq<LockEntry>, triple: string, driver: Driver, n: nat)
    requires Ships(s, entries) && NeverRepeats(driver) && AsksWell(s.content, driver)
    ensures
      var (l, got) := DriveInPlugin(Seeded(Seed(entries), []), triple, driver, [], n);
      DriveLocally(s, triple, driver, [], n) == (Replay(s, Recordings(l)), Some(got))
  {
    SeedMirrors(s, entries);
    assert Asked(driver, []) == {};
    var end, after, got := DriveMirrors(s, s, Seeded(Seed(entries), []), triple, driver, [], n);
  }
}
