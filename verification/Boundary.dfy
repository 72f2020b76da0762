/** What the plugin boundary makes of a key resolved twice: the plugin's copy of the lock replaces a pin where the lock
    merges into it (plugin/server.go, plugin/adapter.go, binaries/lock.go). */
module Boundary {
  import opened GoStrings
  import opened Lockfile
  import opened Resolve
  import opened Binaries

  // ---- The runs that tell

  /** Requests that ask for version 1 where nothing is pinned; the `j`-th meets this digest, the others cache entries
      from before digests were recorded. */
  ghost predicate Staged(reqs: seq<Request>, j: int, digest: string)
  {
    forall k :: 0 <= k < |reqs| ==>
      reqs[k].exact == Some("1") && AnswersWith(reqs[k].fetch, if k == j then digest else "")
  }

  lemma StagedRest(reqs: seq<Request>, j: int, digest: string)
    requires reqs != [] && Staged(reqs, j, digest)
    ensures Staged(reqs[1..], j - 1, digest)
  {
    var rest := reqs[1..];
    forall k | 0 <= k < |rest|
      ensures rest[k].exact == Some("1") && AnswersWith(rest[k].fetch, if k == j - 1 then digest else "")
    {
      assert rest[k] == reqs[k + 1];
    }
  }

  /** Resolving under this pin insists on a digest: this one, or none. */
  function Insists(pin: Option<Pin>, triple: string): string
  {
    if pin.Some? && pin.value.resolved != "" then Lookup(pin.value.hashes, triple) else ""
  }

  function VersionOf(pin: Option<Pin>): string
  {
    if pin.Some? && pin.value.resolved != "" then pin.value.resolved else "1"
  }

  lemma StagedOutcome(pin: Option<Pin>, req: Request, triple: string, digest: string)
    requires req.exact == Some("1") && AnswersWith(req.fetch, digest)
    ensures
      var out, expected := Outcome(pin, req, triple), Insists(pin, triple);
      && (out.Some? <==> expected == "" || digest == "" || expected == digest)
      && (out.Some? ==>
            out.value.1 == Pin(VersionOf(pin), "mirror", if digest != "" then map[triple := digest] else map[]))
  {
  }

  /** Requests through a Manager, staged so. */
  function ManagedRequests(sum: Sum, signing: bool, keys: seq<Key>, j: nat, digest: string): seq<Request>
  {
    seq(|keys|, k requires 0 <= k < |keys| =>
      Request(keys[k].0, keys[k].1, Some("1"),
              ManagerFetcher(sum, signing, NO_MAJORS, Cached(if k == j then digest else ""))))
  }

  const NO_MAJORS: (string, string) -> Option<string> := (e, m) => None

  lemma ManagedAreStaged(sum: Sum, signing: bool, keys: seq<Key>, j: nat, digest: string)
    ensures
      var reqs := ManagedRequests(sum, signing, keys, j, digest);
      KeysOf(reqs) == keys && Staged(reqs, j, digest) && AllFromManager(sum, signing, reqs)
  {
    var reqs := ManagedRequests(sum, signing, keys, j, digest);
    assert KeysOf(reqs) == keys;
    forall k | 0 <= k < |reqs|
      ensures FromManager(sum, signing, reqs[k])
      ensures AnswersWith(reqs[k].fetch, if k == j then digest else "")
    {
      var d := if k == j then digest else "";
      CachedAnswers(sum, signing, NO_MAJORS, d);
      assert reqs[k].fetch == ManagerFetcher(sum, signing, NO_MAJORS, Cached(d));
    }
  }

  ghost predicate AllFromManager(sum: Sum, signing: bool, reqs: seq<Request>)
  {
    forall i :: 0 <= i < |reqs| ==> FromManager(sum, signing, reqs[i])
  }

  /** Requests for these keys, each through a Manager, on a lock and the entries it ships. */
  ghost predicate ManagedRun(
    sum: Sum, signing: bool, keys: seq<Key>, s: State, entries: seq<LockEntry>, reqs: seq<Request>)
  {
    KeysOf(reqs) == keys && Ships(s, entries) && AllFromManager(sum, signing, reqs)
  }

  /** The pins of a lock in some order: it can always be shipped. */
  lemma {:induction false} SomeEntries(c: Content, keys: set<Key>) returns (entries: seq<LockEntry>)
    ensures forall e :: e in entries <==> (e.eng, e.spec) in keys && Held(c, e.eng, e.spec) == Some(e.pin)
    decreases keys
  {
    if keys == {} {
      entries := [];
    } else {
      var k :| k in keys;
      entries := SomeEntries(c, keys - {k});
      var held := Held(c, k.0, k.1);
      if held.Some? { entries := entries + [LockEntry(k.0, k.1, held.value)]; }
    }
  }

  lemma AllEntries(c: Content) returns (entries: seq<LockEntry>)
    ensures IsEntries(c, entries)
  {
    entries := SomeEntries(c, c.engines.Keys);
  }

  // ---- In process

  /** In process a pin keeps its hash through answers without one, so a digest that drifted is refused. */
  lemma {:induction false} LocalStops(s: State, triple: string, reqs: seq<Request>, j: nat, digest: string)
    requires Staged(reqs, j, digest) && j < |reqs|
    requires
      var expected := Insists(Held(s.content, reqs[j].eng, reqs[j].spec), triple);
      expected != "" && digest != "" && expected != digest
    ensures LocalRun(s, triple, reqs).1.None?
    decreases j
  {
    StagedOutcome(Held(s.content, reqs[0].eng, reqs[0].spec), reqs[0], triple, if j == 0 then digest else "");
    if j > 0 && !NullAt(s.content, KeyOf(reqs[0])) {
      var out := Outcome(Held(s.content, reqs[0].eng, reqs[0].spec), reqs[0], triple);
      RecordFrame(s, reqs[0].eng, reqs[0].spec, out.value.1);
      StagedRest(reqs, j, digest);
      LocalStops(Apply(s, Record(reqs[0].eng, reqs[0].spec, out.value.1)), triple, reqs[1..], j - 1, digest);
    }
  }

  /** The hash the lock holds for the key, in a version. */
  ghost predicate HoldsHash(s: State, key: Key, triple: string, hash: string)
  {
    var held := Held(s.content, key.0, key.1);
    held.Some? && held.value.resolved != "" && Lookup(held.value.hashes, triple) == hash
  }

  lemma {:induction false} LocalKeepsHash(
    s: State, triple: string, reqs: seq<Request>, j: int, digest: string, key: Key, hash: string)
    requires Staged(reqs, j, digest) && !(0 <= j < |reqs|) && HoldsHash(s, key, triple, hash) && hash != ""
    ensures HoldsHash(LocalRun(s, triple, reqs).0, key, triple, hash)
    decreases |reqs|
  {
    if reqs != [] && !NullAt(s.content, KeyOf(reqs[0])) {
      var held := Held(s.content, reqs[0].eng, reqs[0].spec);
      StagedOutcome(held, reqs[0], triple, "");
      var out := Outcome(held, reqs[0], triple);
      RecordFrame(s, reqs[0].eng, reqs[0].spec, out.value.1);
      StagedRest(reqs, j, digest);
      LocalKeepsHash(Apply(s, Record(reqs[0].eng, reqs[0].spec, out.value.1)), triple, reqs[1..], j - 1, digest, key,
        hash);
    }
  }

  /** A digest met at the key's first request, where none is insisted on, is in the lock at the end. */
  lemma {:induction false} LocalLearnsHash(
    s: State, triple: string, reqs: seq<Request>, i: nat, digest: string, key: Key)
    requires Staged(reqs, i, digest) && digest != "" && i < |reqs| && KeysOf(reqs)[i] == key
    requires (forall k :: 0 <= k < i ==> KeysOf(reqs)[k] != key) && Insists(Held(s.content, key.0, key.1), triple) == ""
    ensures LocalRun(s, triple, reqs).1.None? || HoldsHash(LocalRun(s, triple, reqs).0, key, triple, digest)
    decreases i
  {
    var held := Held(s.content, reqs[0].eng, reqs[0].spec);
    StagedOutcome(held, reqs[0], triple, if i == 0 then digest else "");
    var out := Outcome(held, reqs[0], triple);
    if out.Some? && !NullAt(s.content, KeyOf(reqs[0])) {
      RecordFrame(s, reqs[0].eng, reqs[0].spec, out.value.1);
      var after := Apply(s, Record(reqs[0].eng, reqs[0].spec, out.value.1));
      StagedRest(reqs, i, digest);
      assert KeysOf(reqs)[1..] == KeysOf(reqs[1..]);
      if i == 0 {
        LocalKeepsHash(after, triple, reqs[1..], -1, digest, key, digest);
      } else {
        assert KeysOf(reqs)[0] != key;
        LocalLearnsHash(after, triple, reqs[1..], i - 1, digest, key);
      }
    }
  }

  lemma NullStays(s: State, at: Key, pin: Pin, key: Key)
    requires at != key && NullAt(s.content, key)
    ensures NullAt(Apply(s, Record(at.0, at.1, pin)).content, key)
  {
  }

  /** A null entry under a requested key ends the run. */
  lemma {:induction false} LocalCrashes(s: State, triple: string, reqs: seq<Request>, m: nat, key: Key)
    requires m < |reqs| && KeyOf(reqs[m]) == key && NullAt(s.content, key)
    requires forall k :: 0 <= k < m ==> KeyOf(reqs[k]) != key
    ensures LocalRun(s, triple, reqs).1.None?
    decreases m
  {
    if m > 0 && !NullAt(s.content, KeyOf(reqs[0])) {
      var out := Outcome(Held(s.content, reqs[0].eng, reqs[0].spec), reqs[0], triple);
      if out.Some? {
        NullStays(s, KeyOf(reqs[0]), out.value.1, key);
        LocalCrashes(Apply(s, Record(reqs[0].eng, reqs[0].spec, out.value.1)), triple, reqs[1..], m - 1, key);
      }
    }
  }

  // ---- In the plugin

  function PinAt(l: Seeded, key: Key): Option<Pin> { Answer(l, key.0, key.1) }

  predicate InOrder(l: Seeded, key: Key) { LockKey(key.0, key.1) in l.order }

  /** Every request before the staged one is let through, and the staged one is if its key's hash has
      been wiped by then. */
  lemma {:induction false} PluginGoesOn(l: Seeded, triple: string, reqs: seq<Request>, j: int, digest: string)
    requires Consistent(l) && Staged(reqs, j, digest)
    requires 0 <= j < |reqs| ==>
      Insists(PinAt(l, KeysOf(reqs)[j]), triple) == "" || exists i :: 0 <= i < j && KeysOf(reqs)[i] == KeysOf(reqs)[j]
    ensures PluginRun(l, triple, reqs).1.Some?
    decreases |reqs|
  {
    if reqs != [] {
      var key := KeysOf(reqs)[0];
      StagedOutcome(PinAt(l, key), reqs[0], triple, if j == 0 then digest else "");
      var out := Outcome(PinAt(l, key), reqs[0], triple);
      var after := Noted(l, key.0, key.1, out.value.1);
      StagedRest(reqs, j, digest);
      if 0 < j < |reqs| { StillCovered(l, after, triple, reqs, j, key, out.value.1); }
      PluginGoesOn(after, triple, reqs[1..], j - 1, digest);
    }
  }

  lemma StillCovered(l: Seeded, after: Seeded, triple: string, reqs: seq<Request>, j: int, key: Key, pin: Pin)
    requires 0 < j < |reqs| && key == KeysOf(reqs)[0] && pin.hashes == map[] && after == Noted(l, key.0, key.1, pin)
    requires Insists(PinAt(l, KeysOf(reqs)[j]), triple) == "" ||
      exists i :: 0 <= i < j && KeysOf(reqs)[i] == KeysOf(reqs)[j]
    ensures
      var rest := KeysOf(reqs[1..]);
      Insists(PinAt(after, rest[j - 1]), triple) == "" || exists i :: 0 <= i < j - 1 && rest[i] == rest[j - 1]
  {
    assert KeysOf(reqs)[1..] == KeysOf(reqs[1..]);
    if Insists(PinAt(l, KeysOf(reqs)[j]), triple) != "" {
      var i :| 0 <= i < j && KeysOf(reqs)[i] == KeysOf(reqs)[j];
      if i > 0 { assert KeysOf(reqs[1..])[i - 1] == KeysOf(reqs[1..])[j - 1]; }
    }
  }

  /** A key not asked for is as it was. */
  lemma {:induction false} Untouched(l: Seeded, triple: string, reqs: seq<Request>, key: Key)
    requires Consistent(l) && NulFree(key.0) && AllNulFree(KeysOf(reqs)) && key !in KeysOf(reqs)
    ensures
      var after := PluginRun(l, triple, reqs).0;
      PinAt(after, key) == PinAt(l, key) && (InOrder(after, key) <==> InOrder(l, key))
    decreases |reqs|
  {
    if reqs != [] {
      var first := KeysOf(reqs)[0];
      assert KeysOf(reqs)[1..] == KeysOf(reqs[1..]) && first in KeysOf(reqs);
      KeyRoundTrip(first.0, first.1);
      KeyRoundTrip(key.0, key.1);
      var out := Outcome(PinAt(l, first), reqs[0], triple);
      if out.Some? { Untouched(Noted(l, first.0, first.1, out.value.1), triple, reqs[1..], key); }
    }
  }

  /** A version once there stays. */
  lemma {:induction false} VersionStays(l: Seeded, triple: string, reqs: seq<Request>, key: Key)
    requires Consistent(l) && PinAt(l, key).Some? && PinAt(l, key).value.resolved != ""
    requires NulFree(key.0) && AllNulFree(KeysOf(reqs))
    ensures
      var after := PinAt(PluginRun(l, triple, reqs).0, key);
      after.Some? && after.value.resolved == PinAt(l, key).value.resolved
    decreases |reqs|
  {
    if reqs != [] {
      var first := KeysOf(reqs)[0];
      assert KeysOf(reqs)[1..] == KeysOf(reqs[1..]);
      KeyRoundTrip(first.0, first.1);
      KeyRoundTrip(key.0, key.1);
      var out := Outcome(PinAt(l, first), reqs[0], triple);
      if out.Some? { VersionStays(Noted(l, first.0, first.1, out.value.1), triple, reqs[1..], key); }
    }
  }

  /** A key answered without digests only ends up recorded, in a version and without hashes. */
  lemma {:induction false} LastUndigested(
    l: Seeded, triple: string, reqs: seq<Request>, j: int, digest: string, key: Key)
    requires Consistent(l) && Staged(reqs, j, digest) && !(0 <= j < |reqs|)
    requires NulFree(key.0) && AllNulFree(KeysOf(reqs)) && key in KeysOf(reqs)
    ensures
      var after := PluginRun(l, triple, reqs).0;
      && InOrder(after, key) && PinAt(after, key).Some?
      && PinAt(after, key).value.hashes == map[] && PinAt(after, key).value.resolved != ""
    decreases |reqs|
  {
    var first := KeysOf(reqs)[0];
    assert KeysOf(reqs)[1..] == KeysOf(reqs[1..]);
    StagedOutcome(PinAt(l, first), reqs[0], triple, "");
    var out := Outcome(PinAt(l, first), reqs[0], triple);
    var after := Noted(l, first.0, first.1, out.value.1);
    StagedRest(reqs, j, digest);
    if key in KeysOf(reqs[1..]) {
      LastUndigested(after, triple, reqs[1..], j - 1, digest, key);
    } else {
      assert first == key;
      Untouched(after, triple, reqs[1..], key);
    }
  }

  /** The digest met at the key's first request is wiped again by a later one. */
  lemma {:induction false} PluginForgets(
    l: Seeded, triple: string, reqs: seq<Request>, i: nat, j: nat, digest: string)
    requires Consistent(l) && Staged(reqs, i, digest) && i < j < |reqs| && KeysOf(reqs)[i] == KeysOf(reqs)[j]
    requires AllNulFree(KeysOf(reqs)) && PluginRun(l, triple, reqs).1.Some?
    ensures
      var after, key := PluginRun(l, triple, reqs).0, KeysOf(reqs)[i];
      && InOrder(after, key) && PinAt(after, key).Some?
      && PinAt(after, key).value.hashes == map[] && PinAt(after, key).value.resolved != ""
    decreases i
  {
    var first, key := KeysOf(reqs)[0], KeysOf(reqs)[i];
    var rest := KeysOf(reqs[1..]);
    assert KeysOf(reqs)[1..] == rest && rest[j - 1] == key;
    var out := Outcome(PinAt(l, first), reqs[0], triple);
    var after := Noted(l, first.0, first.1, out.value.1);
    StagedRest(reqs, i, digest);
    if i == 0 {
      LastUndigested(after, triple, reqs[1..], -1, digest, key);
    } else {
      assert rest[i - 1] == key;
      PluginForgets(after, triple, reqs[1..], i - 1, j - 1, digest);
    }
  }

  /** The digest met at the key's last request is what is recorded. */
  lemma {:induction false} LastDigested(l: Seeded, triple: string, reqs: seq<Request>, j: nat, digest: string)
    requires Consistent(l) && Staged(reqs, j, digest) && digest != "" && j < |reqs|
    requires forall k :: j < k < |reqs| ==> KeysOf(reqs)[k] != KeysOf(reqs)[j]
    requires AllNulFree(KeysOf(reqs)) && PluginRun(l, triple, reqs).1.Some?
    ensures
      var after, key := PluginRun(l, triple, reqs).0, KeysOf(reqs)[j];
      InOrder(after, key) && PinAt(after, key).Some? && PinAt(after, key).value.hashes == map[triple := digest]
    decreases j
  {
    var first, key := KeysOf(reqs)[0], KeysOf(reqs)[j];
    var rest := KeysOf(reqs[1..]);
    assert KeysOf(reqs)[1..] == rest;
    StagedOutcome(PinAt(l, first), reqs[0], triple, if j == 0 then digest else "");
    var out := Outcome(PinAt(l, first), reqs[0], triple);
    var after := Noted(l, first.0, first.1, out.value.1);
    StagedRest(reqs, j, digest);
    if j == 0 {
      forall k | 0 <= k < |rest| ensures rest[k] != key { assert rest[k] == KeysOf(reqs)[k + 1]; }
      Untouched(after, triple, reqs[1..], key);
    } else {
      forall k | j - 1 < k < |rest| ensures rest[k] != rest[j - 1] { assert rest[k] == KeysOf(reqs)[k + 1]; }
      LastDigested(after, triple, reqs[1..], j - 1, digest);
    }
  }

  predicate AtMostOnce(keys: seq<Key>, key: Key)
  {
    forall i, j :: 0 <= i < j < |keys| && keys[i] == key ==> keys[j] != key
  }

  /** What a key asked for once at most has recorded is what its request makes of the pin that was shipped. */
  lemma {:induction false} RecordedOnce(l: Seeded, triple: string, reqs: seq<Request>, key: Key) returns (m: nat)
    requires Consistent(l) && NulFree(key.0) && AllNulFree(KeysOf(reqs)) && AtMostOnce(KeysOf(reqs), key)
      && !InOrder(l, key)
    ensures InOrder(PluginRun(l, triple, reqs).0, key) ==>
      && m < |reqs| && KeysOf(reqs)[m] == key && Outcome(PinAt(l, key), reqs[m], triple).Some?
      && PinAt(PluginRun(l, triple, reqs).0, key) == Some(Outcome(PinAt(l, key), reqs[m], triple).value.1)
    decreases |reqs|
  {
    m := 0;
    if reqs != [] {
      var first, rest := KeysOf(reqs)[0], KeysOf(reqs[1..]);
      assert KeysOf(reqs)[1..] == rest;
      KeyRoundTrip(first.0, first.1);
      KeyRoundTrip(key.0, key.1);
      var out := Outcome(PinAt(l, first), reqs[0], triple);
      if out.Some? {
        var after := Noted(l, first.0, first.1, out.value.1);
        if first == key {
          forall k | 0 <= k < |rest| ensures rest[k] != key { assert rest[k] == KeysOf(reqs)[k + 1]; }
          Untouched(after, triple, reqs[1..], key);
        } else {
          var n := RecordedOnce(after, triple, reqs[1..], key);
          m := n + 1;
        }
      }
    }
  }

  // ---- Back on the host

  /** Keys recorded once each, and cut back to what they were made of. */
  ghost predicate GoodOrder(l: Seeded)
  {
    && Consistent(l)
    && (forall i, j :: 0 <= i < j < |l.order| ==> l.order[i] != l.order[j])
    && forall i :: 0 <= i < |l.order| ==> CutsBack(l.order[i])
  }

  predicate CutsBack(k: string)
  {
    var (eng, spec) := Cut(k, NUL);
    LockKey(eng, spec) == k && NulFree(eng)
  }

  lemma {:induction false} GoodRun(l: Seeded, triple: string, reqs: seq<Request>)
    requires GoodOrder(l) && AllNulFree(KeysOf(reqs))
    ensures GoodOrder(PluginRun(l, triple, reqs).0)
    decreases |reqs|
  {
    if reqs != [] {
      var first := KeysOf(reqs)[0];
      assert KeysOf(reqs)[1..] == KeysOf(reqs[1..]);
      KeyRoundTrip(first.0, first.1);
      var out := Outcome(PinAt(l, first), reqs[0], triple);
      if out.Some? { GoodRun(Noted(l, first.0, first.1, out.value.1), triple, reqs[1..]); }
    }
  }

  function EntryKey(e: LockEntry): Key { (e.eng, e.spec) }

  /** Replaying entries on distinct keys merges each into its own pin. */
  lemma {:induction false} ReplayHeld(s: State, es: seq<LockEntry>, key: Key)
    requires forall i, j :: 0 <= i < j < |es| ==> EntryKey(es[i]) != EntryKey(es[j])
    ensures
      var held, after := Held(s.content, key.0, key.1), Held(Replay(s, es).content, key.0, key.1);
      && ((forall i :: 0 <= i < |es| ==> EntryKey(es[i]) != key) ==> after == held)
      && forall i :: 0 <= i < |es| && EntryKey(es[i]) == key ==> after == Some(MergePin(held, es[i].pin))
  {
    if es != [] {
      var init, last := es[..|es| - 1], es[|es| - 1];
      ReplayHeld(s, init, key);
      RecordFrame(Replay(s, init), last.eng, last.spec, last.pin);
      if EntryKey(last) == key {
        forall i | 0 <= i < |init| ensures EntryKey(init[i]) != key { assert es[i] == init[i]; }
      } else {
        forall i | 0 <= i < |es| && EntryKey(es[i]) == key ensures i < |init| && init[i] == es[i] { }
        assert forall i :: 0 <= i < |init| ==> init[i] == es[i];
      }
    }
  }

  /** What the host's lock holds for a key after the replay. */
  lemma RecordingsHeld(s: State, l: Seeded, key: Key)
    requires GoodOrder(l) && NulFree(key.0)
    ensures
      var held, after := Held(s.content, key.0, key.1), Held(Replay(s, Recordings(l)).content, key.0, key.1);
      after == if InOrder(l, key) then Some(MergePin(held, l.pins[LockKey(key.0, key.1)])) else held
  {
    var es := Recordings(l);
    KeyRoundTrip(key.0, key.1);
    forall i | 0 <= i < |es| ensures LockKey(es[i].eng, es[i].spec) == l.order[i] && es[i].pin == l.pins[l.order[i]] {
      assert CutsBack(l.order[i]) && l.order[i] in l.order;
    }
    forall i, j | 0 <= i < j < |es| ensures EntryKey(es[i]) != EntryKey(es[j]) {
      assert l.order[i] != l.order[j];
    }
    ReplayHeld(s, es, key);
    if InOrder(l, key) {
      var i :| 0 <= i < |l.order| && l.order[i] == LockKey(key.0, key.1);
      assert EntryKey(es[i]) == key;
    }
  }

  /** The copy a plugin starts with. */
  function Copy(entries: seq<LockEntry>): Seeded { Seeded(Seed(entries), []) }

  /** After a Resolve across the boundary the host holds what the plugin last recorded, merged into what it held. */
  lemma RemoteHeld(s: State, entries: seq<LockEntry>, triple: string, reqs: seq<Request>, key: Key)
    requires AllNulFree(KeysOf(reqs)) && NulFree(key.0)
    ensures
      var (l, out) := PluginRun(Copy(entries), triple, reqs);
      var held := Held(s.content, key.0, key.1);
      Held(RemoteRun(s, entries, triple, reqs).0.content, key.0, key.1) ==
        if out.Some? && InOrder(l, key) then Some(MergePin(held, l.pins[LockKey(key.0, key.1)])) else held
  {
    GoodRun(Copy(entries), triple, reqs);
    RecordingsHeld(s, PluginRun(Copy(entries), triple, reqs).0, key);
  }

  // ---- When the boundary makes no difference

  /** Two requests for one key, the later of them the `j`-th. */
  ghost predicate Repeat(keys: seq<Key>, i: int, j: int)
  {
    0 <= i < j < |keys| && keys[i] == keys[j]
  }

  /** A pin with a hash: in process the drifted digest is refused, across the boundary it is let in and
      the pin moves to it. */
  lemma RepeatedKeyDiverges(
    s: State, entries: seq<LockEntry>, triple: string, reqs: seq<Request>, i: nat, j: nat, digest: string)
    requires Ships(s, entries) && AllNulFree(KeysOf(reqs)) && Staged(reqs, j, digest) && Repeat(KeysOf(reqs), i, j)
    requires forall k :: j < k < |reqs| ==> KeysOf(reqs)[k] != KeysOf(reqs)[j]
    requires
      var expected := Insists(Held(s.content, reqs[j].eng, reqs[j].spec), triple);
      expected != "" && digest != "" && expected != digest
    ensures LocalRun(s, triple, reqs).1.None? && RemoteRun(s, entries, triple, reqs).1.Some?
    ensures HoldsHash(RemoteRun(s, entries, triple, reqs).0, KeysOf(reqs)[j], triple, digest)
  {
    var key := KeysOf(reqs)[j];
    LocalStops(s, triple, reqs, j, digest);
    assert KeysOf(reqs)[i] == key;
    PluginGoesOn(Copy(entries), triple, reqs, j, digest);
    LastDigested(Copy(entries), triple, reqs, j, digest);
    DriftArrives(s, entries, triple, reqs, key, digest);
  }

  /** A hash the plugin has recorded under a version the host had too is the host's at the end. */
  lemma DriftArrives(
    s: State, entries: seq<LockEntry>, triple: string, reqs: seq<Request>, key: Key, digest: string)
    requires Ships(s, entries) && AllNulFree(KeysOf(reqs)) && NulFree(key.0) && digest != ""
    requires Held(s.content, key.0, key.1).Some? && Held(s.content, key.0, key.1).value.resolved != ""
    requires
      var (l, out) := PluginRun(Copy(entries), triple, reqs);
      out.Some? && InOrder(l, key) && PinAt(l, key).Some? && PinAt(l, key).value.hashes == map[triple := digest]
    ensures HoldsHash(RemoteRun(s, entries, triple, reqs).0, key, triple, digest)
  {
    SeedAnswers(s.content, entries, key.0, key.1);
    VersionStays(Copy(entries), triple, reqs, key);
    RemoteHeld(s, entries, triple, reqs, key);
    var p := PinAt(PluginRun(Copy(entries), triple, reqs).0, key).value;
    assert Lookup(MergePin(Held(s.content, key.0, key.1), p).hashes, triple) == digest;
  }

  /** Nothing insisted on: in process the digest met first is kept, across the boundary a later answer wipes it. */
  lemma RepeatedKeyForgets(
    s: State, entries: seq<LockEntry>, triple: string, reqs: seq<Request>, i: nat, j: nat, digest: string)
    requires Ships(s, entries) && AllNulFree(KeysOf(reqs)) && Staged(reqs, i, digest) && Repeat(KeysOf(reqs), i, j)
    requires forall k :: 0 <= k < i ==> KeysOf(reqs)[k] != KeysOf(reqs)[i]
    requires Insists(Held(s.content, reqs[i].eng, reqs[i].spec), triple) == "" && digest != ""
    ensures !Refines(s, entries, triple, reqs)
  {
    var key := KeysOf(reqs)[i];
    LocalLearnsHash(s, triple, reqs, i, digest, key);
    SeedAnswers(s.content, entries, key.0, key.1);
    PluginGoesOn(Copy(entries), triple, reqs, i, digest);
    PluginForgets(Copy(entries), triple, reqs, i, j, digest);
    RemoteHeld(s, entries, triple, reqs, key);
    var held, p := Held(s.content, key.0, key.1), PinAt(PluginRun(Copy(entries), triple, reqs).0, key).value;
    assert Lookup(MergePin(held, p).hashes, triple) == "";
    assert !HoldsHash(RemoteRun(s, entries, triple, reqs).0, key, triple, digest);
  }

  lemma FirstOf(keys: seq<Key>, j: nat) returns (i: nat)
    requires j < |keys|
    ensures i <= j && keys[i] == keys[j] && forall k :: 0 <= k < i ==> keys[k] != keys[i]
  {
    i := 0;
    while keys[i] != keys[j]
      invariant i <= j && forall k :: 0 <= k < i ==> keys[k] != keys[j]
      decreases j - i
    {
      i := i + 1;
    }
  }

  lemma LastOf(keys: seq<Key>, i: nat) returns (j: nat)
    requires i < |keys|
    ensures i <= j < |keys| && keys[j] == keys[i] && forall k :: j < k < |keys| ==> keys[k] != keys[j]
  {
    j := |keys| - 1;
    while keys[j] != keys[i]
      invariant i <= j < |keys| && forall k :: j < k < |keys| ==> keys[k] != keys[i]
      decreases j
    {
      j := j - 1;
    }
  }

  /** A repeated key, or one that leads to a null entry, has a run through Managers that the boundary changes. */
  lemma BoundaryShows(sum: Sum, signing: bool, s: State, keys: seq<Key>)
    returns (entries: seq<LockEntry>, triple: string, reqs: seq<Request>)
    requires Shippable(s.content) && AllNulFree(keys) && !(Distinct(keys) && NoNulls(s.content, keys))
    ensures ManagedRun(sum, signing, keys, s, entries, reqs) && !Refines(s, entries, triple, reqs)
  {
    entries := AllEntries(s.content);
    triple := "linux";
    if m: nat :| m < |keys| && NullAt(s.content, keys[m]) {
      var n := FirstOf(keys, m);
      reqs := ManagedRequests(sum, signing, keys, |keys|, "");
      ManagedAreStaged(sum, signing, keys, |keys|, "");
      LocalCrashes(s, triple, reqs, n, keys[m]);
      PluginGoesOn(Copy(entries), triple, reqs, |keys|, "");
    } else {
      assert NoNulls(s.content, keys) && !Distinct(keys);
      var a, b :| 0 <= a < b < |keys| && keys[a] == keys[b];
      var expected := Insists(Held(s.content, keys[a].0, keys[a].1), triple);
      if expected != "" {
        var j := LastOf(keys, b);
        reqs := ManagedRequests(sum, signing, keys, j, expected + "x");
        ManagedAreStaged(sum, signing, keys, j, expected + "x");
        RepeatedKeyDiverges(s, entries, triple, reqs, a, j, expected + "x");
      } else {
        var i := FirstOf(keys, a);
        reqs := ManagedRequests(sum, signing, keys, i, "d");
        ManagedAreStaged(sum, signing, keys, i, "d");
        RepeatedKeyForgets(s, entries, triple, reqs, i, b, "d");
      }
    }
  }

  /** For a lock and a list of keys, resolving across the boundary refines resolving in process, whatever the fetchers
      and the platform, if and only if no key is resolved twice and none leads to a null entry. */
  lemma RefinesExactly(s: State, keys: seq<Key>)
    requires Shippable(s.content) && AllNulFree(keys)
    ensures Distinct(keys) && NoNulls(s.content, keys) <==>
      forall entries: seq<LockEntry>, triple: string, reqs: seq<Request> ::
        KeysOf(reqs) == keys && Ships(s, entries) ==> Refines(s, entries, triple, reqs)
  {
    if Distinct(keys) && NoNulls(s.content, keys) {
      forall entries: seq<LockEntry>, triple: string, reqs: seq<Request> | KeysOf(reqs) == keys && Ships(s, entries)
        ensures Refines(s, entries, triple, reqs)
      {
        RemoteRefinesLocal(s, entries, triple, reqs);
      }
    } else {
      var entries, triple, reqs := BoundaryShows(x => "", false, s, keys);
    }
  }

  /** The same with every fetcher a Manager, in a world of its own at each call. */
  lemma ManagersRefineExactly(sum: Sum, signing: bool, s: State, keys: seq<Key>)
    requires Shippable(s.content) && AllNulFree(keys)
    ensures Distinct(keys) && NoNulls(s.content, keys) <==>
      forall entries: seq<LockEntry>, triple: string, reqs: seq<Request> ::
        ManagedRun(sum, signing, keys, s, entries, reqs) ==> Refines(s, entries, triple, reqs)
  {
    if Distinct(keys) && NoNulls(s.content, keys) {
      forall entries: seq<LockEntry>, triple: string, reqs: seq<Request>
        | ManagedRun(sum, signing, keys, s, entries, reqs)
        ensures Refines(s, entries, triple, reqs)
      {
        RemoteRefinesLocal(s, entries, triple, reqs);
      }
    } else {
      var entries, triple, reqs := BoundaryShows(sum, signing, s, keys);
    }
  }

  // ---- Pins across the boundary

  predicate Hashless(p: Pin)
  {
    forall t :: t in p.hashes ==> p.hashes[t] == ""
  }

  /** The pin cannot be moved by a Resolve for these keys: its key is not asked for; or it has a version, and is asked
      for once at most or has no hash to lose. */
  predicate SafeFor(p: Pin, keys: seq<Key>, key: Key)
  {
    key !in keys || (p.resolved != "" && (AtMostOnce(keys, key) || Hashless(p)))
  }

  lemma RemoteKeepsPin(s: State, entries: seq<LockEntry>, triple: string, reqs: seq<Request>, key: Key)
    requires Ships(s, entries) && AllNulFree(KeysOf(reqs)) && Held(s.content, key.0, key.1).Some?
    requires forall i :: 0 <= i < |reqs| ==> HonoursPins(reqs[i].fetch)
    requires SafeFor(Held(s.content, key.0, key.1).value, KeysOf(reqs), key)
    ensures PinStays(s, RemoteRun(s, entries, triple, reqs).0, key.0, key.1)
  {
    var p := Held(s.content, key.0, key.1).value;
    SeedAnswers(s.content, entries, key.0, key.1);
    RemoteHeld(s, entries, triple, reqs, key);
    var l := PluginRun(Copy(entries), triple, reqs).0;
    if key !in KeysOf(reqs) {
      Untouched(Copy(entries), triple, reqs, key);
    } else {
      VersionStays(Copy(entries), triple, reqs, key);
      if AtMostOnce(KeysOf(reqs), key) && InOrder(l, key) {
        var m := RecordedOnce(Copy(entries), triple, reqs, key);
        OutcomeExtends(p, reqs[m], triple);
      }
    }
  }

  /** What one request makes of a pin with a version leaves, merged into it, all that it said. */
  lemma OutcomeExtends(p: Pin, req: Request, triple: string)
    requires p.resolved != "" && HonoursPins(req.fetch) && Outcome(Some(p), req, triple).Some?
    ensures Extends(p, MergePin(Some(p), Outcome(Some(p), req, triple).value.1))
  {
  }

  /** And a pin that is not safe so is moved by some run through Managers. */
  lemma RemoteMovesPin(sum: Sum, signing: bool, s: State, keys: seq<Key>, key: Key)
    returns (entries: seq<LockEntry>, triple: string, reqs: seq<Request>)
    requires Shippable(s.content) && AllNulFree(keys) && Held(s.content, key.0, key.1).Some?
    requires !SafeFor(Held(s.content, key.0, key.1).value, keys, key)
    ensures ManagedRun(sum, signing, keys, s, entries, reqs)
    ensures !PinStays(s, RemoteRun(s, entries, triple, reqs).0, key.0, key.1)
  {
    var p := Held(s.content, key.0, key.1).value;
    entries := AllEntries(s.content);
    SeedAnswers(s.content, entries, key.0, key.1);
    if p.resolved == "" {
      triple := "linux";
      reqs := ManagedRequests(sum, signing, keys, |keys|, "");
      ManagedAreStaged(sum, signing, keys, |keys|, "");
      PluginGoesOn(Copy(entries), triple, reqs, |keys|, "");
      LastUndigested(Copy(entries), triple, reqs, |keys|, "", key);
      RemoteHeld(s, entries, triple, reqs, key);
    } else {
      triple :| triple in p.hashes && p.hashes[triple] != "";
      var a, b :| 0 <= a < b < |keys| && keys[a] == key && keys[b] == key;
      var j := LastOf(keys, b);
      var digest := p.hashes[triple] + "x";
      reqs := ManagedRequests(sum, signing, keys, j, digest);
      ManagedAreStaged(sum, signing, keys, j, digest);
      RepeatedKeyDiverges(s, entries, triple, reqs, a, j, digest);
    }
  }

  /** A pin stays through every Resolve across the boundary for these keys, through Managers in any worlds, if and only
      if it is safe for them. */
  lemma RemotePinSafeExactly(sum: Sum, signing: bool, s: State, keys: seq<Key>, key: Key)
    requires Shippable(s.content) && AllNulFree(keys) && Held(s.content, key.0, key.1).Some?
    ensures SafeFor(Held(s.content, key.0, key.1).value, keys, key) <==>
      forall entries: seq<LockEntry>, triple: string, reqs: seq<Request> ::
        ManagedRun(sum, signing, keys, s, entries, reqs) ==>
        PinStays(s, RemoteRun(s, entries, triple, reqs).0, key.0, key.1)
  {
    if SafeFor(Held(s.content, key.0, key.1).value, keys, key) {
      forall entries: seq<LockEntry>, triple: string, reqs: seq<Request>
        | ManagedRun(sum, signing, keys, s, entries, reqs)
        ensures PinStays(s, RemoteRun(s, entries, triple, reqs).0, key.0, key.1)
      {
        forall i | 0 <= i < |reqs| ensures HonoursPins(reqs[i].fetch) { FromManagerHonours(sum, signing, reqs[i]); }
        RemoteKeepsPin(s, entries, triple, reqs, key);
      }
    } else {
      var entries, triple, reqs := RemoteMovesPin(sum, signing, s, keys, key);
    }
  }

  /** Every pin with a version stays through the run. */
  ghost predicate VersionedPinsStay(before: State, after: State)
  {
    forall key: Key ::
      Held(before.content, key.0, key.1).Some? && Held(before.content, key.0, key.1).value.resolved != "" ==>
        PinStays(before, after, key.0, key.1)
  }

  /** A loaded lock that holds one pin, with a hash. */
  function OnePin(key: Key, triple: string, hash: string): State
  {
    var content := Content(map[key := Some(Pin("1", "mirror", map[triple := hash]))], map[], map[]);
    State(content, "doze.lock", false, Some(content))
  }

  /** A Resolve across the boundary for these keys keeps every pin with a version, of every lock and with every Manager,
      if and only if no key is resolved twice. */
  lemma RemotePinsStayExactly(sum: Sum, signing: bool, keys: seq<Key>)
    requires AllNulFree(keys)
    ensures Distinct(keys) <==>
      forall s: State, entries: seq<LockEntry>, triple: string, reqs: seq<Request> ::
        ManagedRun(sum, signing, keys, s, entries, reqs) ==>
        VersionedPinsStay(s, RemoteRun(s, entries, triple, reqs).0)
  {
    if Distinct(keys) {
      forall s: State, entries: seq<LockEntry>, triple: string, reqs: seq<Request>
        | ManagedRun(sum, signing, keys, s, entries, reqs)
        ensures VersionedPinsStay(s, RemoteRun(s, entries, triple, reqs).0)
      {
        forall key: Key | Held(s.content, key.0, key.1).Some? && Held(s.content, key.0, key.1).value.resolved != ""
          ensures PinStays(s, RemoteRun(s, entries, triple, reqs).0, key.0, key.1)
        {
          forall i | 0 <= i < |reqs| ensures HonoursPins(reqs[i].fetch) { FromManagerHonours(sum, signing, reqs[i]); }
          RemoteKeepsPin(s, entries, triple, reqs, key);
        }
      }
    } else {
      var i, j :| 0 <= i < j < |keys| && keys[i] == keys[j];
      var s := OnePin(keys[i], "linux", "d1");
      assert Held(s.content, keys[i].0, keys[i].1).value.hashes["linux"] == "d1";
      var entries, triple, reqs := RemoteMovesPin(sum, signing, s, keys, keys[i]);
    }
  }

  // ---- Runs that mix both

  /** One step of a lock's life: a call in process, or a Resolve of a module across the boundary. */
  datatype Move = InProcess(call: Call) | Across(entries: seq<LockEntry>, triple: string, reqs: seq<Request>)

  function Moved(s: State, m: Move): State
  {
    match m
    case InProcess(call) => Resolved(s, call)
    case Across(entries, triple, reqs) => RemoteRun(s, entries, triple, reqs).0
  }

  function MovedAll(s: State, moves: seq<Move>): State
  {
    if moves == [] then s else Moved(MovedAll(s, moves[..|moves| - 1]), moves[|moves| - 1])
  }

  /** Through fetchers that honour pins; across the boundary, with the lock's entries, and the key at most once. */
  ghost predicate MoveIsFair(s: State, m: Move, key: Key)
  {
    match m
    case InProcess(call) => HonoursPins(call.req.fetch)
    case Across(entries, triple, reqs) =>
      && Ships(s, entries) && AllNulFree(KeysOf(reqs)) && AtMostOnce(KeysOf(reqs), key)
      && forall i :: 0 <= i < |reqs| ==> HonoursPins(reqs[i].fetch)
  }

  ghost predicate RunIsFair(s: State, moves: seq<Move>, key: Key)
  {
    forall i :: 0 <= i < |moves| ==> MoveIsFair(MovedAll(s, moves[..i]), moves[i], key)
  }

  /** Over any run of calls in process and Resolves across the boundary, with the mirror and the cache anything at
      each, a pin with a version keeps it and every hash it has, as long as no one Resolve across the boundary asks
      for its key twice. */
  lemma {:induction false} MixedRunsKeepPins(s: State, moves: seq<Move>, key: Key)
    requires RunIsFair(s, moves, key)
    requires Held(s.content, key.0, key.1).Some? && Held(s.content, key.0, key.1).value.resolved != ""
    ensures PinStays(s, MovedAll(s, moves), key.0, key.1)
  {
    if moves != [] {
      var init, last := moves[..|moves| - 1], moves[|moves| - 1];
      forall i | 0 <= i < |init| ensures moves[..i] == init[..i] && moves[i] == init[i] { }
      assert RunIsFair(s, init, key);
      MixedRunsKeepPins(s, init, key);
      var before := MovedAll(s, init);
      assert MoveIsFair(before, last, key);
      match last
      case InProcess(call) => CallKeepsPin(before, call, key.0, key.1);
      case Across(entries, triple, reqs) => RemoteKeepsPin(before, entries, triple, reqs, key);
    }
  }
}
