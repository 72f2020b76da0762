/** The toolchain cache (binaries/binaries.go), and what it makes of the pins of a lock over time. */
module Binaries {
  import opened GoStrings
  import opened Lockfile
  import opened Resolve

  /** A cache entry: whether its bin directory has files, and the digest recorded when it was unpacked ("" for none). */
  datatype Entry = Entry(hasBins: bool, digest: string)

  /** What the mirror and the file system would give for one artifact during a call: its manifest record, the bytes
      its URL serves, whether its signature checks out, whether the archive unpacks to a bin directory, how much of
      the digest record gets written, whether the new directory can be put in the old one's place, and whether there
      are files in bin. */
  datatype Offer = Offer(
    sha256: string, served: Option<string>, signed: bool, unpacks: bool, records: nat, installs: bool, hasBins: bool)

  /** SHA-256, in hex, of an archive's bytes: any function at all. */
  type Sum = string -> string

  function Digest(sum: Sum, bytes: string): string { "sha256:" + sum(bytes) }

  /** The archive passes: its digest is the locked one or, with none locked, the manifest's; and it is signed if
      a key asks for it. */
  predicate Verified(sum: Sum, signing: bool, offer: Offer, expected: string)
  {
    && offer.served.Some?
    && (if expected != "" then Digest(sum, offer.served.value) == expected
        else offer.sha256 != "" && Lower(sum(offer.served.value)) == Lower(offer.sha256))
    && (signing ==> offer.signed)
  }

  /** There are bytes; they have the locked digest or, with none locked, the manifest's sum, letter case aside; and if a
      key asks for it they are signed. */
  predicate Vouched(sum: Sum, signing: bool, offer: Offer, expected: string)
  {
    && offer.served.Some?
    && (expected != "" ==> "sha256:" + sum(offer.served.value) == expected)
    && (expected == "" ==> offer.sha256 != "" && EqualFold(sum(offer.served.value), offer.sha256))
    && (signing ==> offer.signed)
  }

  lemma VerifiedExactly(sum: Sum, signing: bool, offer: Offer, expected: string)
    ensures Verified(sum, signing, offer, expected) <==> Vouched(sum, signing, offer, expected)
  {
    if offer.served.Some? { LowerExact(sum(offer.served.value), offer.sha256); }
  }

  /** The record left of the digest: a write that fails part of the way goes unnoticed. */
  function Recorded(sum: Sum, offer: Offer): string
    requires offer.served.Some?
  {
    Written(Digest(sum, offer.served.value), offer.records)
  }

  function Written(text: string, upTo: nat): string { if upTo < |text| then text[..upTo] else text }

  predicate Hit(cached: Option<Entry>) { cached.Some? && cached.value.hasBins }

  /** The digest Manager.Ensure answers with, or None for an error. */
  function Answered(
    sum: Sum, signing: bool, cached: Option<Entry>, offer: Option<Offer>, expected: string): Option<string>
  {
    if Hit(cached) then
      var digest := cached.value.digest;
      if expected != "" && digest != "" && digest != expected then None else Some(digest)
    else if offer.Some? && Verified(sum, signing, offer.value, expected)
         && offer.value.unpacks && offer.value.installs && offer.value.hasBins then
      Some(Digest(sum, offer.value.served.value))
    else None
  }

  /** Engine, full version and platform triple. */
  type At = (string, string, string)

  /** The cache after a download: if the bytes pass and unpack, the artifact's entry is new, under what could be
      recorded of their digest; or gone, when the old one was removed and the new one could not be put in its place. */
  function Unpacked(
    sum: Sum, signing: bool, cache: map<At, Entry>, at: At, offer: Offer, expected: string): map<At, Entry>
  {
    if !(Verified(sum, signing, offer, expected) && offer.unpacks) then cache
    else if !offer.installs then cache - {at}
    else cache[at := Entry(offer.hasBins, Recorded(sum, offer))]
  }

  class Manager {
    const sum: Sum
    const signing: bool
    var cache: map<At, Entry>

    constructor (sum: Sum, signing: bool)
      ensures this.sum == sum && this.signing == signing && cache == map[]
    {
      this.sum, this.signing, cache := sum, signing, map[];
    }

    ghost function EntryAt(eng: string, full: string, triple: string): Option<Entry>
      reads this
    {
      if (eng, full, triple) in cache then Some(cache[(eng, full, triple)]) else None
    }

    method EnsureDownload(eng: string, full: string, triple: string, offer: Offer, expected: string)
      returns (digest: Option<string>)
      requires !Hit(EntryAt(eng, full, triple))
      modifies this`cache
      ensures digest == Answered(sum, signing, None, Some(offer), expected)
      ensures digest.Some? <==>
        Vouched(sum, signing, offer, expected) && offer.unpacks && offer.installs && offer.hasBins
      ensures digest.Some? ==> digest.value == "sha256:" + sum(offer.served.value)
      ensures cache == Unpacked(sum, signing, old(cache), (eng, full, triple), offer, expected)
    {
      if offer.served.Some? { LowerExact(sum(offer.served.value), offer.sha256); }
      if offer.served.None? { return None; }
      var got := sum(offer.served.value);
      var d := "sha256:" + got;
      if expected != "" {
        if d != expected { return None; }
      } else if offer.sha256 != "" {
        if Lower(got) != Lower(offer.sha256) { return None; }
      } else {
        return None;
      }
      if signing && !offer.signed { return None; }
      if !offer.unpacks { return None; }
      var recorded := Written(d, offer.records);
      cache := cache - {(eng, full, triple)};
      if !offer.installs { return None; }
      cache := cache[(eng, full, triple) := Entry(offer.hasBins, recorded)];
      if !offer.hasBins { return None; }
      return Some(d);
    }

    /** `offer` is what the mirror's manifest has for this artifact, if anything. */
    method Ensure(eng: string, full: string, triple: string, offer: Option<Offer>, expected: string)
      returns (digest: Option<string>)
      modifies this`cache
      ensures digest == Answered(sum, signing, old(EntryAt(eng, full, triple)), offer, expected)
      ensures
        var cached := old(EntryAt(eng, full, triple));
        if cached.Some? && cached.value.hasBins then
          digest == if expected == "" || cached.value.digest in {"", expected} then Some(cached.value.digest) else None
        else
          && (digest.Some? <==> offer.Some? && Vouched(sum, signing, offer.value, expected)
                                && offer.value.unpacks && offer.value.installs && offer.value.hasBins)
          && (digest.Some? ==> digest.value == "sha256:" + sum(offer.value.served.value))
      ensures cache ==
        if Hit(old(EntryAt(eng, full, triple))) || offer.None? then old(cache)
        else Unpacked(sum, signing, old(cache), (eng, full, triple), offer.value, expected)
    {
      if (eng, full, triple) in cache && cache[(eng, full, triple)].hasBins {
        digest := CheckCached(cache[(eng, full, triple)], expected);
        return;
      }
      if offer.None? { return None; }
      digest := EnsureDownload(eng, full, triple, offer.value, expected);
    }

    /** `cached` answers a hit from the digest recorded when the entry was unpacked. */
    method CheckCached(e: Entry, expected: string) returns (digest: Option<string>)
      requires e.hasBins
      ensures digest == Answered(sum, signing, Some(e), None, expected)
    {
      if expected != "" && e.digest != "" && e.digest != expected { return None; }
      return Some(e.digest);
    }
  }

  /** A success under a pinned digest used that digest, or a cache entry from before digests were recorded;
      a success without one used bytes the manifest vouched for, or the cache. */
  lemma EnsureHonoursPin(sum: Sum, signing: bool, cached: Option<Entry>, offer: Option<Offer>, expected: string)
    requires Answered(sum, signing, cached, offer, expected).Some?
    ensures
      var digest := Answered(sum, signing, cached, offer, expected).value;
      && (expected != "" ==> digest == expected || (digest == "" && Hit(cached) && cached.value.digest == ""))
      && (!Hit(cached) ==>
            offer.Some? && Verified(sum, signing, offer.value, expected)
              && digest == Digest(sum, offer.value.served.value))
  {
  }

  // ---- Pins over time

  /** A fetcher that answers a pinned digest with that digest, or with none for a cache entry that predates digests. */
  ghost predicate HonoursPins(f: Fetcher)
  {
    forall eng, full, triple, expected :: expected != "" && f.ensure(eng, full, triple, expected).Some? ==>
      f.ensure(eng, full, triple, expected).value.1 in {expected, ""}
  }

  /** The fetcher a Manager is while its cache and mirror are as `world` says, for each engine, version and triple. */
  function ManagerFetcher(sum: Sum, signing: bool, majors: (string, string) -> Option<string>,
                          world: (string, string, string) -> (Option<Entry>, Option<Offer>)): Fetcher
  {
    Fetcher(majors, (eng, full, triple, expected) =>
      var digest := Answered(sum, signing, world(eng, full, triple).0, world(eng, full, triple).1, expected);
      if digest.Some? then Some((eng + "/" + full + "-" + triple + "/bin", digest.value)) else None)
  }

  lemma ManagerHonoursPins(sum: Sum, signing: bool, majors: (string, string) -> Option<string>,
                           world: (string, string, string) -> (Option<Entry>, Option<Offer>))
    ensures HonoursPins(ManagerFetcher(sum, signing, majors, world))
  {
    var f := ManagerFetcher(sum, signing, majors, world);
    forall eng, full, triple, expected | expected != "" && f.ensure(eng, full, triple, expected).Some?
      ensures f.ensure(eng, full, triple, expected).value.1 in {expected, ""}
    {
      EnsureHonoursPin(sum, signing, world(eng, full, triple).0, world(eng, full, triple).1, expected);
    }
  }

  /** One ResolveVia on one platform; a failed one leaves the lock alone, and so does one that dereferences null. */
  datatype Call = Call(triple: string, req: Request)

  function Resolved(s: State, call: Call): State
  {
    var out := Outcome(Held(s.content, call.req.eng, call.req.spec), call.req, call.triple);
    if out.None? || NullAt(s.content, KeyOf(call.req)) then s
    else Apply(s, Record(call.req.eng, call.req.spec, out.value.1))
  }

  function ResolvedAll(s: State, calls: seq<Call>): State
  {
    if calls == [] then s else Resolved(ResolvedAll(s, calls[..|calls| - 1]), calls[|calls| - 1])
  }

  /** `q` says all that `p` says: the same version, and every hash `p` has. */
  ghost predicate Extends(p: Pin, q: Pin)
  {
    q.resolved == p.resolved && forall t :: Lookup(p.hashes, t) != "" ==> Lookup(q.hashes, t) == Lookup(p.hashes, t)
  }

  ghost predicate PinStays(before: State, after: State, eng: string, spec: string)
  {
    Held(before.content, eng, spec).Some? ==>
      && Held(after.content, eng, spec).Some?
      && Extends(Held(before.content, eng, spec).value, Held(after.content, eng, spec).value)
  }

  lemma CallKeepsPin(s: State, call: Call, eng: string, spec: string)
    requires HonoursPins(call.req.fetch)
    requires Held(s.content, eng, spec).Some? && Held(s.content, eng, spec).value.resolved != ""
    ensures PinStays(s, Resolved(s, call), eng, spec)
  {
    var out := Outcome(Held(s.content, call.req.eng, call.req.spec), call.req, call.triple);
    if out.Some? {
      RecordFrame(s, call.req.eng, call.req.spec, out.value.1);
    }
  }

  /** Over any run of calls on any platforms, with the mirror and the cache anything at each call: a version once
      pinned is pinned for good, and a hash once recorded for a triple never changes; hashes are only added. */
  lemma {:induction false} PinsAreStable(s: State, calls: seq<Call>, eng: string, spec: string)
    requires forall i :: 0 <= i < |calls| ==> HonoursPins(calls[i].req.fetch)
    requires Held(s.content, eng, spec).Some? && Held(s.content, eng, spec).value.resolved != ""
    ensures PinStays(s, ResolvedAll(s, calls), eng, spec)
  {
    if calls != [] {
      var init, last := calls[..|calls| - 1], calls[|calls| - 1];
      PinsAreStable(s, init, eng, spec);
      CallKeepsPin(ResolvedAll(s, init), last, eng, spec);
    }
  }

  // ---- The same of a Manager

  /** The request's fetcher is a Manager's, at some moment. */
  ghost predicate FromManager(sum: Sum, signing: bool, req: Request)
  {
    exists majors, world :: req.fetch == ManagerFetcher(sum, signing, majors, world)
  }

  lemma FromManagerHonours(sum: Sum, signing: bool, req: Request)
    requires FromManager(sum, signing, req)
    ensures HonoursPins(req.fetch)
  {
    var majors, world :| req.fetch == ManagerFetcher(sum, signing, majors, world);
    ManagerHonoursPins(sum, signing, majors, world);
  }

  /** Resolving through a Manager while the mirror and the cache change in any way between calls, a version once pinned
      and a hash once recorded stay. */
  lemma ManagerPinsAreStable(sum: Sum, signing: bool, s: State, calls: seq<Call>, eng: string, spec: string)
    requires forall i :: 0 <= i < |calls| ==> FromManager(sum, signing, calls[i].req)
    requires Held(s.content, eng, spec).Some? && Held(s.content, eng, spec).value.resolved != ""
    ensures PinStays(s, ResolvedAll(s, calls), eng, spec)
  {
    forall i | 0 <= i < |calls|
      ensures HonoursPins(calls[i].req.fetch)
    {
      FromManagerHonours(sum, signing, calls[i].req);
    }
    PinsAreStable(s, calls, eng, spec);
  }

  /** A success under a pinned hash answered that hash, or came from a cache entry from before digests were recorded. */
  lemma SuccessUnderPin(sum: Sum, signing: bool, s: State, call: Call)
    requires FromManager(sum, signing, call.req)
    requires Held(s.content, call.req.eng, call.req.spec).Some?
    requires
      var pin := Held(s.content, call.req.eng, call.req.spec).value;
      pin.resolved != "" && Lookup(pin.hashes, call.triple) != ""
    requires Outcome(Held(s.content, call.req.eng, call.req.spec), call.req, call.triple).Some?
    ensures
      var pin := Held(s.content, call.req.eng, call.req.spec).value;
      Outcome(Some(pin), call.req, call.triple).value.1.hashes in
        {map[], map[call.triple := Lookup(pin.hashes, call.triple)]}
  {
    FromManagerHonours(sum, signing, call.req);
  }

  /** A world in which the cache holds every artifact, with this digest recorded. */
  function Cached(digest: string): (string, string, string) -> (Option<Entry>, Option<Offer>)
  {
    (e, f, t) => (Some(Entry(true, digest)), None)
  }

  /** The fetcher answers this digest to whoever asks for it or for none; blank stands for an entry from before digests
      were recorded, which satisfies everybody. */
  ghost predicate AnswersWith(f: Fetcher, digest: string)
  {
    forall eng, full, triple, expected ::
      var got := f.ensure(eng, full, triple, expected);
      if expected != "" && digest != "" && digest != expected then got.None? else got.Some? && got.value.1 == digest
  }

  lemma CachedAnswers(sum: Sum, signing: bool, majors: (string, string) -> Option<string>, digest: string)
    ensures AnswersWith(ManagerFetcher(sum, signing, majors, Cached(digest)), digest)
    ensures ManagerFetcher(sum, signing, majors, Cached(digest)).resolveMajor == majors
  {
    var f := ManagerFetcher(sum, signing, majors, Cached(digest));
    forall eng, full, triple, expected ensures
      var got := f.ensure(eng, full, triple, expected);
      if expected != "" && digest != "" && digest != expected then got.None? else got.Some? && got.value.1 == digest
    {
      assert Cached(digest)(eng, full, triple) == (Some(Entry(true, digest)), None);
    }
  }

  ghost predicate SafeInProcess(sum: Sum, signing: bool, s: State, eng: string, spec: string)
  {
    forall call: Call :: FromManager(sum, signing, call.req) && call.req.eng == eng && call.req.spec == spec ==>
      PinStays(s, Resolved(s, call), eng, spec)
  }

  /** A pin with a recorded hash is safe from every later call in process exactly when its version is not blank: a blank
      version, which a mirror may map a major to, is resolved afresh each time and its hash is not enforced. */
  lemma PinSafeExactly(sum: Sum, signing: bool, s: State, eng: string, spec: string, triple: string)
    requires Held(s.content, eng, spec).Some? && Lookup(Held(s.content, eng, spec).value.hashes, triple) != ""
    ensures Held(s.content, eng, spec).value.resolved != "" <==> SafeInProcess(sum, signing, s, eng, spec)
    ensures Held(s.content, eng, spec).value.resolved != "" ==>
      forall call: Call :: HonoursPins(call.req.fetch) ==> PinStays(s, Resolved(s, call), eng, spec)
  {
    var p := Held(s.content, eng, spec).value;
    if p.resolved != "" {
      forall call: Call | HonoursPins(call.req.fetch) ensures PinStays(s, Resolved(s, call), eng, spec) {
        CallKeepsPin(s, call, eng, spec);
      }
      forall call: Call | FromManager(sum, signing, call.req) ensures HonoursPins(call.req.fetch) {
        FromManagerHonours(sum, signing, call.req);
      }
    } else {
      var call := BlankPinMoves(sum, signing, s, eng, spec, triple);
    }
  }

  lemma BlankPinMoves(sum: Sum, signing: bool, s: State, eng: string, spec: string, triple: string) returns (call: Call)
    requires Held(s.content, eng, spec).Some? && Held(s.content, eng, spec).value.resolved == ""
    requires Lookup(Held(s.content, eng, spec).value.hashes, triple) != ""
    ensures FromManager(sum, signing, call.req) && call.req.eng == eng && call.req.spec == spec
    ensures !PinStays(s, Resolved(s, call), eng, spec)
  {
    var p := Held(s.content, eng, spec).value;
    var other := Lookup(p.hashes, triple) + "x";
    var majors := (e: string, m: string) => Some("");
    call := Call(triple, Request(eng, spec, None, ManagerFetcher(sum, signing, majors, Cached(other))));
    CachedAnswers(sum, signing, majors, other);
    assert FromManager(sum, signing, call.req);
    var out := Outcome(Some(p), call.req, triple);
    assert out.Some? && out.value.1 == Pin("", "mirror", map[triple := other]);
    RecordFrame(s, eng, spec, out.value.1);
    assert Lookup(MergePin(Some(p), out.value.1).hashes, triple) == other;
    assert !PinStays(s, Resolved(s, call), eng, spec);
  }
}
