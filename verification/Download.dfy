/** The download cache, one process at a time, which may die between any two steps (binaries/download.go). */
module Download {
  import opened GoStrings

  /** Unpacked contents, whole or partial. */
  type Tree = seq<(string, string)>

  /** SHA-256 in hex, and what unpacking makes of an archive's bytes: None when it fails. Both are
      arbitrary functions. */
  datatype Env = Env(sum: string -> string, unpack: string -> Option<Tree>)

  /** A directory of the cache: the downloaded file, the unpacked root and the recorded digest, each perhaps missing. */
  datatype Dir = Dir(file: Option<string>, root: Option<Tree>, digest: string)

  datatype Answer =
    | Got(tree: Option<Tree>, digest: string)
    | Refused      // the digest is not the pinned one
    | Failed       // the network, the archive or the file system
    | Crashed

  /** Where a call can be hit, in the order it gets there. */
  datatype Point = Clearing | Streaming | Unpacking | Recording | Renaming | Leaving

  /** What befalls a call: nothing, a failure of the file system or the network at some point, or its death there. */
  datatype Luck = Fine | Fails(at: Point) | Dies(there: Point) {
    predicate Failing(p: Point) { Fails? && at == p }

    predicate Dying(p: Point) { Dies? && there == p }
  }

  /** Luck that costs nothing: a record that cannot be written goes unnoticed, and on leaving there is
      nothing left to fail. */
  predicate Harmless(luck: Luck)
  {
    luck.Fine? || luck.Failing(Recording) || luck.Failing(Leaving)
  }

  function DigestOf(env: Env, bytes: string): string { "sha256:" + env.sum(bytes) }

  /** The tree is the whole unpacking of some bytes that have this digest. */
  ghost predicate Genuine(env: Env, tree: Option<Tree>, digest: string)
  {
    exists bytes :: DigestOf(env, bytes) == digest && tree.Some? && env.unpack(bytes) == tree
  }

  /** A cache entry that has a digest recorded holds the whole unpacking of bytes with that digest. */
  ghost predicate Sound(env: Env, entry: Option<Dir>)
  {
    entry.Some? && entry.value.digest != "" ==> Genuine(env, entry.value.root, entry.value.digest)
  }

  predicate Recorded(entry: Option<Dir>) { entry.Some? && entry.value.digest != "" }

  /** What is left of a directory when its removal stops midway: each of its parts, some of it, or none. */
  ghost predicate Remains(d: Option<Dir>, left: Option<Dir>)
  {
    left.Some? ==> d.Some? && left.value.digest in {d.value.digest, ""}
  }

  /** The bytes arrived, are the pinned ones if there is a pin, and unpack. */
  predicate Usable(env: Env, expected: string, served: Option<string>)
  {
    && served.Some? && (expected != "" ==> DigestOf(env, served.value) == expected)
    && env.unpack(served.value).Some?
  }

  predicate Mismatched(env: Env, expected: string, served: Option<string>)
  {
    served.Some? && expected != "" && DigestOf(env, served.value) != expected
  }

  /** One call: what it expected, what the URL served, what befell it, what came of it, and whether
      it began to unpack. */
  datatype Call = Call(expected: string, served: Option<string>, luck: Luck, answer: Answer, unpacked: bool)

  /** A call on an entry with a record answers from it, and nothing can befall it. */
  ghost predicate HitEffect(before: Dir, c: Call)
  {
    !c.unpacked && c.answer == if c.expected in {"", before.digest} then Got(before.root, before.digest) else Refused
  }

  /** A call on any other: it succeeds exactly when the bytes are usable and its luck harmless, is refused just for
      bytes that are not the pinned ones, and dies only if its luck says so. */
  ghost predicate MissEffect(env: Env, before: Option<Dir>, c: Call, after: Option<Dir>)
  {
    && (c.answer.Got? <==> Usable(env, c.expected, c.served) && Harmless(c.luck))
    && (c.answer.Got? ==>
          && c.answer == Got(env.unpack(c.served.value), DigestOf(env, c.served.value))
          && after == Some(Dir(None, c.answer.tree, if c.luck.Failing(Recording) then "" else c.answer.digest)))
    && (c.answer.Refused? ==> Mismatched(env, c.expected, c.served))
    && (c.luck.Fine? && Mismatched(env, c.expected, c.served) ==> c.answer.Refused?)
    && (c.answer.Crashed? ==> c.luck.Dies?)
    && (c.unpacked ==> c.served.Some? && !Mismatched(env, c.expected, c.served))
    && (!c.unpacked ==> after == before)
    && (!c.answer.Got? ==>
          || Remains(before, after)
          || (c.luck.Dying(Leaving) && Usable(env, c.expected, c.served)
              && after == Some(Dir(None, env.unpack(c.served.value), DigestOf(env, c.served.value)))))
  }

  /** What one call does to the entry. */
  ghost predicate Effect(env: Env, before: Option<Dir>, c: Call, after: Option<Dir>)
  {
    if Recorded(before) then after == before && HitEffect(before.value, c) else MissEffect(env, before, c, after)
  }

  class Cache {
    const env: Env
    var entry: Option<Dir>     // <home>/downloads/<key of the URL>
    var tmp: Option<Dir>       // the same with .tmp
    ghost var unpacks: nat     // how many archives have begun to be unpacked

    constructor (env: Env)
      ensures this.env == env && entry == None && unpacks == 0
    {
      this.env, entry, tmp, unpacks := env, None, None, 0;
    }

    /** What is left of the entry when its removal stops midway. */
    method RemoveSome()
      modifies this`entry
      ensures Remains(old(entry), entry)
    {
      var left: Option<Tree>, file: Option<string>, keep: bool, any: bool := *, *, *, *;
      entry := if any && entry.Some? then Some(Dir(file, left, if keep then entry.value.digest else "")) else None;
    }

    /** EnsureDownload. `served` is what the URL gives this time, None for an error. */
    method EnsureDownload(expected: string, served: Option<string>, luck: Luck) returns (r: Answer)
      modifies this`entry, this`tmp, this`unpacks
      ensures Effect(env, old(entry), Call(expected, served, luck, r, unpacks > old(unpacks)), entry)
    {
      if entry.Some? && entry.value.digest != "" {
        if expected != "" && entry.value.digest != expected { return Refused; }
        return Got(entry.value.root, entry.value.digest);
      }
      tmp := *;
      if luck.Dying(Clearing) { return Crashed; }
      if luck.Failing(Clearing) { return Failed; }
      tmp := Some(Dir(None, None, ""));
      if luck.Dying(Leaving) {
        var _ := Fetch(expected, served, Fine);
        tmp := *;                                                   // the deferred removal, midway
        return Crashed;
      }
      r := Fetch(expected, served, luck);
      if !r.Crashed? { tmp := None; }                               // the deferred removal
    }

    /** The rest of EnsureDownload, once tmp is a fresh directory. */
    method Fetch(expected: string, served: Option<string>, luck: Luck) returns (r: Answer)
      requires tmp == Some(Dir(None, None, "")) && !Recorded(entry)
      requires !luck.Failing(Clearing) && !luck.Dying(Clearing) && !luck.Dying(Leaving)
      modifies this`entry, this`tmp, this`unpacks
      ensures MissEffect(env, old(entry), Call(expected, served, luck, r, unpacks > old(unpacks)), entry)
    {
      tmp := *;                                                     // some of the bytes
      if luck.Dying(Streaming) { return Crashed; }
      if luck.Failing(Streaming) || served.None? { return Failed; }
      var digest := "sha256:" + env.sum(served.value);
      if expected != "" && digest != expected { return Refused; }
      unpacks := unpacks + 1;
      if luck.Dying(Unpacking) { return Crashed; }
      var tree := env.unpack(served.value);
      if luck.Failing(Unpacking) || tree.None? { return Failed; }
      tmp := Some(Dir(None, tree, if luck.Failing(Recording) then "" else digest));
      if luck.Dying(Recording) { return Crashed; }
      RemoveSome();
      if luck.Dying(Renaming) { return Crashed; }
      if luck.Failing(Renaming) { return Failed; }                 // onto what is left
      entry, tmp := tmp, None;                                      // the atomic rename
      return Got(entry.value.root, digest);
    }
  }

  // ---- Whole lives of a cache

  /** A cache's entry before, between and after a sequence of calls, crashed ones included, starting from nothing. */
  ghost predicate Life(env: Env, entries: seq<Option<Dir>>, calls: seq<Call>)
  {
    && |entries| == |calls| + 1 && entries[0] == None
    && forall i :: 0 <= i < |calls| ==> Effect(env, entries[i], calls[i], entries[i + 1])
  }

  lemma EffectKeepsSound(env: Env, before: Option<Dir>, c: Call, after: Option<Dir>)
    requires Effect(env, before, c, after) && Sound(env, before)
    ensures Sound(env, after)
  {
    if !Recorded(before) && Usable(env, c.expected, c.served) {
      assert DigestOf(env, c.served.value) == DigestOf(env, c.served.value);
    }
  }

  /** However often it crashed, the cache never shows a digest over anything but the whole unpacking of such bytes. */
  lemma {:induction false} AlwaysSound(env: Env, entries: seq<Option<Dir>>, calls: seq<Call>, i: nat)
    requires Life(env, entries, calls) && i < |entries|
    ensures Sound(env, entries[i])
  {
    if i > 0 {
      AlwaysSound(env, entries, calls, i - 1);
      EffectKeepsSound(env, entries[i - 1], calls[i - 1], entries[i]);
    }
  }

  /** An entry with a recorded digest is there for good. */
  lemma {:induction false} EntryIsForGood(env: Env, entries: seq<Option<Dir>>, calls: seq<Call>, i: nat, j: nat)
    requires Life(env, entries, calls) && i <= j < |entries| && Recorded(entries[i])
    ensures entries[j] == entries[i]
    decreases j
  {
    if i < j {
      EntryIsForGood(env, entries, calls, i, j - 1);
      assert Effect(env, entries[j - 1], calls[j - 1], entries[j]);
    }
  }

  /** Whatever the cache has been through, a call succeeds exactly when its entry has a record that the pin, if there is
      one, agrees with; or it has none, the bytes are usable and nothing that matters befalls the call. It answers that
      record, or the digest of those bytes. */
  lemma SuccessExactly(env: Env, entries: seq<Option<Dir>>, calls: seq<Call>, i: nat)
    requires Life(env, entries, calls) && i < |calls|
    ensures
      var before, c := entries[i], calls[i];
      && (c.answer.Got? <==>
            if Recorded(before) then c.expected in {"", before.value.digest}
            else Usable(env, c.expected, c.served) && Harmless(c.luck))
      && (c.answer.Got? ==>
            c.answer.digest == if Recorded(before) then before.value.digest else "sha256:" + env.sum(c.served.value))
      && (c.answer.Refused? ==>
            if Recorded(before) then c.expected !in {"", before.value.digest}
            else Mismatched(env, c.expected, c.served))
      && (c.answer.Crashed? ==> c.luck.Dies?)
  {
    assert Effect(env, entries[i], calls[i], entries[i + 1]);
  }

  /** A success that could write its record is had by every later call with the same pin or none, and
      refuses any other. */
  lemma FetchedOnce(env: Env, entries: seq<Option<Dir>>, calls: seq<Call>, i: nat, j: nat)
    requires Life(env, entries, calls) && i < j < |calls| && calls[i].answer.Got? && !calls[i].luck.Failing(Recording)
    requires calls[i].answer.digest != ""
    ensures calls[j].answer == if calls[j].expected in {"", calls[i].answer.digest} then calls[i].answer else Refused
  {
    assert Effect(env, entries[i], calls[i], entries[i + 1]);
    EntryIsForGood(env, entries, calls, i + 1, j);
    assert Effect(env, entries[j], calls[j], entries[j + 1]);
  }

  ghost predicate Injective(sum: string -> string)
  {
    forall a, b :: sum(a) == sum(b) ==> a == b
  }

  lemma SuccessIsGenuine(env: Env, entries: seq<Option<Dir>>, calls: seq<Call>, i: nat)
    requires Life(env, entries, calls) && i < |calls| && calls[i].answer.Got?
    ensures Genuine(env, calls[i].answer.tree, calls[i].answer.digest)
    ensures calls[i].expected != "" ==> calls[i].answer.digest == calls[i].expected
  {
    AlwaysSound(env, entries, calls, i);
    assert Effect(env, entries[i], calls[i], entries[i + 1]);
    if !Recorded(entries[i]) { assert DigestOf(env, calls[i].served.value) == calls[i].answer.digest; }
  }

  /** Two machines, whatever their caches have been through, that both succeed under one pin run the same files:
      the unpacking of the same bytes, as a cold fetch of those bytes would give. */
  lemma SharedPinSameFiles(
    env: Env, pin: string, es: seq<Option<Dir>>, cs: seq<Call>, i: nat, fs: seq<Option<Dir>>, ds: seq<Call>, j: nat)
    returns (bytes: string)
    requires Injective(env.sum) && pin != ""
    requires Life(env, es, cs) && i < |cs| && cs[i].expected == pin && cs[i].answer.Got?
    requires Life(env, fs, ds) && j < |ds| && ds[j].expected == pin && ds[j].answer.Got?
    ensures DigestOf(env, bytes) == pin && cs[i].answer.tree.Some? && env.unpack(bytes) == cs[i].answer.tree
    ensures cs[i].answer.tree == ds[j].answer.tree
  {
    SuccessIsGenuine(env, es, cs, i);
    SuccessIsGenuine(env, fs, ds, j);
    bytes :| DigestOf(env, bytes) == pin && cs[i].answer.tree.Some? && env.unpack(bytes) == cs[i].answer.tree;
    var others :| DigestOf(env, others) == pin && env.unpack(others) == ds[j].answer.tree;
    assert DigestOf(env, bytes)[7..] == env.sum(bytes) && DigestOf(env, others)[7..] == env.sum(others);
  }
}
