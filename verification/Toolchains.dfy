/** One entry of the toolchain cache, one process at a time, which may die between any two steps
    (binaries/binaries.go). */
module Toolchains {
  import opened GoStrings
  import opened Binaries

  /** What lies under a directory: each path in it, with what is there. */
  type Tree = map<string, string>

  /** SHA-256 in hex; what unpacking makes of an archive's bytes, None when it fails; and the tree once the directory
      its bin lies in has been moved up, None when it has no bin. All three are arbitrary functions. `signing` says
      whether signatures are asked for. */
  datatype Env = Env(sum: Sum, signing: bool, unpack: string -> Option<Tree>, layout: Tree -> Option<Tree>)

  /** A directory and the digest recorded in it, "" for none. */
  datatype Dir = Dir(tree: Tree, digest: string)

  datatype Answer = Got(tree: Tree, digest: string) | Failed | Crashed

  predicate HasBins(tree: Tree)
  {
    exists path :: path in tree && "bin/" <= path
  }

  predicate Usable(entry: Option<Dir>) { entry.Some? && HasBins(entry.value.tree) }

  /** Where a call can die, in the order it gets there. */
  datatype Point = Fetching | Unpacking | Recording | Removing | Leaving

  /** What befalls a call: whether what an earlier one left is removed, whether the file system lets the archive be
      unpacked and its bin moved up, how much of the digest record gets written, whether the new directory can be put in
      the old one's place, and where it dies, if it does. Nobody looks at failures of removing, moving and recording. */
  datatype Luck = Luck(sweeps: bool, unpacks: bool, moves: bool, records: nat, installs: bool, dies: Option<Point>) {
    predicate DiesAt(p: Point) { dies.Some? && dies.value == p }
  }

  /** One call: the pin, what the mirror gave, its luck, what an earlier call had left where the archive was unpacked,
      what came of it, and whether it got to put a new directory in the entry's place. */
  datatype Try = Try(
    expected: string, sha256: string, served: Option<string>, signed: bool, luck: Luck, stale: Option<Dir>,
    answer: Answer, installed: bool)

  /** Nothing was in the way, and nothing failed unnoticed but perhaps the record of the digest. */
  predicate Smooth(c: Try) { c.stale.None? && c.luck.moves }

  function Under(stale: Option<Dir>): Tree { if stale.Some? then stale.value.tree else map[] }

  /** The tree is the whole unpacking of these bytes, its bin moved up. */
  predicate Whole(env: Env, tree: Tree, bytes: string)
  {
    env.unpack(bytes).Some? && env.layout(env.unpack(bytes).value) == Some(tree)
  }

  /** What is left of a directory when its removal stops midway. */
  ghost predicate Remains(before: Option<Dir>, after: Option<Dir>)
  {
    after.Some? ==>
      && before.Some? && after.value.tree.Keys <= before.value.tree.Keys
      && after.value.digest in {before.value.digest, ""}
  }

  function FromCache(d: Dir, expected: string): Answer
  {
    if expected != "" && d.digest != "" && d.digest != expected then Failed else Got(d.tree, d.digest)
  }

  /** What the mirror gave for the call, as the Manager sees it. */
  function Given(c: Try): Offer
  {
    Offer(c.sha256, c.served, c.signed, false, c.luck.records, c.luck.installs, false)
  }

  /** The bytes pass, and unpack over what was there to a tree with a bin directory. */
  predicate Unpacks(env: Env, c: Try)
  {
    && Verified(env.sum, env.signing, Given(c), c.expected) && c.luck.unpacks
    && env.unpack(c.served.value).Some? && env.layout(Under(c.stale) + env.unpack(c.served.value).value).Some?
  }

  /** A call installs exactly what unpacks and can be installed, if it lives that long. */
  predicate Installs(env: Env, c: Try)
  {
    Unpacks(env, c) && c.luck.installs && (c.luck.dies.None? || c.luck.DiesAt(Leaving))
  }

  /** What one call does to the entry. */
  ghost predicate Effect(env: Env, before: Option<Dir>, c: Try, after: Option<Dir>)
  {
    if Usable(before) then
      after == before && !c.installed && c.answer == FromCache(before.value, c.expected)
    else
      && (c.installed <==> Installs(env, c))
      && (if c.installed then after.Some? && Made(env, c, after.value) else Remains(before, after))
      && (c.answer.Got? <==> c.installed && c.luck.dies.None? && HasBins(after.value.tree))
      && (c.answer.Got? ==> c.answer == Got(after.value.tree, Digest(env.sum, c.served.value)))
      && (c.answer.Crashed? ==> c.luck.dies.Some?)
      && (!Unpacks(env, c) ==> after == before)
  }

  /** The directory made of the bytes: unpacked over what was there, its bin moved up, under a record of their digest of
      which the writing may have failed part of the way. */
  ghost predicate Made(env: Env, c: Try, d: Dir)
    requires Unpacks(env, c)
  {
    && (c.luck.moves ==> env.layout(Under(c.stale) + env.unpack(c.served.value).value) == Some(d.tree))
    && (Smooth(c) ==> Whole(env, d.tree, c.served.value) && d.digest == Recorded(env.sum, Given(c)))
  }

  class Place {
    const env: Env
    var dir: Option<Dir>     // <home>/<engine>/<version>-<triple>
    var tmp: Option<Dir>     // the same with .tmp

    constructor (env: Env)
      ensures this.env == env && dir == None
    {
      this.env, dir, tmp := env, None, None;
    }

    /** os.RemoveAll of the directory, which may fail or die midway. */
    method RemoveDir()
      modifies this`dir
      ensures Remains(old(dir), dir)
    {
      var all: bool, gone: set<string>, keep: bool := *, *, *;
      if all {
        dir := None;
      } else if dir.Some? {
        dir := Some(Dir(dir.value.tree - gone, if keep then dir.value.digest else ""));
      }
    }

    /** Ensure and ensureDownload. `sha256`, `served` and `signed` are the mirror's, `served` None for an error. */
    method Ensure(sha256: string, served: Option<string>, signed: bool, expected: string, luck: Luck)
      returns (r: Answer, ghost c: Try)
      modifies this`dir, this`tmp
      ensures Effect(env, old(dir), c, dir)
      ensures (c.sha256, c.served, c.signed, c.expected, c.luck) == (sha256, served, signed, expected, luck)
        && c.answer == r
      ensures luck.sweeps ==> c.stale.None?
    {
      c := Try(expected, sha256, served, signed, luck, None, Failed, false);
      var offer := Offer(sha256, served, signed, false, luck.records, luck.installs, false);
      if dir.Some? && HasBins(dir.value.tree) {
        r := FromCache(dir.value, expected);
        c := c.(answer := r);
        return;
      }
      if luck.DiesAt(Fetching) { return Crashed, c.(answer := Crashed); }
      if !Verified(env.sum, env.signing, offer, expected) { return Failed, c; }
      r, c := Unpack(served.value, luck, c);
    }

    /** The rest of ensureDownload, once the bytes are verified. */
    method Unpack(served: string, luck: Luck, ghost asked: Try) returns (r: Answer, ghost c: Try)
      requires !Usable(dir) && asked.served == Some(served) && asked.luck == luck && !luck.DiesAt(Fetching)
      requires Verified(env.sum, env.signing, Given(asked), asked.expected)
      modifies this`dir, this`tmp
      ensures Effect(env, old(dir), c, dir)
      ensures c == asked.(stale := c.stale, answer := r, installed := c.installed)
      ensures luck.sweeps ==> c.stale.None?
    {
      var stale, ok := Extract(served, luck);
      c := asked.(stale := stale, answer := Failed, installed := false);
      if luck.DiesAt(Unpacking) { return Crashed, c.(answer := Crashed); }
      if !ok { return Failed, c; }
      WriteRecord(served, luck.records, stale);
      r, c := Install(served, luck, c);
    }

    /** Clear the way, unpack, and move the bin up. */
    method Extract(served: string, luck: Luck) returns (ghost stale: Option<Dir>, ok: bool)
      modifies this`tmp
      ensures luck.sweeps ==> stale.None?
      ensures ok <==>
        && luck.unpacks && env.unpack(served).Some?
        && env.layout(Under(stale) + env.unpack(served).value).Some?
      ensures ok ==> tmp.Some? && (stale.None? ==> tmp.value.digest == "")
      ensures ok && luck.moves ==> env.layout(Under(stale) + env.unpack(served).value) == Some(tmp.value.tree)
      ensures ok && luck.moves && stale.None? ==> Whole(env, tmp.value.tree, served)
    {
      if luck.sweeps { tmp := None; } else { tmp := *; }
      var left := tmp;
      stale, ok := left, false;
      var files := env.unpack(served);
      if files.None? || !luck.unpacks { tmp := *; return; }
      tmp := Some(Dir(Under(left) + files.value, if left.Some? then left.value.digest else ""));
      var tree := env.layout(tmp.value.tree);
      if tree.None? { return; }
      assert left.None? ==> tmp.value.tree == files.value;
      var some: Tree := *;                             // renames that fail go unnoticed
      tmp := Some(tmp.value.(tree := if luck.moves then tree.value else some));
      ok := true;
    }

    /** writeShaMeta: writing the record may fail at any point, unnoticed. */
    method WriteRecord(served: string, records: nat, ghost stale: Option<Dir>)
      requires tmp.Some? && (stale.None? ==> tmp.value.digest == "")
      modifies this`tmp
      ensures tmp.Some? && tmp.value.tree == old(tmp).value.tree
      ensures stale.None? ==> tmp.value.digest == Written(Digest(env.sum, served), records)
    {
      var digest := Digest(env.sum, served);
      if records != 0 { tmp := Some(tmp.value.(digest := Written(digest, records))); }
      assert records == 0 ==> Written(digest, records) == "";
    }

    /** From removing the old directory on: the new one takes its place. */
    method Install(served: string, luck: Luck, ghost asked: Try) returns (r: Answer, ghost c: Try)
      requires !Usable(dir) && tmp.Some? && asked.answer.Failed? && !asked.installed
      requires asked.served == Some(served) && asked.luck == luck && !luck.DiesAt(Fetching) && !luck.DiesAt(Unpacking)
      requires Unpacks(env, asked) && Made(env, asked, tmp.value)
      modifies this`dir, this`tmp
      ensures Effect(env, old(dir), c, dir)
      ensures c == asked.(answer := r, installed := c.installed)
    {
      c := asked;
      if luck.DiesAt(Recording) { return Crashed, c.(answer := Crashed); }
      RemoveDir();
      if luck.DiesAt(Removing) { return Crashed, c.(answer := Crashed); }
      if !luck.installs {                              // the parent directory, or a rename onto what is left
        if luck.dies.Some? { return Crashed, c.(answer := Crashed); }
        return Failed, c;
      }
      dir, tmp := tmp, None;                           // the atomic rename
      c := c.(installed := true);
      if luck.dies.Some? { return Crashed, c.(answer := Crashed); }
      if !HasBins(dir.value.tree) { return Failed, c; }
      r := Got(dir.value.tree, Digest(env.sum, served));
      c := c.(answer := r);
    }
  }

  // ---- Whole lives of an entry

  /** The entry before, between and after a sequence of calls, crashed ones included, starting from nothing. */
  ghost predicate Life(env: Env, dirs: seq<Option<Dir>>, calls: seq<Try>)
  {
    && |dirs| == |calls| + 1 && dirs[0] == None
    && forall i :: 0 <= i < |calls| ==> Effect(env, dirs[i], calls[i], dirs[i + 1])
  }

  /** What the cache offers was put there, as it is, by one call whose bytes passed its checks; where that call
      was smooth it is their whole unpacking, under the part of their digest that got written: all of it exactly
      when all of it was. */
  lemma {:induction false} HitHasOrigin(env: Env, dirs: seq<Option<Dir>>, calls: seq<Try>, i: nat) returns (k: nat)
    requires Life(env, dirs, calls) && i < |dirs| && Usable(dirs[i])
    ensures k < i && calls[k].installed && Unpacks(env, calls[k]) && Made(env, calls[k], dirs[i].value)
    ensures forall m :: k < m <= i ==> dirs[m] == dirs[i]
    ensures Smooth(calls[k]) ==>
      && Whole(env, dirs[i].value.tree, calls[k].served.value)
      && dirs[i].value.digest <= Digest(env.sum, calls[k].served.value)
      && (dirs[i].value.digest == Digest(env.sum, calls[k].served.value) <==>
            calls[k].luck.records >= |Digest(env.sum, calls[k].served.value)|)
  {
    assert Effect(env, dirs[i - 1], calls[i - 1], dirs[i]);
    if Usable(dirs[i - 1]) {
      k := HitHasOrigin(env, dirs, calls, i - 1);
    } else {
      k := i - 1;
    }
  }

  lemma {:induction false} UsableIsForGood(env: Env, dirs: seq<Option<Dir>>, calls: seq<Try>, i: nat, j: nat)
    requires Life(env, dirs, calls) && i <= j < |dirs| && Usable(dirs[i])
    ensures dirs[j] == dirs[i]
    decreases j
  {
    if i < j {
      UsableIsForGood(env, dirs, calls, i, j - 1);
      assert Effect(env, dirs[j - 1], calls[j - 1], dirs[j]);
    }
  }

  /** A success hands out what one call, itself or an earlier one, made of bytes that passed its checks; it answers
      their digest or, from a torn record, a part of it, and under a pin nothing but the pin or a blank. */
  lemma SuccessHasOrigin(env: Env, dirs: seq<Option<Dir>>, calls: seq<Try>, i: nat) returns (k: nat)
    requires Life(env, dirs, calls) && i < |calls| && calls[i].answer.Got?
    ensures k <= i && calls[k].installed && Verified(env.sum, env.signing, Given(calls[k]), calls[k].expected)
    ensures calls[i].expected != "" ==> calls[i].answer.digest in {calls[i].expected, ""}
    ensures Smooth(calls[k]) ==>
      && Whole(env, calls[i].answer.tree, calls[k].served.value)
      && calls[i].answer.digest <= Digest(env.sum, calls[k].served.value)
  {
    assert Effect(env, dirs[i], calls[i], dirs[i + 1]);
    if Usable(dirs[i]) { k := HitHasOrigin(env, dirs, calls, i); } else { k := i; }
  }

  /** Whatever the entry has been through, a call with nothing in its way succeeds exactly when the entry has files in
      bin and a record, if any, that the pin, if any, agrees with; or it has none, the bytes pass and unpack to files in
      bin, and the call lives and can unpack and install them. */
  lemma SuccessExactly(env: Env, dirs: seq<Option<Dir>>, calls: seq<Try>, i: nat)
    requires Life(env, dirs, calls) && i < |calls| && Smooth(calls[i])
    ensures
      var c := calls[i];
      c.answer.Got? <==>
        if Usable(dirs[i]) then c.expected == "" || dirs[i].value.digest in {"", c.expected}
        else
          && Verified(env.sum, env.signing, Given(c), c.expected) && HasUsableUnpacking(env, c.served.value)
          && c.luck.unpacks && c.luck.installs && c.luck.dies.None?
  {
    assert Effect(env, dirs[i], calls[i], dirs[i + 1]);
    if calls[i].served.Some? && env.unpack(calls[i].served.value).Some? {
      assert map[] + env.unpack(calls[i].served.value).value == env.unpack(calls[i].served.value).value;
    }
  }

  predicate HasUsableUnpacking(env: Env, bytes: string)
  {
    && env.unpack(bytes).Some? && env.layout(env.unpack(bytes).value).Some?
    && HasBins(env.layout(env.unpack(bytes).value).value)
  }

  /** So with digests all of one length, a success that answers a whole digest under a pin runs bytes with
      that very digest. */
  lemma PinnedSuccess(env: Env, dirs: seq<Option<Dir>>, calls: seq<Try>, i: nat) returns (k: nat)
    requires Life(env, dirs, calls) && i < |calls| && calls[i].answer.Got?
    requires forall b, c :: |env.sum(b)| == |env.sum(c)|
    requires forall j :: 0 <= j < |calls| ==> Smooth(calls[j])
    requires calls[i].answer.digest != "" && exists b :: calls[i].expected == Digest(env.sum, b)
    ensures k <= i && Verified(env.sum, env.signing, Given(calls[k]), calls[k].expected)
    ensures Whole(env, calls[i].answer.tree, calls[k].served.value)
    ensures Digest(env.sum, calls[k].served.value) == calls[i].expected
  {
    k := SuccessHasOrigin(env, dirs, calls, i);
    var b :| calls[i].expected == Digest(env.sum, b);
    assert |env.sum(b)| == |env.sum(calls[k].served.value)|;
  }

  /** A smooth call that does not die is the Manager's one step. */
  lemma RefinesManager(env: Env, before: Option<Dir>, c: Try, after: Option<Dir>, at: At)
    requires Effect(env, before, c, after) && c.luck.dies.None? && Smooth(c)
    ensures
      var offer := Given(c).(unpacks := Unpacks(env, c), hasBins := after.Some? && HasBins(after.value.tree));
      var cache := if Usable(before) then map[at := Seen(before.value)] else map[];
      var cached := if Usable(before) then Some(Seen(before.value)) else None;
      var now := if Usable(before) then cache else Unpacked(env.sum, env.signing, cache, at, offer, c.expected);
      && (if c.answer.Got? then Some(c.answer.digest) else None) ==
        Answered(env.sum, env.signing, cached, Some(offer), c.expected)
      && (Usable(after) <==> at in now && now[at].hasBins) && (Usable(after) ==> now[at] == Seen(after.value))
  {
  }

  function Seen(d: Dir): Entry { Entry(HasBins(d.tree), d.digest) }

  // ---- What is left in the way

  /** Unpacking over what could not be removed gives the archive's own files exactly when its paths
      cover all of that. */
  lemma OverlayExactly(stale: Tree, files: Tree)
    ensures stale + files == files <==> stale.Keys <= files.Keys
  {
    if stale.Keys <= files.Keys { assert (stale + files).Keys == files.Keys; }
  }

  /** A call dies while unpacking, what it left cannot be removed, and the next one caches a mixture: a
      hit from then on. */
  lemma LeftoversMix() returns (env: Env, dirs: seq<Option<Dir>>, calls: seq<Try>)
    ensures Life(env, dirs, calls) && |dirs| == 3 && Usable(dirs[2]) &&
      forall bytes :: !Whole(env, dirs[2].value.tree, bytes)
  {
    var tool := map["bin/tool" := "1"];
    env := Env(b => b, false, b => Some(tool), t => Some(t));
    var mixed := Dir(map["old" := "0"] + tool, "sha256:a");
    var luck := Luck(false, true, true, 8, true, None);
    dirs := [None, None, Some(mixed)];
    calls := [Try("", "a", Some("a"), false, luck.(dies := Some(Unpacking)), None, Crashed, false),
              Try("", "a", Some("a"), false, luck, Some(Dir(map["old" := "0"], "")), Got(mixed.tree, "sha256:a"),
                true)];
    assert "bin/tool" in mixed.tree && "bin/" <= "bin/tool";
    assert "old" in mixed.tree && "old" !in tool;
  }
}
