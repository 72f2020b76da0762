/** Publishing into a module's index (modtool/modtool.go). */
module Publishing {
  import opened GoStrings
  import opened Versions
  import opened ModIndex

  const SCHEMA: int := 1

  /** What the SDK a module is built with stamps into a release (plugin/proto/version.go). */
  datatype Sdk = Sdk(protocol: int, minHost: string)

  datatype Module = Module(name: string, version: string, namespace: string, describes: seq<string>)

  /** index.yaml: missing, not an index at all, or what YAML reads from it. */
  datatype Stored = Absent | Unreadable | Readable(idx: Index)

  /** What comes of writing the file: it is written in place, so a write that fails on the way leaves anything. */
  datatype Write = Done | Unwritten | Torn(left: Stored)

  /** One call of mergeIndex: a module archive for one platform triple, built with some SDK. */
  datatype Job = Job(m: Module, sdk: Sdk, triple: string, archive: string, sha: string, write: Write)

  /** modindex.Parse. */
  function Parse(f: Stored): Option<Index>
  {
    if f.Readable? && f.idx.schema == SCHEMA && f.idx.moduleName != "" then Some(f.idx) else None
  }

  /** Two hex digests that differ in letter case at most. */
  predicate SameDigest(a: string, b: string) { Lower(a) == Lower(b) }

  // ---- engineMajors

  function Major(spec: string): string
  {
    var before := Cut(spec, '.').0;
    if before == "" then spec else before
  }

  /** The text up to the first dot, when there is some before it. */
  lemma MajorExact(head: string, tail: string)
    requires '.' !in head
    ensures Major(head) == head
    ensures Major(head + "." + tail) == if head == "" then "." + tail else head
  {
    CutPlain(head, '.');
    CutJoin(head, '.', tail);
    assert head + "." + tail == head + ['.'] + tail;
  }

  lemma {:induction false} CutPlain(s: string, sep: char)
    requires sep !in s
    ensures Cut(s, sep) == (s, "")
  {
    if s != [] {
      CutPlain(s[1..], sep);
      assert s == [s[0]] + s[1..];
    }
  }

  /** The majors of the described versions, each once, in the order first met. */
  function FirstMajors(versions: seq<string>): (r: seq<string>)
  {
    if versions == [] then []
    else
      var majors := FirstMajors(versions[..|versions| - 1]);
      var major := Major(versions[|versions| - 1]);
      if major == "" || major in majors then majors else majors + [major]
  }

  lemma {:induction false} FirstMajorsExact(versions: seq<string>)
    ensures forall m :: m in FirstMajors(versions) <==> m != "" && exists v :: v in versions && Major(v) == m
    ensures forall i, j :: 0 <= i < j < |FirstMajors(versions)| ==> FirstMajors(versions)[i] != FirstMajors(versions)[j]
  {
    if versions != [] {
      var init, last := versions[..|versions| - 1], versions[|versions| - 1];
      FirstMajorsExact(init);
      assert versions == init + [last];
      assert forall v :: v in versions <==> v in init || v == last;
    }
  }

  method EngineMajors(versions: seq<string>) returns (out: seq<string>)
    ensures out == FirstMajors(versions)
  {
    out := [];
    var seen: set<string> := {};
    for i := 0 to |versions|
      invariant out == FirstMajors(versions[..i])
      invariant forall m :: m in seen <==> m in out
    {
      assert versions[..i + 1][..i] == versions[..i];
      var major := Major(versions[i]);
      if major != "" && major !in seen {
        seen := seen + {major};
        out := out + [major];
      }
    }
    assert versions[..|versions|] == versions;
  }

  /** The gate a published release carries lets through exactly the majors its driver described. */
  lemma GateMatchesDescription(r: Release, versions: seq<string>, wanted: seq<string>)
    requires r.engines == FirstMajors(versions)
    requires exists v :: v in versions && Major(v) != ""
    ensures Covers(r, wanted) <==> forall m :: m in wanted && m != "" ==> exists v :: v in versions && Major(v) == m
  {
    FirstMajorsExact(versions);
    var v :| v in versions && Major(v) != "";
    assert Major(v) in r.engines;
  }

  // ---- mergeIndex

  function Starting(f: Stored, job: Job): Index
  {
    if Parse(f).Some? then Parse(f).value
    else Index(SCHEMA, job.m.name, job.m.namespace, map[], Some(map[]), "")
  }

  predicate HasArtifact(idx: Index, version: string, triple: string)
  {
    version in idx.releases && triple in idx.releases[version].artifacts
  }

  function ArtifactOf(idx: Index, version: string, triple: string): Artifact
    requires HasArtifact(idx, version, triple)
  {
    idx.releases[version].artifacts[triple]
  }

  /** The release is already published for this triple, with other bytes. */
  predicate Refused(idx: Index, job: Job)
  {
    HasArtifact(idx, job.m.version, job.triple)
      && !SameDigest(ArtifactOf(idx, job.m.version, job.triple).sha256, job.sha)
  }

  function Stamped(idx: Index, job: Job): Release
  {
    var held := if job.m.version in idx.releases then idx.releases[job.m.version].artifacts else map[];
    Release(job.sdk.protocol, FirstMajors(job.m.describes), held[job.triple := Artifact(job.archive, job.sha, "")],
      job.sdk.minHost)
  }

  ghost predicate Greatest(releases: map<string, Release>, v: string)
  {
    v in releases && forall w :: w in releases ==> VersionOrder(w, v) <= 0
  }

  /** The loop over the versions, in this order. */
  function Newest(order: seq<string>, start: string): string
  {
    if order == [] then start
    else
      var stable, v := Newest(order[..|order| - 1], start), order[|order| - 1];
      if VersionOrder(v, stable) > 0 then v else stable
  }

  /** There is a greatest version, and whatever ties with one is greatest too. */
  ghost predicate HasTop(releases: map<string, Release>)
  {
    && (exists g :: Greatest(releases, g))
    && forall v, g :: v in releases && Greatest(releases, g) && VersionOrder(v, g) == 0 ==> Greatest(releases, v)
  }

  method NewestOf(releases: map<string, Release>, start: string) returns (stable: string)
    requires start in releases
    ensures stable in releases && (HasTop(releases) ==> Greatest(releases, stable))
    ensures exists order :: Enumerates(order, releases.Keys) && stable == Newest(order, start)
  {
    stable := start;
    ghost var order: seq<string> := [];
    var todo := releases.Keys;
    while todo != {}
      invariant todo <= releases.Keys && stable in releases
      invariant Enumerates(order, releases.Keys - todo) && stable == Newest(order, start)
      decreases todo
    {
      var v :| v in todo;
      todo := todo - {v};
      assert (order + [v])[..|order|] == order;
      order := order + [v];
      if VersionOrder(v, stable) > 0 { stable := v; }
    }
    assert releases.Keys - todo == releases.Keys;
    if HasTop(releases) {
      var g :| Greatest(releases, g);
      assert g in order;
      NewestIsGreatest(releases, order, start, g);
    }
  }

  lemma {:induction false} NewestIsThere(releases: set<string>, order: seq<string>, start: string)
    requires start in releases && forall v :: v in order ==> v in releases
    ensures Newest(order, start) in releases
  {
    if order != [] { NewestIsThere(releases, order[..|order| - 1], start); }
  }

  /** From a greatest version on nothing is newer, and a greatest one is never passed over but for its equal. */
  lemma {:induction false} NewestIsGreatest(
    releases: map<string, Release>, order: seq<string>, start: string, g: string)
    requires HasTop(releases) && Greatest(releases, g) && start in releases && forall v :: v in order ==> v in releases
    ensures Greatest(releases, start) || g in order ==> Greatest(releases, Newest(order, start))
  {
    if order != [] {
      var init, last := order[..|order| - 1], order[|order| - 1];
      assert order == init + [last];
      NewestIsThere(releases.Keys, init, start);
      NewestIsGreatest(releases, init, start, g);
      OrderFlips(last, Newest(init, start));
    }
  }

  lemma {:induction false} TiesStay(order: seq<string>, start: string)
    requires forall v :: v in order ==> VersionOrder(v, start) <= 0
    ensures Newest(order, start) == start
  {
    if order != [] { TiesStay(order[..|order| - 1], start); }
  }

  lemma {:induction false} NewestOver(a: seq<string>, b: seq<string>, start: string)
    ensures Newest(a + b, start) == Newest(b, Newest(a, start))
  {
    if b == [] {
      assert a + b == a;
    } else {
      assert (a + b)[..|a + b| - 1] == a + b[..|b| - 1];
      NewestOver(a, b[..|b| - 1], start);
    }
  }

  /** What ties with a greatest version ties with them all, and so is not left for any of them. */
  lemma TiesWithTops(releases: map<string, Release>, tops: seq<string>, g: string, v: string)
    requires Greatest(releases, g) && v in releases && VersionOrder(v, g) == 0
    requires forall t :: t in tops ==> Greatest(releases, t)
    ensures Newest(tops, v) == v
  {
    forall t | t in tops ensures VersionOrder(t, v) <= 0 {
      OrderFlips(t, g);
      OrderFlips(v, g);
      TieTransitive(t, g, v);
    }
    TiesStay(tops, v);
  }

  lemma OrderInTwo(keys: set<string>, part: set<string>) returns (first: seq<string>, rest: seq<string>)
    requires part <= keys
    ensures Enumerates(first + rest, keys)
    ensures (forall v :: v in first <==> v in part) && forall v :: v in rest <==> v in keys - part
  {
    first := SomeOrder(part);
    rest := SomeOrder(keys - part);
    var order := first + rest;
    forall i, j | 0 <= i < j < |order| ensures order[i] != order[j] {
      if i < |first| {
        assert order[i] in first;
        if j >= |first| { assert order[j] in rest; }
      } else {
        assert order[i] == rest[i - |first|] && order[j] == rest[j - |first|];
      }
    }
  }

  /** Without such a top, some start and some order of the map end on a version that is not greatest. */
  lemma NoTopMisses(releases: map<string, Release>) returns (start: string, order: seq<string>)
    requires releases != map[] && !HasTop(releases)
    ensures start in releases && Enumerates(order, releases.Keys) && !Greatest(releases, Newest(order, start))
  {
    if g, v :| v in releases && Greatest(releases, g) && VersionOrder(v, g) == 0 && !Greatest(releases, v) {
      var tops := set t | t in releases && Greatest(releases, t);
      var first, rest := OrderInTwo(releases.Keys, tops);
      TiesWithTops(releases, first, g, v);
      NewestOver(first, rest, v);
      NewestIsThere(releases.Keys - tops, rest, v);
      start, order := v, first + rest;
    } else {
      start :| start in releases;
      order := SomeOrder(releases.Keys);
      NewestIsThere(releases.Keys, order, start);
    }
  }

  /** Whatever the start and the map order, the loop ends on a greatest version if and only if there is such a top. */
  lemma NewestExactly(releases: map<string, Release>)
    requires releases != map[]
    ensures HasTop(releases) <==>
      forall start, order :: start in releases && Enumerates(order, releases.Keys) ==>
        Greatest(releases, Newest(order, start))
  {
    if HasTop(releases) {
      var g :| Greatest(releases, g);
      forall start, order | start in releases && Enumerates(order, releases.Keys)
        ensures Greatest(releases, Newest(order, start))
      {
        NewestIsGreatest(releases, order, start, g);
      }
    } else {
      var start, order := NoTopMisses(releases);
    }
  }

  /** Every other version is strictly older. */
  ghost predicate AboveAll(releases: map<string, Release>, top: string)
  {
    top in releases && forall w :: w in releases && w != top ==> VersionOrder(w, top) < 0
  }

  /** Ordered versions have a top, and so do any with one version above all the others, which is then
      the only greatest. */
  lemma TopsThere(releases: map<string, Release>)
    requires releases != map[]
    ensures Orderly(releases.Keys) ==> HasTop(releases)
    ensures forall top :: AboveAll(releases, top) ==>
      HasTop(releases) && forall v :: Greatest(releases, v) <==> v == top
  {
    if Orderly(releases.Keys) { OrderlyHasTop(releases); }
    forall top | AboveAll(releases, top) ensures HasTop(releases) && forall v :: Greatest(releases, v) <==> v == top {
      OrderFlips(top, top);
      forall v | Greatest(releases, v) ensures v == top { OrderFlips(v, top); }
      assert Greatest(releases, top);
    }
  }

  lemma OrderlyHasTop(releases: map<string, Release>)
    requires releases != map[] && Orderly(releases.Keys)
    ensures HasTop(releases)
  {
    var g := SomeGreatest(releases, releases.Keys);
    assert Greatest(releases, g);
    forall v, t | v in releases && Greatest(releases, t) && VersionOrder(v, t) == 0 ensures Greatest(releases, v) {
      OrderFlips(v, t);
      forall w | w in releases ensures VersionOrder(w, v) <= 0 { OrderlyStrict(releases.Keys, w, t, v); }
    }
  }

  lemma {:induction false} SomeGreatest(releases: map<string, Release>, vs: set<string>) returns (g: string)
    requires vs != {} && vs <= releases.Keys && Orderly(releases.Keys)
    ensures g in vs && forall w :: w in vs ==> VersionOrder(w, g) <= 0
  {
    var v :| v in vs;
    OrderFlips(v, v);
    g := v;
    if vs != {v} {
      var other := SomeGreatest(releases, vs - {v});
      OrderFlips(v, other);
      if VersionOrder(v, other) <= 0 {
        g := other;
      } else {
        forall w | w in vs && w != v ensures VersionOrder(w, v) <= 0 { OrderlyStrict(releases.Keys, w, other, v); }
      }
    }
  }

  /** The effect of one mergeIndex on the file: nothing when refused, else what the write leaves, if it is done the
      stamped release and an unsigned index whose stable channel is the greatest version. */
  ghost predicate Merged(before: Stored, job: Job, ok: bool, after: Stored)
  {
    var idx := Starting(before, job);
    if Refused(idx, job) then !ok && after == before
    else
      match job.write
      case Done => ok && after.Readable? && NewIndex(idx, job, after.idx)
      case Unwritten => !ok && after == before
      case Torn(left) => !ok && after == left
  }

  ghost predicate NewIndex(idx: Index, job: Job, now: Index)
  {
    var channels := if idx.channels.Some? then idx.channels.value else map[];
    var releases := idx.releases[job.m.version := Stamped(idx, job)];
    && now.channels.Some? && "stable" in now.channels.value
    && var stable := now.channels.value["stable"];
       && stable in releases && (HasTop(releases) ==> Greatest(releases, stable))
       && now == Index(idx.schema, idx.moduleName, idx.namespace, releases, Some(channels["stable" := stable]), "")
  }

  class IndexFile {
    var content: Stored

    method MergeIndex(job: Job) returns (ok: bool)
      modifies this
      ensures Merged(old(content), job, ok, content)
    {
      var idx := Index(SCHEMA, job.m.name, job.m.namespace, map[], Some(map[]), "");
      var parsed := Parse(content);
      if parsed.Some? { idx := parsed.value; }
      if idx.channels.None? { idx := idx.(channels := Some(map[])); }
      var artifacts: map<string, Artifact> := map[];
      if job.m.version in idx.releases {
        artifacts := idx.releases[job.m.version].artifacts;
        if job.triple in artifacts && !SameDigest(artifacts[job.triple].sha256, job.sha) { return false; }
      }
      var majors := EngineMajors(job.m.describes);
      artifacts := artifacts[job.triple := Artifact(job.archive, job.sha, "")];
      var release := Release(job.sdk.protocol, majors, artifacts, job.sdk.minHost);
      idx := idx.(releases := idx.releases[job.m.version := release]);

      var stable := NewestOf(idx.releases, job.m.version);
      idx := idx.(channels := Some(idx.channels.value["stable" := stable]), signature := "");
      match job.write {
        case Done => content := Readable(idx);
        case Unwritten =>
        case Torn(left) => content := left;
      }
      return job.write.Done?;
    }

    /** Build's skip: a (version, triple) already in the index is never rebuilt. `built` is what
        compiling gave, if it did. */
    method Build(job: Job, built: bool) returns (ok: bool)
      modifies this
      ensures Built(old(content), job, built, ok, content)
    {
      var idx := Parse(content);
      if idx.Some? && HasArtifact(idx.value, job.m.version, job.triple) { return true; }
      if !built { return false; }
      ok := MergeIndex(job);
    }
  }

  predicate Published(f: Stored, version: string, triple: string)
  {
    Parse(f).Some? && HasArtifact(Parse(f).value, version, triple)
  }

  /** One merge whose write is done or never begun. */
  ghost predicate MergeStep(before: Stored, job: Job, after: Stored)
  {
    !job.write.Torn? && exists ok :: Merged(before, job, ok, after)
  }

  /** The effect of one Build: none when the artifact is published or compiling fails, else that of one merge. */
  ghost predicate Built(before: Stored, job: Job, built: bool, ok: bool, after: Stored)
  {
    if Published(before, job.m.version, job.triple) then ok && after == before
    else if !built then !ok && after == before
    else Merged(before, job, ok, after)
  }

  ghost predicate BuildStep(before: Stored, job: Job, after: Stored)
  {
    !job.write.Torn? && exists built, ok :: Built(before, job, built, ok, after)
  }

  // ---- What one call does

  /** The file reads as an index that carries this artifact. */
  predicate Carries(f: Stored, version: string, triple: string, a: Artifact)
  {
    && f.Readable? && version in f.idx.releases && triple in f.idx.releases[version].artifacts
    && f.idx.releases[version].artifacts[triple] == a
  }

  /** A stored index counts when it is of schema 1 and names its module. */
  predicate Counts(f: Stored) { f.Readable? && f.idx.schema == 1 && f.idx.moduleName != "" }

  /** One mergeIndex: it is refused exactly when an index that counts has this artifact with another digest, and
      succeeds exactly when it is not refused and the file is written. */
  lemma MergeSucceedsExactly(before: Stored, job: Job, ok: bool, after: Stored)
    requires Merged(before, job, ok, after)
    ensures ok <==> job.write.Done? && !exists a ::
      Counts(before) && Carries(before, job.m.version, job.triple, a) && !EqualFold(a.sha256, job.sha)
    ensures !ok && !job.write.Torn? ==> after == before
  {
    var v, t := job.m.version, job.triple;
    if Counts(before) && HasArtifact(before.idx, v, t) {
      var a := ArtifactOf(before.idx, v, t);
      LowerExact(a.sha256, job.sha);
      assert Carries(before, v, t, a);
      assert forall b :: Carries(before, v, t, b) ==> b == a;
    }
  }

  /** What a merge that succeeds leaves: its own artifact, as built and unsigned, in a release that says what it was
      built with, everything else of an index that counted as it was, and nothing else where there was none. */
  lemma MergeWrites(before: Stored, job: Job, after: Stored)
    requires Merged(before, job, true, after)
    ensures Carries(after, job.m.version, job.triple, Artifact(job.archive, job.sha, "")) && after.idx.signature == ""
    ensures
      var r := after.idx.releases[job.m.version];
      r.protocol == job.sdk.protocol && r.doze == job.sdk.minHost && r.engines == FirstMajors(job.m.describes)
    ensures
      var was, now, v := before, after.idx, job.m.version;
      if Counts(was) then
        && (now.schema, now.moduleName, now.namespace) == (was.idx.schema, was.idx.moduleName, was.idx.namespace)
        && now.releases.Keys == was.idx.releases.Keys + {v}
        && (forall w :: w in was.idx.releases && w != v ==> now.releases[w] == was.idx.releases[w])
        && (forall w, t, a :: (w, t) != (v, job.triple) ==> (Carries(was, w, t, a) <==> Carries(after, w, t, a)))
        && (forall c :: c != "stable" ==> Channel(now, c) == Channel(was.idx, c))
      else
        && (now.schema, now.moduleName, now.namespace) == (1, job.m.name, job.m.namespace)
        && now.releases.Keys == {v} && now.releases[v].artifacts.Keys == {job.triple}
        && (forall c :: c != "stable" ==> Channel(now, c) == None) && Channel(now, "stable") == Some(v)
  {
    if !Counts(before) {
      var stable := after.idx.channels.value["stable"];
      assert stable in after.idx.releases;
    }
  }

  function Channel(idx: Index, name: string): Option<string>
  {
    if idx.channels.Some? && name in idx.channels.value then Some(idx.channels.value[name]) else None
  }

  /** One Build: what is published already stays as it is, and anything else is published exactly when it compiled and
      the file was written. */
  lemma BuildPublishesExactly(before: Stored, job: Job, built: bool, ok: bool, after: Stored)
    requires Built(before, job, built, ok, after)
    ensures
      var v, t := job.m.version, job.triple;
      if Counts(before) && exists a :: Carries(before, v, t, a) then ok && after == before
      else
        && (ok <==> built && job.write.Done?)
        && (ok ==> Carries(after, v, t, Artifact(job.archive, job.sha, "")))
        && (!ok && !(built && job.write.Torn?) ==> after == before)
  {
    var v, t := job.m.version, job.triple;
    if Counts(before) && HasArtifact(before.idx, v, t) {
      assert Carries(before, v, t, ArtifactOf(before.idx, v, t));
    } else if built {
      MergeSucceedsExactly(before, job, ok, after);
      if ok { MergeWrites(before, job, after); }
    }
  }

  // ---- Runs: publishing is cumulative and immutable

  /** States before, between and after a sequence of merges, each refused or not. */
  ghost predicate MergeRun(files: seq<Stored>, jobs: seq<Job>)
  {
    && |files| == |jobs| + 1
    && forall i :: 0 <= i < |jobs| ==> jobs[i].m.name != "" && MergeStep(files[i], jobs[i], files[i + 1])
  }

  ghost predicate BuildRun(files: seq<Stored>, jobs: seq<Job>)
  {
    && |files| == |jobs| + 1
    && forall i :: 0 <= i < |jobs| ==> jobs[i].m.name != "" && BuildStep(files[i], jobs[i], files[i + 1])
  }

  /** Every release and artifact of `a` is in `b`, its digest unchanged but for letter case. */
  ghost predicate Kept(a: Index, b: Index)
  {
    && a.releases.Keys <= b.releases.Keys
    && forall v, t :: HasArtifact(a, v, t) ==>
         HasArtifact(b, v, t) && SameDigest(ArtifactOf(b, v, t).sha256, ArtifactOf(a, v, t).sha256)
  }

  /** Only the job's own (version, triple) changes, and only to the same digest. */
  lemma MergeKeeps(before: Stored, job: Job, after: Stored)
    requires job.m.name != "" && MergeStep(before, job, after) && Parse(before).Some?
    ensures Parse(after).Some? && Kept(before.idx, after.idx)
    ensures forall v, t :: HasArtifact(before.idx, v, t) && (v, t) != (job.m.version, job.triple) ==>
      HasArtifact(after.idx, v, t) && ArtifactOf(after.idx, v, t) == ArtifactOf(before.idx, v, t)
  {
  }

  /** No release or artifact ever disappears, and a published digest changes in letter case at most. */
  lemma {:induction false} MergesAreCumulative(files: seq<Stored>, jobs: seq<Job>, i: nat, j: nat)
    requires MergeRun(files, jobs) && i <= j < |files| && Parse(files[i]).Some?
    ensures Parse(files[j]).Some? && Kept(files[i].idx, files[j].idx)
    decreases j
  {
    if i < j {
      MergesAreCumulative(files, jobs, i, j - 1);
      MergeKeeps(files[j - 1], jobs[j - 1], files[j]);
      var a, b, c := files[i].idx, files[j - 1].idx, files[j].idx;
      forall v, t | HasArtifact(a, v, t)
        ensures HasArtifact(c, v, t) && SameDigest(ArtifactOf(c, v, t).sha256, ArtifactOf(a, v, t).sha256)
      {
        assert HasArtifact(b, v, t);
      }
    }
  }

  /** Through any run the index stays readable; from a missing one on, the first merge that goes through makes it so. */
  lemma {:induction false} IndexStaysReadable(files: seq<Stored>, jobs: seq<Job>, j: nat)
    requires MergeRun(files, jobs) && j < |files|
    requires files[0] == Absent || Parse(files[0]).Some?
    ensures files[j] == Absent || Parse(files[j]).Some?
    ensures (exists k :: 0 <= k < j && jobs[k].write.Done?) ==> Parse(files[j]).Some?
  {
    if j > 0 {
      IndexStaysReadable(files, jobs, j - 1);
      var ok :| Merged(files[j - 1], jobs[j - 1], ok, files[j]);
    }
  }

  /** Through Build, a published artifact keeps its URL, digest and signature to the letter. */
  lemma {:induction false} BuildsAreImmutable(files: seq<Stored>, jobs: seq<Job>, i: nat, j: nat, v: string, t: string)
    requires BuildRun(files, jobs) && i <= j < |files| && Published(files[i], v, t)
    ensures Published(files[j], v, t) && ArtifactOf(files[j].idx, v, t) == ArtifactOf(files[i].idx, v, t)
    decreases j
  {
    if i < j {
      BuildsAreImmutable(files, jobs, i, j - 1, v, t);
      var before, job, after := files[j - 1], jobs[j - 1], files[j];
      var built, ok :| Built(before, job, built, ok, after);
      if after != before {
        assert MergeStep(before, job, after);
        MergeKeeps(before, job, after);
      }
    }
  }

  /** A write torn so that the file no longer parses loses every release; the next merge starts over without a word. */
  lemma TornWriteStartsOver(before: Stored, job: Job, next: Job, after: Stored)
    requires job.write == Torn(Unreadable) && !Refused(Starting(before, job), job)
    requires next.write.Done? && next.m.name != ""
    ensures Merged(before, job, false, Unreadable)
    ensures (exists ok :: Merged(Unreadable, next, ok, after)) ==>
      Parse(after).Some? && after.idx.releases.Keys == {next.m.version}
      && after.idx.releases[next.m.version].artifacts.Keys == {next.triple}
  {
  }

  // ---- What a release says of its artifacts

  /** The `j`-th merge went through. */
  ghost predicate Took(files: seq<Stored>, jobs: seq<Job>, j: nat)
    requires j < |jobs| && |files| == |jobs| + 1
  {
    jobs[j].write.Done? && !Refused(Starting(files[j], jobs[j]), jobs[j])
  }

  /** Of the first `n` merges, the `j`-th is the last that went through for this version. */
  ghost predicate LastFor(files: seq<Stored>, jobs: seq<Job>, n: nat, j: nat, v: string)
    requires |files| == |jobs| + 1 && n <= |jobs|
  {
    && j < n && Took(files, jobs, j) && jobs[j].m.version == v
    && forall k :: j < k < n && Took(files, jobs, k) ==> jobs[k].m.version != v
  }

  /** The same for this version and triple. */
  ghost predicate LastForArtifact(files: seq<Stored>, jobs: seq<Job>, n: nat, j: nat, v: string, t: string)
    requires |files| == |jobs| + 1 && n <= |jobs|
  {
    && j < n && Took(files, jobs, j) && (jobs[j].m.version, jobs[j].triple) == (v, t)
    && forall k :: j < k < n && Took(files, jobs, k) ==> (jobs[k].m.version, jobs[k].triple) != (v, t)
  }

  /** The release says what building with this job's SDK and driver makes true. */
  predicate Describes(r: Release, job: Job)
  {
    r.protocol == job.sdk.protocol && r.doze == job.sdk.minHost && r.engines == FirstMajors(job.m.describes)
  }

  predicate SameBuild(a: Job, b: Job)
  {
    a.sdk == b.sdk && FirstMajors(a.m.describes) == FirstMajors(b.m.describes)
  }

  lemma MergeTouches(before: Stored, job: Job, after: Stored)
    requires job.m.name != "" && MergeStep(before, job, after)
    ensures
      var idx := Starting(before, job);
      if job.write.Done? && !Refused(idx, job) then
        Parse(after).Some? && after.idx.releases == idx.releases[job.m.version := Stamped(idx, job)]
      else after == before
  {
  }

  /** A release says what the last merge for its version stamped. */
  lemma {:induction false} ReleaseIsTheLastJobs(files: seq<Stored>, jobs: seq<Job>, n: nat, j: nat, v: string)
    requires MergeRun(files, jobs) && n <= |jobs| && LastFor(files, jobs, n, j, v)
    ensures Parse(files[n]).Some? && v in files[n].idx.releases && Describes(files[n].idx.releases[v], jobs[j])
    decreases n
  {
    MergeTouches(files[n - 1], jobs[n - 1], files[n]);
    if j < n - 1 {
      ReleaseIsTheLastJobs(files, jobs, n - 1, j, v);
      if Took(files, jobs, n - 1) { assert jobs[n - 1].m.version != v; }
    }
  }

  /** An artifact is that of the last merge for its version and triple. */
  lemma {:induction false} ArtifactIsTheLastJobs(
    files: seq<Stored>, jobs: seq<Job>, n: nat, j: nat, v: string, t: string)
    requires MergeRun(files, jobs) && n <= |jobs| && LastForArtifact(files, jobs, n, j, v, t)
    ensures Parse(files[n]).Some? && HasArtifact(files[n].idx, v, t)
    ensures ArtifactOf(files[n].idx, v, t) == Artifact(jobs[j].archive, jobs[j].sha, "")
    decreases n
  {
    MergeTouches(files[n - 1], jobs[n - 1], files[n]);
    if j < n - 1 {
      ArtifactIsTheLastJobs(files, jobs, n - 1, j, v, t);
      if Took(files, jobs, n - 1) { assert (jobs[n - 1].m.version, jobs[n - 1].triple) != (v, t); }
    }
  }

  /** After any run of merges a release describes the build of one of its artifacts if and only if that was built with
      the SDK and the majors of the merge that came last for the version. */
  lemma DescribedAsBuiltExactly(files: seq<Stored>, jobs: seq<Job>, n: nat, a: nat, b: nat, v: string, t: string)
    requires MergeRun(files, jobs) && n <= |jobs| && LastForArtifact(files, jobs, n, a, v, t)
      && LastFor(files, jobs, n, b, v)
    ensures Parse(files[n]).Some? && HasArtifact(files[n].idx, v, t)
    ensures ArtifactOf(files[n].idx, v, t) == Artifact(jobs[a].archive, jobs[a].sha, "")
    ensures Describes(files[n].idx.releases[v], jobs[a]) <==> SameBuild(jobs[a], jobs[b])
  {
    ReleaseIsTheLastJobs(files, jobs, n, b, v);
    ArtifactIsTheLastJobs(files, jobs, n, a, v, t);
  }

  /** So a second triple built with another SDK redescribes the first: its archive, as it was, is offered to hosts of
      the new protocol. */
  lemma SecondTripleRedescribes(before: Stored, job: Job, after: Stored, t: string, host: Host, majors: seq<string>)
    requires job.m.name != "" && Merged(before, job, true, after) && Published(before, job.m.version, t)
      && t != job.triple
    requires host.protocol == job.sdk.protocol && !DozeVersion(host.doze)
    requires forall m :: m in majors ==> m in FirstMajors(job.m.describes)
    ensures Eligible(after.idx, job.m.version, host, majors)
    ensures HasArtifact(after.idx, job.m.version, t)
    ensures ArtifactOf(after.idx, job.m.version, t) == ArtifactOf(before.idx, job.m.version, t)
  {
  }

  /** A version above all the others is stable whatever they are; but on mixed versions there may be
      no greatest at all. */
  lemma NoGreatest(releases: map<string, Release>)
    requires releases.Keys == {"9", "10", "1a"}
    ensures !Orderly(releases.Keys) && !HasTop(releases) && forall v :: !Greatest(releases, v)
  {
    MixedSegmentsCycle();
    OrderFlips("9", "10");
    OrderFlips("10", "1a");
    OrderFlips("1a", "9");
    assert "9" in releases && "10" in releases && "1a" in releases;
    forall v ensures !Greatest(releases, v) {
      if v in releases { assert v in {"9", "10", "1a"}; }
    }
  }

  /** After a merge that was not refused the index is unsigned, and while there is a top its stable
      channel is what a host that can run every release selects: the greatest version. */
  lemma StableIsSelected(before: Stored, job: Job, after: Stored, host: Host, channel: string, r: Selection)
    requires Merged(before, job, true, after)
    requires HasTop(after.idx.releases)
    requires forall v :: v in after.idx.releases ==>
      after.idx.releases[v].protocol == host.protocol && !TooNew(after.idx.releases[v], host)
    requires channel == "" || channel == "stable"
    requires SelectForAnswer(after.idx, host, [], channel, r)
    ensures after.idx.signature == ""
    ensures r.Selected? && Greatest(after.idx.releases, r.version)
  {
    var stable := after.idx.channels.value["stable"];
    assert Eligible(after.idx, stable, host, []);
    SelectForExact(after.idx, host, [], channel, r);
    SelectForPicks(after.idx, host, [], channel, r);
  }
}
