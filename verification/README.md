# Verified model of the doze SDK

doze-sdk is the contract between a host, doze, and the engine plugins it runs. This project models its hard logic in
Dafny and proves what it is for. The modules follow the repository's own parts.

| module | part of the SDK |
|---|---|
| `Handoff`, `HandoffOutcome`, `WireFraming`, `CancelRegistry` | Two processes hand a client connection over: lines on a side channel, lazy boot, accounting, the deferred closes, the registry of cancel keys. A transition system over any number of connections, with crashes of either process, and how a hand-off comes out, told by its events. |
| `Lockfile`, `Resolve`, `Binaries`, `Boundary` | The lock of resolved versions and digests; resolving through it in process and across the plugin boundary, with the cached and verified toolchains of a Manager; exactly when the boundary makes no difference and moves no pin. |
| `Toolchains`, `Download` | The two caches of unpacked archives, by a process that may die between any two steps. |
| `Versions`, `ModIndex`, `Json`, `JsonReader`, `Signing`, `SignedText`, `Publishing` | The registry index: version order, the choice of a release with its upgrade advice, the text that is signed and what a reader of JSON finds in it, and publishing into it. |
| `Spawn`, `Template`, `Tail`, `PluginManager` | The spawn-plan scheduler, the template rename race, the console stream and the plugin process manager. |
| `Network` | Validation of what an instance serves, and the algebra of its routes. |
| `GoStrings` | The few standard-library string routines these lean on. |

Code that updates objects in place is modelled by classes and methods with loops, each proved against a function or
predicate of the state before it; the theorems over whole runs are lemmas about those. Concurrent code is modelled as
step functions, and its theorems hold for every interleaving. SHA-256, archive formats, the fetcher's and the mirror's
answers, `exactFull` and a template's `ready` are arbitrary functions, assumed to be nothing more than a theorem says
(`SharedPinSameFiles` asks for injective hashing, `PinnedSuccess` for digests of one length). Go's map iteration is an
arbitrary choice at every step, so a method that is proved to compute a function of the map computes it for every order.
Text is well-formed Unicode; a `char` is one scalar value.

## Where the code and its documentation part

- The advice in a `DozeError` is "run doze `need` or later". It works exactly when `need` is not itself a "v" followed
  by a version: the host's own version is compared without its "v", the release's field with it
  (`ModIndex.AdviceWorks`, with `ModIndex.AdviceFails` the example).
- `CompareVersions` is documented as a version order. On mixed segments it has a cycle, 9 < 10 < 1a < 9
  (`Versions.MixedSegmentsCycle`). It is an order on a set of versions exactly when no three of them first part at
  crossed segments (`Versions.OrderlyExactly`); the theorems about selection and publishing ask for no more.
- Publishing promises that stable is the newest version. It is, for every map order, exactly when the versions have a
  top (`Publishing.NewestExactly`); 9, 10 and 1a have none (`Publishing.NoGreatest`).
- A protocol error promises the least and the greatest protocol of the index. A release without one, protocol 0, resets
  the scan, which then depends on map order (`ModIndex.SpanUnsettled`); `ModIndex.LeastExactly` and
  `ModIndex.GreatestExactly` say exactly when the two are right.
- A lock is documented to pin what it resolved. A pin whose `Resolved` is blank, which a mirror can cause by mapping a
  major to the empty string, is resolved afresh each time and its hash not enforced; in process every other pin is safe
  (`Binaries.PinSafeExactly`). Across the plugin boundary more can move a pin: the plugin's `mapLocker` replaces a pin
  where the host's `Lock` merges into it, so a second call for a key forgets the hash the first insisted on. A pin is
  safe there exactly when it has a version and its key is asked for once at most, or it has no hash to lose
  (`Boundary.RemotePinSafeExactly`; over all locks, exactly when no key is asked for twice:
  `Boundary.RemotePinsStayExactly`).
- Resolving out of process is meant to be resolving in process. For a lock and a list of keys the two agree, whatever
  the fetchers, exactly when no key is asked for twice and none leads to a null entry, on which the host's `Lock.Get`
  crashes and the plugin's copy does not (`Boundary.RefinesExactly`, and with Managers
  `Boundary.ManagersRefineExactly`).
- A toolchain in the cache is meant to be the archive the lock pins, unpacked. What `ensureDownload` ignores can make it
  otherwise: leftovers of an earlier attempt that cannot be removed are mixed into the next (`Toolchains.LeftoversMix`),
  and a digest record torn by a failed write is answered, in part, as the digest (`Toolchains.HitHasOrigin` says exactly
  when it is whole).
- A release describes one SDK and one list of majors, its artifacts may have been built with several: merging a second
  triple redescribes the first (`Publishing.SecondTripleRedescribes`). A release describes an artifact's build exactly
  when that build agrees with the version's last merge (`Publishing.DescribedAsBuiltExactly`).
- Publishing is meant to be cumulative. The index is written in place, so a write that fails midway can lose every
  release, and the next merge starts over without an error (`Publishing.TornWriteStartsOver`).
- `EnsureTemplateDir` is documented to leave every boot with the one template that won. The directory an init built is
  put in place unseen, so a nil answer means a ready template exactly when init never returns nil on a directory that is
  not (`Template.NilIsReadyExactly`).
- An error the plugin reports with nothing but space in its text arrives as an unexpected line, not as an error
  (`WireFraming.HostUnderstands`), and a socket path is understood exactly when it is not empty, has no newline and does
  not end in space (`WireFraming.PluginUnderstands`).

## Model

| member | source | states |
|---|---|---|
| Handoff.Accounting | plugin/wire.go:55-84 | Over every interleaving of any number of connections, crashes included: the host's live count is the number of connections between Acquire and Release; each is booted for and acquired at most once, acquired only after a Boot that succeeded, never booted when its preamble failed or handled it; a released connection's plugin has run every deferred call, its cancel key out of the registry, backend and client closed. |
| Handoff.AlwaysProgress | plugin/wireserver.go:104-149 | In every reachable state a connection not over on both sides has a side that is neither gone nor blocked and has a step to take. |
| Handoff.HandoffsEnd | plugin/wireserver.go:89-149 | In any interleaving with any number of other connections and with crashes, a hand-off takes at most 19 steps of its two sides; so with the calls it makes returning, both come to their end. |
| Handoff.StandstillMeansOver | plugin/wireserver.go:89-149 | Where no step of a hand-off can be taken, on either side, both its sides are over: with the bound on its steps, that is where every hand-off gets. |
| Handoff.AlwaysInv | plugin/wire.go:27-85 | Every reachable state satisfies the protocol's invariant: each open resource has its deferred close pending in Go's order, the lines said so far fit where the plugin is, the host's books fit what it has read, and the registry holds exactly the live connections' keys. |
| Handoff.StepKeepsInv | plugin/wireserver.go:89-149 | That invariant is kept by every step: opening, either side's step, the death of either process. |
| Handoff.NeverBothBlocked | plugin/wireserver.go:104-121 | No connection has both sides waiting to read from each other. |
| Handoff.OtherSideEnds | plugin/wire.go:55-84 | When one side has ended or crashed, the other is not blocked. |
| Handoff.HostCanStep | plugin/wire.go:55-84 | A host that is neither gone nor blocked has a next step. |
| Handoff.PluginCanStep | plugin/wireserver.go:89-149 | A plugin side that is neither gone nor blocked has a next step. |
| Handoff.HostStepsTerminate | plugin/wire.go:55-84 | Each step of the host uses up the connection's measure, so the read loop ends. |
| Handoff.PluginStepsTerminate | plugin/wireserver.go:89-149 | Each step of the plugin, deferred calls included, uses up the connection's measure. |
| Handoff.AcquireBracketsSplice | plugin/wire.go:74-79 | A host step moves Acquire minus Release by exactly its entering or leaving the splice. |
| Handoff.RunDeferKeepsGuarded | plugin/wireserver.go:90-148 | Running the last deferred call closes just the resource it guards, every other one staying as it was; the calls left are the earlier ones, in order, and whatever is still open has its own among them: side goes last. |
| Handoff.PluginCrashKeepsInv | plugin/wireserver.go:89-149 | A plugin that dies mid-step leaves the invariant standing for every connection. |
| Handoff.HostCrashKeepsInv | plugin/wire.go:27-85 | So does a host that dies. |
| HandoffOutcome.PluginFollowsItsScript | plugin/wireserver.go:89-149 | In every interleaving the plugin has taken the steps of a good hand-off in their order, one for each place it can stand in; if it is letting go, that is because it was through, the host could not boot the backend, or the next step gave up, and all it has done since is run deferred calls. |
| HandoffOutcome.SpliceNeedsHandshake | plugin/wireserver.go:104-147 | Wherever a connection is acquired for, has said "splice" or is in the splice, its preamble passed, its backend was booted, dialled and replayed to, and its handshake came back ready: earlier events, in that order, and none of its handshakes failed. |
| HandoffOutcome.RefusedIsNeverAcquired | plugin/wireserver.go:140-144 | A connection whose handshake came back not ready is not acquired for, nor spliced, at any later moment. |
| HandoffOutcome.HoldsWhatItTook | plugin/wireserver.go:89-148 | At every moment the plugin holds exactly what its steps took and have not let go: the client, the backend and the key its handshake registered, under as many deferred calls; a dead one holds nothing. |
| HandoffOutcome.HostReturnsWhatHappened | plugin/wire.go:55-84 | A host that lives returns the plugin's error if and only if the last line it read was one, the error of Boot if and only if Boot failed, that of the read if and only if the read failed, and nil if and only if the plugin handled the client, went away or was spliced; it has been sent exactly what the plugin's steps said. |
| HandoffOutcome.OutcomeExactly | plugin/wireserver.go:89-149 | Where neither process died and a hand-off has no step left: the backend was asked for if and only if the preamble passed, dialled if and only if it was booted, and acquired for and released if and only if the handshake was ready; and the host returned the error that was. |
| CancelRegistry.Registry.Register | plugin/wireserver.go:191-205 | The key returned is the first draw that is usable and not in use: eight bytes, the first four not all zero; it is new, and only it is added. |
| CancelRegistry.Registry.Unregister | plugin/wireserver.go:207-211 | Only the key is removed. |
| CancelRegistry.Registry.Lookup | plugin/wireserver.go:213-218 | The target registered under the key, if there is one. |
| WireFraming.HostUnderstands | plugin/wire.go:54-84 | Each line the plugin writes is read back as the message it was written for; an error keeps its text but for trailing space exactly when it has any, and is never taken for another message. |
| WireFraming.PluginUnderstands | plugin/wireserver.go:115-121 | The plugin dials the very socket the host named if and only if its path is not empty, has no newline and does not end in space, whatever follows in the stream. |
| WireFraming.BootFailIsNoSocket | plugin/wireserver.go:117-120 | A failed boot, whatever its reason, is never taken for a backend. |
| WireFraming.KnownLines | plugin/wire.go:54-84 | The words boot, handled, splice, error and backend, each a line, are read as just that on either side. |
| WireFraming.ChannelIsAQueue | plugin/wireserver.go:104-147 | Any number of messages lying in the channel are read one by one, in order, each as written. |
| WireFraming.OneLine | plugin/wireserver.go:177 | The text with each newline, and nothing else, turned to a space. |
| Versions.CompareVersions | modindex/modindex.go:266-293 | The loop computes the order of the first segments that differ, a missing segment being blank. |
| Versions.OrderFlips | modindex/modindex.go:266-293 | On any two strings: a sign, opposite when the arguments are swapped, 0 on equal strings. |
| Versions.NumericOrder | modindex/modindex.go:266-293 | On dotted numbers that fit an int it is the lexicographic order of the number lists, a missing number below every number; 0 if and only if the lists are equal. |
| Versions.NumericTransitive | modindex/modindex.go:266-293 | On dotted numbers it is transitive, strictly where either step is. |
| Versions.SegmentsOrderedExactly | modindex/modindex.go:281-288 | The segments of any set are ordered transitively if and only if no three of them are crossed: two ints in their order and one that is not an int between them in text, the other way round. |
| Versions.OrderlyExactly | modindex/modindex.go:266-293 | The versions of any set are ordered transitively if and only if no three of them first part at crossed segments. |
| Versions.TieTransitive | modindex/modindex.go:266-293 | Comparing equal is transitive on all versions. |
| Versions.OrderlyStrict | modindex/modindex.go:266-293 | Where versions are ordered, a strict step anywhere makes the whole comparison strict. |
| Versions.NumericOrderly | modindex/modindex.go:266-293 | Dotted numbers that fit an int are always ordered, and so they are with the blank version. |
| Versions.ListOrderTransitive | modindex/modindex.go:264-293 | The reference order on number lists is transitive. |
| Versions.CanonicalOrder | modindex/modindex.go:266-293 | Among versions without leading zeros only a version and itself compare equal. |
| Versions.MixedSegmentsCycle | modindex/modindex.go:281-288 | The order has a cycle on mixed segments. |
| Versions.IsDozeVersion | modindex/modindex.go:346-364 | True if and only if what follows an optional "v" is dotted segments, each of digits and none blank. |
| Versions.DozeVersionExact | modindex/modindex.go:346-364 | A text is a released version if and only if it is some non-blank runs of digits joined by dots, or "v" and such a text. |
| ModIndex.Supports | modindex/modindex.go:244-254 | True if and only if the release has no gate or the majors that are not blank are a subset of those it lists. |
| ModIndex.Select | modindex/modindex.go:195-240 | For every map order: the channel's head when it is a candidate, else a candidate no other is newer than where the versions are ordered; each error exactly in its case, with the span some order of the map gives, or a newest compatible release. |
| ModIndex.SelectFor | modindex/modindex.go:323-344 | Select among the releases the host is not too old for; with none eligible and some waiting for a newer host, a doze they need, the least where those are ordered. |
| ModIndex.HoldBack | modindex/modindex.go:328-338 | The loop keeps exactly the releases this doze is not too old for, and the least doze any other candidate needs, in any visiting order. |
| ModIndex.SelectForExact | modindex/modindex.go:323-344 | Success if and only if some release matches protocol, majors and the host's age; what is returned is one. |
| ModIndex.SelectForMeans | modindex/modindex.go:195-344 | Success if and only if the host can run some release: its protocol, every named major listed or no gate, and no newer doze asked for. What is returned is such a release as the index has it; each error tells the protocol, the majors and gate, or the versions that were in the way, of the index's own releases. |
| ModIndex.SelectForPicks | modindex/modindex.go:219-239 | An eligible channel head wins; otherwise no eligible release is newer than the one returned. |
| ModIndex.AdviceWorks | modindex/modindex.go:295-344 | Retrying with doze at the advised version succeeds if and only if the advice is not a "v" followed by a version. |
| ModIndex.AdviceFails | modindex/modindex.go:327-340 | A concrete index whose advice, followed, only gives the same advice again. |
| ModIndex.AdviceIsTight | modindex/modindex.go:323-344 | No older doze would have succeeded, where it and the versions asked for are ordered. |
| ModIndex.NewerHostKeepsModules | modindex/modindex.go:323-344 | Success is monotone in the host's version where the doze fields and the two versions are ordered; a development build, the newest of all, needs no order. |
| ModIndex.SelectOrderIndependent | modindex/modindex.go:203-239 | Any two runs of Select on an index whose compatible versions are ordered agree, error details included, when what fixes its branch holds: a channel head, no tie among the newest, or a settled minimum protocol. |
| ModIndex.SelectOrderIndependentExactly | modindex/modindex.go:203-239 | And only then: otherwise there are two answers. |
| ModIndex.LeastExactly | modindex/modindex.go:203-215 | The minimum a protocol error reports is the least protocol in every map order if and only if no release has protocol 0, or some have a negative one, or all have 0. |
| ModIndex.GreatestExactly | modindex/modindex.go:203-215 | The maximum is the greatest protocol if and only if some protocol is not negative, and is 0 otherwise; it never depends on the order. |
| ModIndex.SpanUnsettled | modindex/modindex.go:203-217 | A concrete index, of protocols 0 and 3, for which the reported minimum is 0 or 3. |
| ModIndex.SelectForOrderIndependent | modindex/modindex.go:323-344 | Any two runs of SelectFor agree, error details included, where the versions that fit and the doze fields of those that wait are ordered and the answer is settled: one least doze to ask for, or what settles Select among the releases that fit. |
| ModIndex.SelectForOrderIndependentExactly | modindex/modindex.go:323-344 | And only then: otherwise there are two answers. |
| ModIndex.ToldIsSettledFor | modindex/modindex.go:323-344 | It is settled where no two of those versions compare equal, and the least protocol is settled if none is compatible. |
| ModIndex.CanonicalIsTold | modindex/modindex.go:266-293 | Versions without leading zeros that fit an int are ordered, the blank of a release that asks for none among them, and no two compare equal. |
| ModIndex.ScanProtocols | modindex/modindex.go:203-215 | The first loop finds exactly the releases of the host's protocol, and the span the order of the range gives. |
| ModIndex.SortNewestFirst | modindex/modindex.go:219 | A permutation, newest first where the versions are ordered. |
| ModIndex.KeepCovering | modindex/modindex.go:221-226 | Exactly the versions that cover the majors, in the order they came. |
| ModIndex.CoveringExact | modindex/modindex.go:221-226 | Filtering keeps just the covering versions and stays newest first. |
| ModIndex.NeedGrows | modindex/modindex.go:329-338 | Over one more version the running minimum stays the least, and above "v" only when all are. |
| Json.EncodePrefixFree | modindex/modindex.go:117-124 | The compact sorted-key JSON text, with the escaping of section 7 of RFC 8259, is prefix-free: no value's text starts another's, so the text determines the value. |
| Json.EscapedPrefixFree | modindex/modindex.go:117-124 | So is the escaped body of a string with its closing quote. |
| Json.FieldsPrefixFree | modindex/modindex.go:117-124 | So are an object's fields: equal texts have equal keys, equal values and equal rests. |
| Json.IntegerPrefixFree | modindex/modindex.go:117-124 | A number followed by no digit is read back one way only. |
| Json.EscapesAreShort | modindex/modindex.go:117-124 | A character is escaped only where JSON needs it or it would end a line of JavaScript, with two characters where there is such an escape and else with six, in lower-case hex. |
| Json.SortingIsUnique | modindex/modindex.go:117-124 | A key set has one sorted order, so the printed text does not depend on map order. |
| JsonReader.ReadsBack | modindex/modindex.go:117-124 | A reader of JSON by the grammar of RFC 8259 alone, white space and every escape included, reads the text written for any value, whatever follows it, as that value, and stops at its end. |
| JsonReader.RoundTrip | modindex/modindex.go:117-124 | So the whole text reads as the value it was written from. |
| Signing.PayloadUnambiguous | modindex/modindex.go:89-125 | Two indexes have the same signed text if and only if they agree on module, namespace, channels (nil apart from empty) and, release by release and artifact by artifact, on protocol, engines, URL, signature and lower-cased digest. |
| Signing.CanonicalPayload | modindex/modindex.go:93-125 | Whatever order the maps are visited in, the loops build and print one text, that of `SignedText.PayloadReads` and `SignedText.PayloadText`; trimming takes off just the encoder's newline. |
| Signing.EncodeText | modindex/modindex.go:117-124 | The printer, sorting keys as it meets them, writes the text the prefix-freedom theorem is about. |
| Signing.SortKeys | modindex/modindex.go:117-124 | Keys drawn in any order come out in the one sorted order. |
| Signing.ReleaseValueExact | modindex/modindex.go:95-110 | Two releases have one payload value if and only if protocol, engines and artifacts agree as signed; Doze is not signed. |
| Signing.ArtifactValueExact | modindex/modindex.go:100-107 | Two artifacts have one payload value if and only if URL, signature and lower-cased digest agree. |
| Signing.ChannelsValueExact | modindex/modindex.go:111-116 | Nil channels and empty channels are signed differently; otherwise channels are signed as they are. |
| SignedText.PayloadReads | modindex/modindex.go:85-125 | Read by the grammar of JSON, the signed text is an object of just four members: the index's own module, namespace and channels, and under each version of its releases the protocol, the engines if it has any, and for each triple the URL, the digest in lower case and the signature if there is one. |
| SignedText.ArtifactText | modindex/modindex.go:100-107 | The text of any artifact to the letter: sha256, sig if there is one, url, without white space. |
| SignedText.ReleaseText | modindex/modindex.go:95-110 | The text of any release to the letter: artifacts, engines if there are any, protocol. |
| SignedText.PayloadText | modindex/modindex.go:111-125 | The signed text of any index to the letter: channels, module, namespace, releases. |
| SignedText.KnownPayload | modindex/modindex.go:89-125 | The signed text of one index, with an artifact, engines, a signature, a channel, an upper-case digest and characters to escape, is this literal. |
| Publishing.IndexFile.MergeIndex | modtool/modtool.go:239-290 | A triple already published with other bytes is refused and the file untouched; otherwise just this release is stamped, the signature is dropped, and stable is a greatest version wherever the versions have a top; a write that fails before it begins leaves the file, one that is torn leaves anything, and both are errors. |
| Publishing.IndexFile.Build | modtool/modtool.go:94-137 | A version and triple already in the index succeed and leave the file alone; a failed build fails and leaves it alone; anything else is exactly one merge. |
| Publishing.MergeSucceedsExactly | modtool/modtool.go:239-290 | A merge succeeds if and only if the file is written and no index of schema 1 with a module name has the artifact under a digest that differs in more than letter case; one that fails leaves the file, unless its write is torn. |
| Publishing.MergeWrites | modtool/modtool.go:239-290 | A merge that succeeds writes its artifact as built and its release as its SDK and driver say, unsigned; an index that counted keeps its schema, module, namespace, other channels, other releases and every other artifact, and where there was none the new one names the job's module and namespace and holds nothing else. |
| Publishing.BuildPublishesExactly | modtool/modtool.go:94-137 | What is published already succeeds and stays as it is; anything else is published if and only if it compiled and the file was written. |
| Publishing.NewestOf | modtool/modtool.go:276-281 | The loop over the versions, in any order of the map, ends on one of them, a greatest one wherever they have a top. |
| Publishing.NewestExactly | modtool/modtool.go:276-281 | Whatever the start and the map order the loop ends on a greatest version if and only if the versions have a top: there is a greatest, and whatever ties with one is greatest too. |
| Publishing.TopsThere | modtool/modtool.go:276-281 | Ordered versions have a top, and so have any with one version strictly above all the others, which is then the one found. |
| Publishing.NoGreatest | modtool/modtool.go:276-281 | The versions 9, 10 and 1a have no greatest, and no top. |
| Publishing.MergeKeeps | modtool/modtool.go:239-290 | A merge changes at most its own version and triple, and that only to the same digest. |
| Publishing.MergesAreCumulative | modtool/modtool.go:239-290 | Over any run of merges, refused or failed ones included but none torn, no release or artifact disappears and a published digest changes in letter case at most. |
| Publishing.IndexStaysReadable | modtool/modtool.go:239-290 | From a readable index on every later index parses; from an absent one, from the first merge on that is written. |
| Publishing.TornWriteStartsOver | modtool/modtool.go:239-290 | After a write torn so that the file does not parse, the next merge that is written succeeds with an index of its own release and artifact alone: every published release is lost. |
| Publishing.BuildsAreImmutable | modtool/modtool.go:187-200 | Over any run of builds a published artifact keeps URL, digest and signature to the letter. |
| Publishing.ReleaseIsTheLastJobs | modtool/modtool.go:267-274 | After any run of merges a release has the protocol, the doze and the majors of the last merge that went through for its version. |
| Publishing.ArtifactIsTheLastJobs | modtool/modtool.go:270-274 | And an artifact has the URL and digest of the last merge for its version and triple, unsigned. |
| Publishing.DescribedAsBuiltExactly | modtool/modtool.go:267-274 | A release says of an artifact what building it made true if and only if that merge and the version's last one agree on SDK and majors. |
| Publishing.SecondTripleRedescribes | modtool/modtool.go:267-274 | A merge of another triple offers the first triple's unchanged archive to every development host of the new SDK's protocol that asks for the new majors. |
| Publishing.StableIsSelected | modtool/modtool.go:276-283 | After a merge the index is unsigned, and where its versions have a top a host that can run every release and asks for stable with no majors gets a greatest version. |
| Publishing.EngineMajors | modtool/modtool.go:295-306 | The loop with its seen map gives the majors in order of first appearance. |
| Publishing.MajorExact | modindex/modindex.go:257-262 | The major is the text before the first dot, or the whole text where nothing stands before it. |
| Publishing.FirstMajorsExact | modtool/modtool.go:295-306 | These are exactly the majors of the described versions, each once. |
| Publishing.GateMatchesDescription | modtool/modtool.go:295-306 | The gate a release carries lets a host through exactly when every major it wants was described. |
| Lockfile.Lock.Load | binaries/lock.go:59-85 | The file's pins but for module entries without a version; the lock starts dirty if and only if it dropped some. |
| Lockfile.Lock.Get | binaries/lock.go:90-99 | The pin held under the key, if any, in a map of the caller's own. |
| Lockfile.Lock.Record | binaries/lock.go:103-130 | The whole new state: the merged pin under its key, all else as it was, and dirty exactly when it was or the content changed. The lock keeps no reference to the caller's map: what it newly owns is fresh. |
| Lockfile.Lock.MergeOnto | binaries/lock.go:117-129 | Merging into one pin's map in place changes no other pin, since no two share a map. |
| Lockfile.Lock.GetModule | binaries/lock.go:156-167 | The module's pin if it has a version, in a map and a slice of the caller's own. |
| Lockfile.CopyMap | binaries/lock.go:245-252 | A fresh map that reads the same, nil for nil. |
| Lockfile.MergeTriples | binaries/lock.go:121-129 | In any order of the hashes, in place: the merged map, and changed if and only if it differs from what was held. |
| Lockfile.Lock.RecordModule | binaries/lock.go:172-191 | A pin without a version is ignored, an equal one leaves the lock clean, another replaces the one held, in a map and a slice the caller does not hold. |
| Lockfile.Lock.DropModule | binaries/lock.go:195-203 | The source's pin goes; dropping what is absent keeps the lock clean. |
| Lockfile.Lock.GetDownload | binaries/download.go:26-36 | The digest the URL is pinned to, if there is one that is not blank. |
| Lockfile.Lock.RecordDownload | binaries/download.go:40-52 | The first digest of a URL is kept, later ones and blank ones change nothing. |
| Lockfile.Lock.Save | binaries/lock.go:227-243 | A clean lock, or one without a path, is not written and is a success; a failed write leaves it dirty; a lock saved with success is clean and its file holds all it does. |
| Lockfile.Lock.Entries | binaries/lock.go:135-153 | Exactly the pins held under each key, null ones left out, each in a map of the caller's own. |
| Lockfile.AlwaysHonest | binaries/lock.go:25-243 | After any sequence of operations a clean lock holds exactly what its file holds. |
| Lockfile.RecordDirt | binaries/lock.go:103-130 | Record's several dirty assignments amount to this: the content changed if and only if the key was free or its merged pin differs. |
| Lockfile.RecordIdempotent | binaries/lock.go:103-130 | Recording a pin again, or what is held, changes nothing and keeps a clean lock clean. |
| Lockfile.RecordFrame | binaries/lock.go:103-130 | Record touches no other key. |
| Lockfile.DownloadPinsAreForever | binaries/download.go:26-52 | Through any run a pinned URL keeps its digest. |
| Lockfile.ModulePinsStay | binaries/lock.go:156-203 | Through any run a module pin stays until its source is recorded again or dropped. |
| Lockfile.RecordMeans | binaries/lock.go:103-130 | After Record the key holds the recorded version: the recorded hashes, over those held of the same version, and the source held unless blank; another version starts afresh. |
| Lockfile.RecordModuleMeans | binaries/lock.go:172-192 | After RecordModule the source has just that pin, unless it has no version, and every other source what it had. |
| Lockfile.DropModuleMeans | binaries/lock.go:195-203 | After DropModule the source has no pin, and every other source what it had. |
| Lockfile.RecordDownloadMeans | binaries/download.go:40-52 | After RecordDownload a free URL has the digest unless that is blank, a pinned one its own, and every other URL what it had. |
| Lockfile.KindsApart | binaries/lock.go:59-243 | No operation on one kind of pin touches another kind, and none but Save touches the file. |
| Lockfile.SaveMeans | binaries/lock.go:227-243 | After any operations, a save that goes through leaves a clean lock whose file holds all the lock does, one that fails leaves a dirty lock dirty, and a lock that is clean or has no path is left as it is. |
| Lockfile.LoadKeepsPins | binaries/lock.go:59-85 | Loading gives back every pin in the file and nothing else: no module entry without a version. |
| Lockfile.SaveLoadRoundTrip | binaries/lock.go:59-243 | Load a file, do anything with the lock, save it and load it again: the lock comes back whole, and clean. |
| Resolve.ResolveVia | engine/resolve.go:18-42 | Success if and only if a toolchain answers: of the engine asked for, of the version pinned, or else exact, or else mapped to, and where the fetcher, told that version and the digest pinned for the platform, says it is. Then that toolchain is returned and the lock's pin has its version and its digest; a failure leaves the lock as it was. |
| Resolve.OutcomeMeans | engine/resolve.go:18-42 | So any request comes out, for any pin: with the one toolchain that answers it, recorded under its version with its digest if it has one, or with none if there is none. |
| Resolve.Aim | engine/resolve.go:19-30 | The version to fetch and the digest to insist on, from the pin, the exact version or the mirror. |
| Resolve.ResolveRemotely | plugin/adapter.go:267-296 | Shipping the lock's entries, running the plugin on its copy and replaying what it recorded computes the remote run. |
| Resolve.RunPlugin | plugin/server.go:250-262 | The driver's calls against the copy, one by one to the first failure. |
| Resolve.LocalRunServes | engine/resolve.go:18-42 | In a run that succeeds each request got the toolchain that answers it for the pin the lock then held, and the lock held that version and digest after it. |
| Resolve.LocalRunExactly | engine/resolve.go:18-42 | A run succeeds if and only if each request in turn can be served from the lock as those before it left it; otherwise it stops there, with the lock so. |
| Resolve.PluginRunServes | plugin/server.go:250-262 | The same of each request in the plugin, for its copy. |
| Resolve.PluginRunExactly | plugin/server.go:250-262 | And a run in the plugin succeeds if and only if each request in turn can be served from the copy. |
| Resolve.ReplayOnto | plugin/adapter.go:292-294 | The recordings land on the host's lock in order. |
| Resolve.MapLocker.constructor | plugin/server.go:480-486 | The copy holds every shipped pin under its key and has recorded nothing. |
| Resolve.MapLocker.Get | plugin/server.go:488-491 | The copy's pin under the key, if any. |
| Resolve.MapLocker.Record | plugin/server.go:493-502 | The pin replaces the one held; a key recorded for the first time joins the end of the order. |
| Resolve.MapLocker.Recorded | plugin/server.go:504-511 | One entry per recorded key, in the order first recorded, with its last pin. |
| Resolve.KeyRoundTrip | plugin/server.go:478 | A key is cut back into the engine and spec it was made of if and only if the engine has no NUL. |
| Resolve.SeedAnswers | plugin/server.go:480-491 | The copy answers every Get as the host's lock does. |
| Resolve.NotedAppends | plugin/server.go:493-511 | Recording a fresh key adds exactly its entry at the end of the replay. |
| Resolve.PluginRunMirrors | plugin/server.go:250-262 | At every point of a run, replaying the copy's recordings on the host's lock gives the lock an in-process run would have. |
| Resolve.RemoteRefinesLocal | plugin/adapter.go:267-296 | Out of process refines in process on distinct keys that lead to no null entry: the same toolchains, on success the same lock to the dirty flag, on failure the lock untouched. |
| Resolve.DriveMirrors | plugin/server.go:250-262 | The same at every point of a run whose driver chooses each request by the answers so far, going on after failures as it likes. |
| Resolve.DriverRefines | plugin/adapter.go:267-296 | Such a driver that asks for no key twice gets the same answers across the boundary as in process, and replaying what it recorded gives the lock an in-process run leaves. |
| Resolve.DriveServes | engine/resolve.go:18-42 | In process the k-th answer to a driver is to what it asks for after those before it: the toolchain that answers from the lock as it then stands, which then holds it, or none where none does, and then the lock is left alone. |
| Resolve.ShippingOrderIrrelevant | plugin/adapter.go:278-283 | The order the pins are shipped in makes no difference. |
| Binaries.Manager.Ensure | binaries/binaries.go:134-153 | A hit never touches the cache and answers its recorded digest unless the pin differs; a miss succeeds if and only if there are bytes with the pinned digest or, without a pin, the manifest's sum in any letter case, signed if a key asks for it, that unpack, install and have files in bin, and answers the digest of those bytes; the whole cache afterwards is the old one, but for an artifact that passed and unpacked. |
| Binaries.Manager.EnsureDownload | binaries/binaries.go:185-250 | Bytes that fail their digest, the checksum or the signature, or do not unpack, leave the cache as it was; others are entered under what could be written of their own digest, or the old entry is gone where the new one could not be put in its place, and nothing else changes. |
| Binaries.Manager.CheckCached | binaries/binaries.go:175-181 | A hit is refused exactly when both digests are there and differ. |
| Binaries.VerifiedExactly | binaries/binaries.go:185-209 | Bytes pass exactly when they are vouched for: the pinned digest or, without one, the manifest's sum but for letter case, and a signature if a key asks for one. |
| Binaries.EnsureHonoursPin | binaries/binaries.go:134-209 | A success under a pinned digest used that digest or an entry without one; a fresh one used verified bytes. |
| Binaries.ManagerHonoursPins | binaries/binaries.go:134-209 | So a Manager, whatever its cache and mirror hold, is a fetcher that honours pins. |
| Binaries.CallKeepsPin | engine/resolve.go:18-42 | One call on any key and platform keeps a pin's version and every hash it has. |
| Binaries.PinsAreStable | engine/resolve.go:18-42 | Over any run of calls, with cache and mirror anything at each, a pinned version never changes and a recorded hash never changes. |
| Binaries.ManagerPinsAreStable | binaries/binaries.go:134-209 | So resolving through a Manager, mirror and cache changing in any way between calls, keeps every version and hash once pinned. |
| Binaries.SuccessUnderPin | binaries/binaries.go:175-209 | A success under a pinned hash records that hash, or none when it came from an entry from before digests were recorded. |
| Binaries.PinSafeExactly | engine/resolve.go:20-36 | In process a hashed pin is safe from every later call through a Manager, or any fetcher that honours pins, if and only if its version is not blank. |
| Binaries.BlankPinMoves | engine/resolve.go:20-36 | For any hashed pin with a blank version some Manager moves its hash. |
| Boundary.RefinesExactly | plugin/adapter.go:267-296 | For any lock and list of keys, remote refines local for every platform and fetcher if and only if no key is asked for twice and none leads to a null entry. |
| Boundary.ManagersRefineExactly | plugin/adapter.go:267-296 | The same with every fetcher a Manager. |
| Boundary.BoundaryShows | plugin/adapter.go:267-296 | Any lock and list of keys that is not so has a run through Managers that comes out differently. |
| Boundary.RepeatedKeyDiverges | plugin/server.go:493-502 | On any repeated key whose pin has a hash, answers without a digest before its last request and a drifted mirror at that make the run fail in process and succeed across the boundary, where the host's pin moves to the drifted digest. |
| Boundary.RepeatedKeyForgets | plugin/server.go:493-502 | Where no digest is insisted on yet, the digest of the key's first answer is in the lock after an in-process run, and lost across the boundary to a later answer without one. |
| Boundary.LocalStops | binaries/lock.go:112-129 | In process a pin keeps its hash through answers without a digest, so the drifted answer is refused. |
| Boundary.LocalCrashes | binaries/lock.go:90-99 | In process the first request for a key with a null entry ends the run. |
| Boundary.PluginGoesOn | plugin/server.go:493-502 | In the plugin an answer without a digest wipes its key's hash from the copy, so the drifted answer is let in. |
| Boundary.RecordedOnce | plugin/server.go:493-502 | What the plugin has recorded for a key asked for once at most is what that request makes of the pin that was shipped. |
| Boundary.ReplayHeld | plugin/adapter.go:292-294 | Replaying entries on distinct keys merges each into its own pin and leaves every other. |
| Boundary.RemoteHeld | plugin/adapter.go:267-296 | After a remote Resolve the host holds, under any key, what it held merged with what the plugin last recorded, or what it held where nothing was recorded or the Resolve failed. |
| Boundary.RemoteKeepsPin | plugin/adapter.go:267-296 | A remote Resolve keeps the version and every hash of a pin that is not asked for, or has a version and is asked for once or has no hash. |
| Boundary.RemoteMovesPin | plugin/adapter.go:267-296 | Any other pin is moved by some remote Resolve through Managers for the same keys. |
| Boundary.RemotePinSafeExactly | plugin/adapter.go:267-296 | So a pin stays through every remote Resolve for a list of keys, through Managers in any worlds, if and only if it is safe in that sense. |
| Boundary.RemotePinsStayExactly | plugin/adapter.go:267-296 | Remote Resolves for a list of keys keep every pin with a version, of every lock, if and only if no key is asked for twice. |
| Boundary.MixedRunsKeepPins | engine/resolve.go:18-42 | Over any run that mixes in-process calls and remote Resolves, cache and mirror anything at each, a pin with a version keeps it and every hash, as long as no one remote Resolve asks for its key twice. |
| Toolchains.Place.Ensure | binaries/binaries.go:134-250 | For any failures, ignored or not, and a death at any step, all of them inputs: an entry with files in bin is never touched and is answered from its record; otherwise a new directory is put in place if and only if the bytes pass, unpack and can be installed while the call lives, what is left of the old one has no bin still, and the call succeeds if and only if the directory is in place, it lived and there are files in bin. |
| Toolchains.HitHasOrigin | binaries/binaries.go:185-250 | Over any life of calls and crashes, what the cache offers was put there by one call whose bytes passed its checks and has not changed since; where nothing was in that call's way it is the whole unpacking of those bytes, and the digest recorded is theirs if and only if the whole record was written, and else the start of theirs. |
| Toolchains.UsableIsForGood | binaries/binaries.go:134-170 | An entry with files in bin never changes again. |
| Toolchains.SuccessHasOrigin | binaries/binaries.go:175-250 | A success hands out what it or an earlier call made of bytes that passed, and under a pin answers the pin or a blank. |
| Toolchains.SuccessExactly | binaries/binaries.go:134-250 | Over any life, a call with nothing in its way succeeds if and only if the entry is usable and its record, if any, is the pin, if any; or it is not, the bytes pass and unpack to files in bin, and the call lives and can unpack and install them. |
| Toolchains.PinnedSuccess | binaries/binaries.go:175-209 | With digests of one length and nothing in the way, a success that answers a digest under a pin runs the whole unpacking of bytes with that digest. |
| Toolchains.RefinesManager | binaries/binaries.go:134-250 | A call that does not die and finds nothing in its way answers and leaves the cache as the Manager's one step does. |
| Toolchains.OverlayExactly | binaries/binaries.go:219-223 | Unpacking over leftovers gives just the archive's files if and only if its paths cover them all. |
| Toolchains.LeftoversMix | binaries/binaries.go:219-223 | A life in which a call dies while unpacking, what it left cannot be removed, and the next call caches a tree no archive unpacks to. |
| Download.Cache.EnsureDownload | binaries/download.go:71-119 | For any failure or death at any point, as an input: a recorded entry is answered as it is when there is no pin or that one, refused otherwise, and never changed; without a record the call succeeds if and only if the bytes arrive, match the pin and unpack and nothing that matters befalls it, is refused just for bytes that are not the pinned ones, unpacks only bytes with the pinned digest, and the entry is theirs, whole and recorded, or no more than is left of the old one. |
| Download.AlwaysSound | binaries/download.go:71-119 | Over any life of calls and crashes, an entry with a recorded digest holds the whole unpacking of bytes with that digest. |
| Download.EntryIsForGood | binaries/download.go:71-119 | An entry with a recorded digest never changes again. |
| Download.SuccessExactly | binaries/download.go:71-119 | Over any life, a call succeeds if and only if its entry has a record that agrees with the pin, if any; or it has none, the bytes arrive, match and unpack, and nothing that matters befalls the call; it answers that record, or those bytes' digest. |
| Download.FetchedOnce | binaries/download.go:71-119 | After a success whose record got written every later call gets the same without unpacking anything, if its pin agrees or it has none, and is refused otherwise. |
| Download.SuccessIsGenuine | binaries/download.go:71-119 | A success hands out a whole unpacking of bytes with the digest it answers, the pinned one if there is one. |
| Download.SharedPinSameFiles | binaries/download.go:71-119 | With injective hashing, two machines that succeed under one pin run the unpacking of the same bytes, whatever their caches have been through. |
| Spawn.Spawn | enginetest/enginetest.go:206-240 | Each spec starts at most once, after everything it names, always the earliest that can; all start, or the first that never comes up is reported, or exactly the specs left when none can start. |
| Spawn.DepsReady | enginetest/enginetest.go:387-394 | True if and only if everything named is ready. |
| Spawn.FirstStartable | enginetest/enginetest.go:220-225 | The earliest spec that can start, or proof that none can. |
| Spawn.EarliestIsLeast | enginetest/enginetest.go:216-239 | The order a plan starts in is the lexicographically least of all its topological orders. |
| Spawn.StuckMeansNone | enginetest/enginetest.go:236-238 | A reported deadlock means the plan has no topological order. |
| Spawn.StuckLeavesKnot | enginetest/enginetest.go:236-238 | What is left in a deadlock contains specs that wait only on each other or on missing names. |
| Spawn.KnotNeverStarts | enginetest/enginetest.go:216-239 | No order ever starts a spec of such a knot. |
| Spawn.StartsUnlessKnotted | enginetest/enginetest.go:216-239 | A plan has a topological order if and only if it has no knot. |
| Spawn.StartsUnlessCyclic | enginetest/enginetest.go:216-239 | A plan without missing names and cycles can be started, and with unique names no other can. |
| Spawn.KnotMeans | enginetest/enginetest.go:236-238 | Whatever deadlocks holds a spec that names a missing one, or a cycle of its own specs. |
| Template.RaceIsSafe | engine/template.go:20-46 | For any number of processes, interleavings and crashes: the directory is as it was or the whole output of one init that returned nil, never half built; whoever returned left no temp directory; whoever returned nil has a ready template or such an output. At most one is installed unless an init returns nil on an empty directory. When every such output is ready, every nil answer has a ready template and losing the race to a missing one is nobody's error. |
| Template.AnswersWhatItSaw | engine/template.go:20-46 | In every interleaving a process answers just what its own steps showed it: nil once it found the template ready or its rename took, and an error where it got no directory, its init failed, or its rename was refused and the template still not ready; it makes no directory where it first finds the template ready. |
| Template.NilIsReadyExactly | engine/template.go:33-46 | From no template, every nil answer means a ready template if and only if init never returns nil on a directory that is not ready. |
| Template.Unready | engine/template.go:33-46 | One process alone whose init returns nil on such a directory installs it and returns nil. |
| Template.FullIsForGood | engine/template.go:39-46 | A directory with something in it, ready or not, is never replaced: every later rename fails. |
| Template.ReadyIsForGood | engine/template.go:20-46 | A ready template is never replaced. |
| Template.StepKeepsInv | engine/template.go:20-46 | Each step of any process keeps the invariant for all of them. |
| Template.NoWaiting | engine/template.go:20-46 | A process that has not returned can always go on, and every step but writing brings it nearer to returning. |
| Tail.TailDelivers | plugin/server.go:544-571 | In every interleaving rows arrive in order without gaps or repeats; a handler that returns leaves no goroutine or row behind; without a send error everything was sent and the module's result is returned; on a send error the module is cancelled before its rows are drained and its result awaited. |
| Tail.NilMeansEverything | plugin/adapter.go:617-643 | A caller that gets nil without hanging up has every row the module produced, and the module returned nil. |
| Tail.TailAnswers | plugin/server.go:555-571 | Told by the events alone: what was produced, sent and delivered; the handler returns the send error if a send failed and else what the module returned; the module's context ends exactly by a hang-up, a cancel after a failed send, or the return; and the host returns nil if it had hung up, the error of what broke, or the module's own. |
| Tail.NoDeadlock | plugin/server.go:555-571 | A module stuck on a full channel is being emptied; an idle sender waits only for a module that still has room. |
| Tail.StepsTerminate | plugin/server.go:560-571 | Each step but producing a row uses up the measure. |
| Tail.HandlerEnds | plugin/server.go:555-571 | Over any behaviour the handler and the module's goroutine take at most six steps and three more for each row. |
| Tail.StoppedModuleReturns | plugin/server.go:560-571 | Once the module has stopped at most 199 such steps are left, and where none can be taken the handler has returned. |
| Tail.ActKeepsInv | plugin/server.go:544-571 | Rows are conserved by every step: produced are sent, dropped, in hand or in the channel, in that order. |
| PluginManager.Manager.Driver | plugin/manager.go:70-94 | A live process is handed out again and nothing changes; otherwise the dead one is reaped first, and what was launched is handed out and held, or its failure remembered, never both. |
| PluginManager.Manager.Lookup | plugin/manager.go:101-107 | A driver if and only if the type's process is now held, and it is that one; a failed launch reads as none, its reason kept. |
| PluginManager.Manager.LaunchError | plugin/manager.go:112-116 | The remembered failure, if any. |
| PluginManager.Manager.Close | plugin/manager.go:119-126 | Every process ever launched is closed, in whatever order they are reaped. |
| PluginManager.NeitherLeaksNorDoubles | plugin/manager.go:70-126 | Over every interleaving of callers whose resolver ran outside the mutex: each launched process is held for exactly one type or closed, and no type has both a process and a failure. |
| PluginManager.CloseReapsAll | plugin/manager.go:119-126 | Once a Close has gone through, every process launched before it stays closed whatever comes after. |
| PluginManager.FailureIsTheLastAttempts | plugin/manager.go:57-94 | A failure is remembered for a type if and only if the last call about that type tried to launch it and failed so. |
| Network.ValidateNetwork | engine/network.go:171-217 | The single pass reports exactly the problems of each listener beside those before it, and none if and only if the network is valid: distinct labels with "main" among them, ports in range and distinct but for main's 0, known protocols, well-formed distinct routes on http only. |
| Network.NoProblemsExactly | engine/network.go:164-217 | No problem is reported if and only if the declarative conditions hold. |
| Network.ProblemsExactly | engine/network.go:171-217 | Each kind of problem is reported of just the listeners, names, ports and routes it is true of: a name that is no label or is used before, a port out of range or first used by another listener, routes on tcp, an unknown protocol, a text that is no route and why, a route given before, no "main". |
| Network.CheckRoutes | engine/network.go:201-211 | The routes map rejects a well-formed route exactly when it was given before, on this listener or an earlier one. |
| Network.CheckPort | engine/network.go:184-192 | A port is reported shared with the first listener that took it; main's 0 never is. |
| Network.ScanLabelChars | engine/network.go:151-158 | True if and only if the text is not empty and all lower-case ASCII letters, digits and hyphens. |
| Network.LabelExact | engine/network.go:151-164 | A label is 1 to 63 lower-case ASCII letters, digits and hyphens without a hyphen at either end. |
| Network.ParseExact | engine/network.go:128-148 | A text parses as a route if and only if it is the written form of that route, well formed: the parser accepts the three shapes and nothing else. |
| Network.RouteHostExact | engine/network.go:105-117 | A route names a host in three ways and no other: "@" the instance's own, a label that label before a dot and the host, a prefix before "@" the prefix and the host. |
| Network.WhyExact | engine/network.go:128-148 | Why a text is no route: a prefix that is none before "@", an "@" anywhere else, or no "@" and no label. |
| Network.RouteHostInjective | engine/network.go:105-117 | For one instance, different routes name different hosts. |
| Network.RoutesAreLaminar | engine/network.go:69-80 | Two routes reach a common name if and only if they are the same or one is "@" and the other a child, whose names then all lie inside. |
| Network.OneMostSpecific | engine/network.go:69-80 | In a valid network a name any route reaches has exactly one most specific route, whose names lie inside those of every other route that reaches it. |
| GoStrings.SplitExact | modindex/modindex.go:267 | Splitting gives the one list of parts, free of the separator, that joins to the text. |
| GoStrings.AtoiExact | modindex/modindex.go:276-277 | An int is read from its digits, with or without a sign, exactly when it fits 64 bits. |
| GoStrings.LowerExact | binaries/binaries.go:204 | Two texts are the same in lower case exactly when they differ in the case of ASCII letters at most. |

## Left out

- gRPC, go-plugin launching and the broker, HTTP, TLS, YAML, gzip, tar, zip, ed25519, HCL, gob and cty: library code; YAML reading back what it wrote is assumed, the rest are arbitrary functions or answers.
- File-descriptor passing and the copying of bytes in the splice: only their ending and the closes are modelled. `Handoff` never closes the client on the host's side, and nothing is claimed about that.
- Handoff.AlwaysProgress: says some side can step; that Boot, Preamble, Handshake and the splice come back at all is assumed, as is a filter that unregisters its own key in its cleanup.
- WireFraming.PluginUnderstands: the ends of the channel and its buffering are in `Handoff`, where a line is a message.
- CancelRegistry.Registry.Register: a random source that never draws a usable free key is excluded; the Go loop would not end on it.
- Lockfile.Lock.Record: nil receivers are not modelled, and the two levels of map, engine and spec, are one map keyed by both.
- Lockfile.Lock.Get: a null pin under the very key asked for is excluded, since the Go code dereferences it; `Resolve.LocalRun` ends there.
- Resolve.RemoteRefinesLocal: the plugin and its wire do not fail by themselves. Engine names without NUL, which `Resolve.KeyRoundTrip` shows the keys need. `ExactDots` is not modelled: whatever `exactFull` answers is part of the request.
- Resolve.ResolveRemotely: the fallback for a locker that cannot list its entries is not modelled.
- ModIndex.SortNewestFirst: an insertion sort stands for `sort.Slice`; on versions that are not ordered nothing is claimed of its order.
- JsonReader.RoundTrip: the reader knows the kinds of value a payload has: no fractions, exponents, booleans or arrays of anything but strings. It refuses an object that repeats a name.
- Publishing.IndexFile.MergeIndex: letter case is ASCII case, all a hex digest has. Compiling, archiving and the metadata files are not modelled.
- Binaries.Manager.Ensure: manifest memoization and where the mirror is are part of what the mirror offers.
- Toolchains.Place.Ensure: one process at a time; how tar entries become paths, and an archive that holds a file of the digest record's own name, are not modelled.
- Download.Cache.EnsureDownload: one failure or death a call; the digest record is written whole or not at all, removing the temp directory either completes or the process dies, and two URLs have two cache keys. The layout under the unpacked root and path checks while unpacking are not modelled.
- Template.RaceIsSafe: temp names are unique and an empty directory is never ready; `CloneTemplateDir` is not modelled.
- Tail.StoppedModuleReturns: that a cancelled module stops is its own contract, and assumed.
- PluginManager.Manager.Driver: the resolver's answer and whether a process is alive are given from outside.
- Spawn.Spawn: starting processes, probes and timeouts are one answer per spec, whether it comes up.
- Network.ValidateNetwork: the text of each problem is not modelled, its kind and what it names are.
- The capability wrappers, field-by-field conversions, console builders, logging and error texts: record copying and single-branch facts.
