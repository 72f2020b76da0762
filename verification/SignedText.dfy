/** What the signed text of an index says, read by the grammar of JSON alone, and how it is spelled
    (modindex/modindex.go `CanonicalPayload`). */
module SignedText {
  import opened GoStrings
  import opened ModIndex
  import opened Json
  import opened JsonReader
  import opened Signing

  // ---- Reading it

  /** A member of an object, if it is one and has it. */
  function Member(v: Option<Value>, name: string): Option<Value>
  {
    if v.Some? && v.value.Object? && name in v.value.fields then Some(v.value.fields[name]) else None
  }

  function Names(v: Option<Value>): set<string>
  {
    if v.Some? && v.value.Object? then v.value.fields.Keys else {}
  }

  /** The string is this one, letter by letter in lower case. */
  predicate Lowered(lower: char -> char, s: string, v: Option<Value>)
  {
    v.Some? && v.value.String? && |v.value.s| == |s| && forall i :: 0 <= i < |s| ==> v.value.s[i] == lower(s[i])
  }

  ghost predicate SaysArtifact(lower: char -> char, v: Option<Value>, a: Artifact)
  {
    && Names(v) == {"url", "sha256"} + (if a.sig == "" then {} else {"sig"})
    && Member(v, "url") == Some(String(a.url))
    && Lowered(lower, a.sha256, Member(v, "sha256"))
    && (a.sig != "" ==> Member(v, "sig") == Some(String(a.sig)))
  }

  ghost predicate SaysRelease(lower: char -> char, v: Option<Value>, r: Release)
  {
    && Names(v) == {"protocol", "artifacts"} + (if r.engines == [] then {} else {"engines"})
    && Member(v, "protocol") == Some(Number(r.protocol))
    && (r.engines != [] ==> Member(v, "engines") == Some(Array(r.engines)))
    && Names(Member(v, "artifacts")) == r.artifacts.Keys
    && forall t :: t in r.artifacts ==> SaysArtifact(lower, Member(Member(v, "artifacts"), t), r.artifacts[t])
  }

  ghost predicate SaysChannels(v: Option<Value>, channels: Option<map<string, string>>)
  {
    match channels
    case None => v == Some(Null)
    case Some(m) =>
      v.Some? && v.value.Object? && Names(v) == m.Keys && forall c :: c in m ==> Member(v, c) == Some(String(m[c]))
  }

  lemma ArtifactSaid(lower: char -> char, a: Artifact)
    ensures SaysArtifact(lower, Some(ArtifactValue(lower, a)), a)
  {
  }

  lemma ReleaseSaid(lower: char -> char, r: Release)
    ensures SaysRelease(lower, Some(ReleaseValue(lower, r)), r)
  {
    forall t | t in r.artifacts { ArtifactSaid(lower, r.artifacts[t]); }
  }

  /** Read by the grammar of JSON alone, the signed text is an object whose members are the index's own: its module,
      namespace and channels, and for each release its protocol, its engines if it has any, and for each triple the URL,
      the digest in lower case and the signature if there is one; and nothing else. */
  lemma PayloadReads(lower: char -> char, idx: Index) returns (doc: Value)
    ensures ReadText(Payload(lower, idx)) == Some(doc)
    ensures Names(Some(doc)) == {"module", "namespace", "releases", "channels"}
    ensures Member(Some(doc), "module") == Some(String(idx.moduleName))
    ensures Member(Some(doc), "namespace") == Some(String(idx.namespace))
    ensures SaysChannels(Member(Some(doc), "channels"), idx.channels)
    ensures
      var releases := Member(Some(doc), "releases");
      && Names(releases) == idx.releases.Keys
      && forall v :: v in idx.releases ==> SaysRelease(lower, Member(releases, v), idx.releases[v])
  {
    doc := PayloadValue(lower, idx);
    RoundTrip(doc);
    PayloadMembers(lower, idx);
    ReleasesSaid(lower, idx.releases);
    ChannelsSaid(idx.channels);
  }

  lemma PayloadMembers(lower: char -> char, idx: Index)
    ensures
      var doc := Some(PayloadValue(lower, idx));
      && Names(doc) == {"module", "namespace", "releases", "channels"}
      && Member(doc, "module") == Some(String(idx.moduleName))
      && Member(doc, "namespace") == Some(String(idx.namespace))
      && Member(doc, "channels") == Some(ChannelsValue(idx.channels))
      && Member(doc, "releases") == Some(ReleasesValue(lower, idx.releases))
  {
  }

  lemma ReleasesSaid(lower: char -> char, releases: map<string, Release>)
    ensures
      var said := Some(ReleasesValue(lower, releases));
      && Names(said) == releases.Keys
      && forall v :: v in releases ==> SaysRelease(lower, Member(said, v), releases[v])
  {
    var said := ReleasesValue(lower, releases);
    forall v | v in releases ensures SaysRelease(lower, Member(Some(said), v), releases[v]) {
      ReleaseSaid(lower, releases[v]);
      assert said.fields[v] == ReleaseValue(lower, releases[v]);
    }
  }

  lemma ChannelsSaid(channels: Option<map<string, string>>)
    ensures SaysChannels(Some(ChannelsValue(channels)), channels)
  {
  }

  // ---- The text, to the letter

  /** Characters that are written as themselves. */
  predicate Plain(s: string)
  {
    forall i :: 0 <= i < |s| ==> ' ' <= s[i] < '\U{2028}' && s[i] != '"' && s[i] != '\\'
  }

  lemma {:induction false} EscapedPlain(s: string)
    requires Plain(s)
    ensures Escaped(s) == s + "\""
  {
    if s != [] {
      EscapedPlain(s[1..]);
      assert s == [s[0]] + s[1..];
    }
  }

  lemma {:induction false} AdjacentSorted(keys: seq<string>)
    requires forall i :: 0 <= i < |keys| - 1 ==> Compare(keys[i], keys[i + 1]) < 0
    ensures Sorted(keys)
  {
    if |keys| > 1 {
      AdjacentSorted(keys[1..]);
      forall j | 0 < j < |keys| ensures Compare(keys[0], keys[j]) < 0 {
        if j > 1 { CompareTransitive(keys[0], keys[1], keys[1..][j - 1]); }
      }
      forall i, j | 0 < i < j < |keys| ensures Compare(keys[i], keys[j]) < 0 {
        assert keys[1..][i - 1] == keys[i] && keys[1..][j - 1] == keys[j];
      }
    }
  }

  /** An object's text from one field on, each value after its lead. */
  ghost function Woven(v: Value, keys: seq<string>, leads: seq<string>, i: nat): string
    requires v.Object? && |leads| == |keys| && forall k :: k in keys ==> k in v.fields
    decreases |keys| - i
  {
    if i >= |keys| then "}" else leads[i] + Encode(v.fields[keys[i]]) + Woven(v, keys, leads, i + 1)
  }

  /** A lead is a comma but for the first, and the key in quotes and a colon. */
  predicate Leads(keys: seq<string>, leads: seq<string>)
  {
    && |leads| == |keys|
    && forall i :: 0 <= i < |keys| ==>
      Plain(keys[i]) && leads[i] == (if i == 0 then "" else ",") + "\"" + keys[i] + "\":"
  }

  lemma {:induction false} WovenFields(v: Value, keys: seq<string>, leads: seq<string>, i: nat)
    requires v.Object? && Leads(keys, leads) && forall k :: k in keys ==> k in v.fields
    ensures FieldsFrom(v, keys, i) == Woven(v, keys, leads, i)
    decreases |keys| - i
  {
    if i < |keys| {
      LeadIs(keys[i], i, leads[i]);
      WovenFields(v, keys, leads, i + 1);
    }
  }

  lemma LeadIs(key: string, i: nat, lead: string)
    requires Plain(key) && lead == (if i == 0 then "" else ",") + "\"" + key + "\":"
    ensures lead == (if i == 0 then "" else ",") + Quoted(key) + ":"
  {
    EscapedPlain(key);
    var comma := if i == 0 then "" else ",";
    Regroup(comma + "\"", key, "\":");
    Regroup(comma, "\"", key + "\"");
    assert key + "\":" == key + "\"" + ":";
  }

  lemma WovenText(v: Value, keys: seq<string>, leads: seq<string>)
    requires v.Object? && Leads(keys, leads) && Sorted(keys) && forall k :: k in keys <==> k in v.fields
    ensures Encode(v) == "{" + Woven(v, keys, leads, 0)
  {
    SortingIsUnique(keys, v.fields.Keys);
    WovenFields(v, keys, leads, 0);
  }

  /** The text of an object of two fields, of three, and of four. */
  lemma TextOfTwo(v: Value, keys: seq<string>, leads: seq<string>)
    requires v.Object? && |keys| == 2 && Leads(keys, leads) && Sorted(keys) && forall k :: k in keys <==> k in v.fields
    ensures Encode(v) == "{" + (leads[0] + Encode(v.fields[keys[0]]) + (leads[1] + Encode(v.fields[keys[1]]) + "}"))
  {
    WovenText(v, keys, leads);
    assert Woven(v, keys, leads, 1) == leads[1] + Encode(v.fields[keys[1]]) + Woven(v, keys, leads, 2);
  }

  lemma TextOfThree(v: Value, keys: seq<string>, leads: seq<string>)
    requires v.Object? && |keys| == 3 && Leads(keys, leads) && Sorted(keys) && forall k :: k in keys <==> k in v.fields
    ensures Encode(v) ==
      "{" + (leads[0] + Encode(v.fields[keys[0]]) + (leads[1] + Encode(v.fields[keys[1]]) +
        (leads[2] + Encode(v.fields[keys[2]]) + "}")))
  {
    WovenText(v, keys, leads);
    assert Woven(v, keys, leads, 2) == leads[2] + Encode(v.fields[keys[2]]) + Woven(v, keys, leads, 3);
    assert Woven(v, keys, leads, 1) == leads[1] + Encode(v.fields[keys[1]]) + Woven(v, keys, leads, 2);
  }

  lemma TextOfFour(v: Value, keys: seq<string>, leads: seq<string>)
    requires v.Object? && |keys| == 4 && Leads(keys, leads) && Sorted(keys) && forall k :: k in keys <==> k in v.fields
    ensures Encode(v) ==
      "{" + (leads[0] + Encode(v.fields[keys[0]]) + (leads[1] + Encode(v.fields[keys[1]]) +
        (leads[2] + Encode(v.fields[keys[2]]) + (leads[3] + Encode(v.fields[keys[3]]) + "}"))))
  {
    WovenText(v, keys, leads);
    assert Woven(v, keys, leads, 3) == leads[3] + Encode(v.fields[keys[3]]) + Woven(v, keys, leads, 4);
    assert Woven(v, keys, leads, 2) == leads[2] + Encode(v.fields[keys[2]]) + Woven(v, keys, leads, 3);
    assert Woven(v, keys, leads, 1) == leads[1] + Encode(v.fields[keys[1]]) + Woven(v, keys, leads, 2);
  }

  lemma SortedThree(a: string, b: string, c: string)
    requires Compare(a, b) < 0 && Compare(b, c) < 0
    ensures Sorted([a, c]) && Sorted([a, b, c])
  {
    CompareTransitive(a, b, c);
  }

  lemma SortedFour(a: string, b: string, c: string, d: string)
    requires Compare(a, b) < 0 && Compare(b, c) < 0 && Compare(c, d) < 0
    ensures Sorted([a, b, c, d])
  {
    AdjacentSorted([a, b, c, d]);
  }

  lemma LeadsThree(a: string, b: string, c: string, leadA: string, leadB: string, leadC: string)
    requires Plain(a) && Plain(b) && Plain(c)
    requires leadA == "\"" + a + "\":" && leadB == ",\"" + b + "\":" && leadC == ",\"" + c + "\":"
    ensures Leads([a, b, c], [leadA, leadB, leadC])
  {
    assert "" + "\"" + a == "\"" + a && "," + "\"" == ",\"";
  }

  lemma LeadsFour(
    a: string, b: string, c: string, d: string, leadA: string, leadB: string, leadC: string, leadD: string)
    requires Plain(a) && Plain(b) && Plain(c) && Plain(d)
    requires leadA == "\"" + a + "\":" && leadB == ",\"" + b + "\":"
    requires leadC == ",\"" + c + "\":" && leadD == ",\"" + d + "\":"
    ensures Leads([a, b, c, d], [leadA, leadB, leadC, leadD])
  {
    assert "" + "\"" + a == "\"" + a && "," + "\"" == ",\"";
  }

  lemma ArtifactLeads()
    ensures Leads(["sha256", "sig", "url"], ["\"sha256\":", ",\"sig\":", ",\"url\":"])
  {
    LeadsThree("sha256", "sig", "url", "\"sha256\":", ",\"sig\":", ",\"url\":");
  }

  lemma ArtifactSorted()
    ensures Sorted(["sha256", "url"]) && Sorted(["sha256", "sig", "url"])
  {
    SortedThree("sha256", "sig", "url");
  }

  lemma ReleaseLeads()
    ensures Leads(["artifacts", "engines", "protocol"], ["\"artifacts\":", ",\"engines\":", ",\"protocol\":"])
  {
    LeadsThree("artifacts", "engines", "protocol", "\"artifacts\":", ",\"engines\":", ",\"protocol\":");
  }

  lemma ReleaseSorted()
    ensures Sorted(["artifacts", "protocol"]) && Sorted(["artifacts", "engines", "protocol"])
  {
    SortedThree("artifacts", "engines", "protocol");
  }

  lemma IndexLeads()
    ensures Leads(["channels", "module", "namespace", "releases"],
                  ["\"channels\":", ",\"module\":", ",\"namespace\":", ",\"releases\":"])
  {
    LeadsFour("channels", "module", "namespace", "releases",
              "\"channels\":", ",\"module\":", ",\"namespace\":", ",\"releases\":");
  }

  lemma IndexSorted()
    ensures Sorted(["channels", "module", "namespace", "releases"])
  {
    SortedFour("channels", "module", "namespace", "releases");
  }

  /** Leaving out the middle one. */
  lemma OuterLeads(a: string, b: string, c: string, leadA: string, leadB: string, leadC: string)
    requires Leads([a, b, c], [leadA, leadB, leadC])
    ensures Leads([a, c], [leadA, leadC])
  {
    var keys, leads := [a, b, c], [leadA, leadB, leadC];
    assert keys[0] == a && keys[2] == c && leads[0] == leadA && leads[2] == leadC;
  }

  /** The text of any artifact. */
  lemma ArtifactText(lower: char -> char, a: Artifact)
    ensures
      var text, url := Encode(ArtifactValue(lower, a)), ",\"url\":" + Quoted(a.url) + "}";
      text == "{" + ("\"sha256\":" + Quoted(ToLower(lower, a.sha256)) +
        if a.sig == "" then url else ",\"sig\":" + Quoted(a.sig) + url)
  {
    ArtifactLeads();
    ArtifactSorted();
    var v := ArtifactValue(lower, a);
    if a.sig == "" {
      OuterLeads("sha256", "sig", "url", "\"sha256\":", ",\"sig\":", ",\"url\":");
      TextOfTwo(v, ["sha256", "url"], ["\"sha256\":", ",\"url\":"]);
    } else {
      TextOfThree(v, ["sha256", "sig", "url"], ["\"sha256\":", ",\"sig\":", ",\"url\":"]);
    }
  }

  /** The text of any release. */
  lemma ReleaseText(lower: char -> char, r: Release)
    ensures
      var text, protocol := Encode(ReleaseValue(lower, r)), ",\"protocol\":" + Integer(r.protocol) + "}";
      text == "{" + ("\"artifacts\":" + Encode(ArtifactsValue(lower, r.artifacts)) +
        if r.engines == [] then protocol else ",\"engines\":" + ("[" + ItemsFrom(r.engines, 0)) + protocol)
  {
    if r.engines == [] { UngatedText(lower, r); } else { GatedText(lower, r); }
  }

  lemma UngatedText(lower: char -> char, r: Release)
    requires r.engines == []
    ensures Encode(ReleaseValue(lower, r)) ==
      "{" + ("\"artifacts\":" + Encode(ArtifactsValue(lower, r.artifacts))
        + (",\"protocol\":" + Integer(r.protocol) + "}"))
  {
    ReleaseLeads();
    ReleaseSorted();
    OuterLeads("artifacts", "engines", "protocol", "\"artifacts\":", ",\"engines\":", ",\"protocol\":");
    TextOfTwo(ReleaseValue(lower, r), ["artifacts", "protocol"], ["\"artifacts\":", ",\"protocol\":"]);
  }

  lemma GatedText(lower: char -> char, r: Release)
    requires r.engines != []
    ensures Encode(ReleaseValue(lower, r)) ==
      "{" + ("\"artifacts\":" + Encode(ArtifactsValue(lower, r.artifacts)) +
        (",\"engines\":" + ("[" + ItemsFrom(r.engines, 0)) + (",\"protocol\":" + Integer(r.protocol) + "}")))
  {
    ReleaseLeads();
    ReleaseSorted();
    TextOfThree(ReleaseValue(lower, r), ["artifacts", "engines", "protocol"],
                ["\"artifacts\":", ",\"engines\":", ",\"protocol\":"]);
  }

  /** The text of any index. */
  lemma PayloadText(lower: char -> char, idx: Index)
    ensures Payload(lower, idx) ==
      "{" + ("\"channels\":" + Encode(ChannelsValue(idx.channels)) + (",\"module\":" + Quoted(idx.moduleName) +
        (",\"namespace\":" + Quoted(idx.namespace)
          + (",\"releases\":" + Encode(ReleasesValue(lower, idx.releases)) + "}"))))
  {
    IndexLeads();
    IndexSorted();
    TextOfFour(PayloadValue(lower, idx), ["channels", "module", "namespace", "releases"],
               ["\"channels\":", ",\"module\":", ",\"namespace\":", ",\"releases\":"]);
  }

  // ---- One payload, to the letter

  const SHIPPED := Artifact("a\"b\n", "AB", "s=")

  const PUBLISHED := Release(1, ["16", "17"], map["linux" := SHIPPED], "0.2.0")

  const KNOWN := Index(1, "m", "n", map["0.1.0" := PUBLISHED], Some(map["stable" := "0.1.0"]), "")

  const SHIPPED_TEXT := "{\"sha256\":\"ab\",\"sig\":\"s=\",\"url\":\"a\\\"b\\n\"}"

  const PUBLISHED_TEXT :=
    "{" + ("\"artifacts\":" + ("{" + ("\"linux\":" + SHIPPED_TEXT + "}")) +
      (",\"engines\":" + "[\"16\",\"17\"]" + (",\"protocol\":" + "1" + "}")))

  const KNOWN_TEXT :=
    "{" + ("\"channels\":" + ("{" + ("\"stable\":" + "\"0.1.0\"" + "}")) + (",\"module\":" + "\"m\"" +
      (",\"namespace\":" + "\"n\"" + (",\"releases\":" + ("{" + ("\"0.1.0\":" + PUBLISHED_TEXT + "}")) + "}"))))

  lemma QuotedPlain(s: string, text: string)
    requires Plain(s) && text == "\"" + s + "\""
    ensures Quoted(s) == text
  {
    EscapedPlain(s);
  }

  lemma ShippedDigest()
    ensures Quoted(ToLower(LowerChar, "AB")) == "\"ab\""
  {
    assert LowerChar('A') == 'a' && LowerChar('B') == 'b';
    assert ToLower(LowerChar, "AB") == "ab";
    QuotedPlain("ab", "\"ab\"");
  }

  lemma ShippedUrl()
    ensures Quoted("a\"b\n") == "\"a\\\"b\\n\""
  {
    assert Escaped("\n") == "\\n\"";
    assert Escaped("b\n") == "b\\n\"";
    assert Escaped("\"b\n") == "\\\"b\\n\"";
    assert Escaped("a\"b\n") == "a\\\"b\\n\"";
  }

  lemma ShippedPieces(digest: string, sig: string, url: string)
    requires digest == "\"ab\"" && sig == "\"s=\"" && url == "\"a\\\"b\\n\""
    ensures "{" + ("\"sha256\":" + digest + (",\"sig\":" + sig + (",\"url\":" + url + "}"))) == SHIPPED_TEXT
  {
  }

  lemma ShippedText()
    ensures Encode(ArtifactValue(LowerChar, SHIPPED)) == SHIPPED_TEXT
  {
    ShippedDigest();
    ShippedUrl();
    QuotedPlain("s=", "\"s=\"");
    ShippedPieces(Quoted(ToLower(LowerChar, SHIPPED.sha256)), Quoted(SHIPPED.sig), Quoted(SHIPPED.url));
    ArtifactText(LowerChar, SHIPPED);
  }

  lemma TextOfOne(v: Value, key: string, lead: string)
    requires v.Object? && v.fields.Keys == {key} && Plain(key) && lead == "\"" + key + "\":"
    ensures Encode(v) == "{" + (lead + Encode(v.fields[key]) + "}")
  {
    var keys, leads := [key], [lead];
    assert "" + "\"" + key == "\"" + key;
    assert Leads(keys, leads);
    WovenText(v, keys, leads);
    WovenEnds(v, keys, leads);
  }

  lemma WovenEnds(v: Value, keys: seq<string>, leads: seq<string>)
    requires v.Object? && |keys| == |leads| == 1 && forall k :: k in keys ==> k in v.fields
    ensures Woven(v, keys, leads, 0) == leads[0] + Encode(v.fields[keys[0]]) + "}"
  {
  }

  lemma OneArtifact(lower: char -> char, triple: string, a: Artifact, lead: string)
    requires Plain(triple) && lead == "\"" + triple + "\":"
    ensures Encode(ArtifactsValue(lower, map[triple := a])) == "{" + (lead + Encode(ArtifactValue(lower, a)) + "}")
  {
    TextOfOne(ArtifactsValue(lower, map[triple := a]), triple, lead);
  }

  lemma OneRelease(lower: char -> char, version: string, r: Release, lead: string)
    requires Plain(version) && lead == "\"" + version + "\":"
    ensures Encode(ReleasesValue(lower, map[version := r])) == "{" + (lead + Encode(ReleaseValue(lower, r)) + "}")
  {
    TextOfOne(ReleasesValue(lower, map[version := r]), version, lead);
  }

  lemma OneChannel(name: string, version: string, lead: string)
    requires Plain(name) && lead == "\"" + name + "\":"
    ensures Encode(ChannelsValue(Some(map[name := version]))) == "{" + (lead + Quoted(version) + "}")
  {
    TextOfOne(ChannelsValue(Some(map[name := version])), name, lead);
  }

  lemma EnginesText()
    ensures "[" + ItemsFrom(["16", "17"], 0) == "[\"16\",\"17\"]"
  {
    QuotedPlain("16", "\"16\"");
    QuotedPlain("17", "\"17\"");
    assert ItemsFrom(["16", "17"], 2) == "]";
    assert ItemsFrom(["16", "17"], 1) == ",\"17\"]";
    assert ItemsFrom(["16", "17"], 0) == "\"16\",\"17\"]";
  }

  lemma ReleasePieces(lower: char -> char, r: Release, artifacts: string, engines: string, protocol: string)
    requires r.engines != [] && Encode(ArtifactsValue(lower, r.artifacts)) == artifacts
    requires "[" + ItemsFrom(r.engines, 0) == engines && Integer(r.protocol) == protocol
    ensures Encode(ReleaseValue(lower, r)) ==
      "{" + ("\"artifacts\":" + artifacts + (",\"engines\":" + engines + (",\"protocol\":" + protocol + "}")))
  {
    GatedText(lower, r);
  }

  lemma PublishedFrom(artifact: string)
    requires Encode(ArtifactValue(LowerChar, SHIPPED)) == artifact
    ensures Encode(ReleaseValue(LowerChar, PUBLISHED)) ==
      "{" + ("\"artifacts\":" + ("{" + ("\"linux\":" + artifact + "}")) +
        (",\"engines\":" + "[\"16\",\"17\"]" + (",\"protocol\":" + "1" + "}")))
  {
    OneArtifact(LowerChar, "linux", SHIPPED, "\"linux\":");
    EnginesText();
    ReleasePieces(LowerChar, PUBLISHED, "{" + ("\"linux\":" + artifact + "}"), "[\"16\",\"17\"]", "1");
  }

  lemma KnownChannels()
    ensures Encode(ChannelsValue(KNOWN.channels)) == "{" + ("\"stable\":" + "\"0.1.0\"" + "}")
  {
    QuotedPlain("0.1.0", "\"0.1.0\"");
    OneChannel("stable", "0.1.0", "\"stable\":");
  }

  lemma KnownReleases(release: string)
    requires Encode(ReleaseValue(LowerChar, PUBLISHED)) == release
    ensures Encode(ReleasesValue(LowerChar, KNOWN.releases)) == "{" + ("\"0.1.0\":" + release + "}")
  {
    OneRelease(LowerChar, "0.1.0", PUBLISHED, "\"0.1.0\":");
  }

  lemma IndexPieces(
    lower: char -> char, idx: Index, channels: string, name: string, namespace: string, releases: string)
    requires Encode(ChannelsValue(idx.channels)) == channels && Encode(ReleasesValue(lower, idx.releases)) == releases
    requires Quoted(idx.moduleName) == name && Quoted(idx.namespace) == namespace
    ensures Payload(lower, idx) ==
      "{" + ("\"channels\":" + channels + (",\"module\":" + name +
        (",\"namespace\":" + namespace + (",\"releases\":" + releases + "}"))))
  {
    PayloadText(lower, idx);
  }

  lemma NamedText(lower: char -> char, idx: Index, channels: string, releases: string)
    requires Encode(ChannelsValue(idx.channels)) == channels && Encode(ReleasesValue(lower, idx.releases)) == releases
    requires idx.moduleName == "m" && idx.namespace == "n"
    ensures Payload(lower, idx) ==
      "{" + ("\"channels\":" + channels + (",\"module\":" + "\"m\"" +
        (",\"namespace\":" + "\"n\"" + (",\"releases\":" + releases + "}"))))
  {
    QuotedPlain("m", "\"m\"");
    QuotedPlain("n", "\"n\"");
    IndexPieces(lower, idx, channels, "\"m\"", "\"n\"", releases);
  }

  /** The signed text of one index, with an artifact, engines, a signature, a channel and characters to escape. */
  lemma KnownPayload()
    ensures Payload(LowerChar, KNOWN) == KNOWN_TEXT
  {
    ShippedText();
    PublishedFrom(SHIPPED_TEXT);
    KnownChannels();
    KnownReleases(PUBLISHED_TEXT);
    NamedText(LowerChar, KNOWN, "{" + ("\"stable\":" + "\"0.1.0\"" + "}"), "{" + ("\"0.1.0\":" + PUBLISHED_TEXT + "}"));
  }
}
