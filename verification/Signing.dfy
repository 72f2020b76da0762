/** The signed part of a module index (modindex/modindex.go). */
module Signing {
  import opened GoStrings
  import opened ModIndex
  import opened Json

  /** strings.ToLower for a character mapping `lower` (unicode.ToLower in Go). */
  function ToLower(lower: char -> char, s: string): string
  {
    seq(|s|, i requires 0 <= i < |s| => lower(s[i]))
  }

  // ---- The value that is encoded

  function ArtifactValue(lower: char -> char, a: Artifact): Value
  {
    var fields := map["url" := String(a.url), "sha256" := String(ToLower(lower, a.sha256))];
    Object(if a.sig != "" then fields["sig" := String(a.sig)] else fields)
  }

  function ArtifactsValue(lower: char -> char, artifacts: map<string, Artifact>): Value
  {
    Object(map triple | triple in artifacts :: ArtifactValue(lower, artifacts[triple]))
  }

  function ReleaseValue(lower: char -> char, r: Release): Value
  {
    var fields := map["protocol" := Number(r.protocol), "artifacts" := ArtifactsValue(lower, r.artifacts)];
    Object(if r.engines != [] then fields["engines" := Array(r.engines)] else fields)
  }

  function ReleasesValue(lower: char -> char, releases: map<string, Release>): Value
  {
    Object(map v | v in releases :: ReleaseValue(lower, releases[v]))
  }

  function ChannelsValue(channels: Option<map<string, string>>): Value
  {
    match channels
    case None => Null
    case Some(m) => Object(map c | c in m :: String(m[c]))
  }

  function PayloadValue(lower: char -> char, idx: Index): Value
  {
    Object(map["module" := String(idx.moduleName), "namespace" := String(idx.namespace),
               "releases" := ReleasesValue(lower, idx.releases), "channels" := ChannelsValue(idx.channels)])
  }

  ghost function Payload(lower: char -> char, idx: Index): string
  {
    Encode(PayloadValue(lower, idx))
  }

  // ---- What a signature vouches for

  ghost predicate SameArtifact(lower: char -> char, a: Artifact, b: Artifact)
  {
    a.url == b.url && a.sig == b.sig && ToLower(lower, a.sha256) == ToLower(lower, b.sha256)
  }

  ghost predicate SameRelease(lower: char -> char, a: Release, b: Release)
  {
    && a.protocol == b.protocol && a.engines == b.engines && a.artifacts.Keys == b.artifacts.Keys
    && forall t :: t in a.artifacts ==> SameArtifact(lower, a.artifacts[t], b.artifacts[t])
  }

  /** Everything signed agrees. Schema, the doze fields, digest letter case and the signature itself are not signed. */
  ghost predicate SameSigned(lower: char -> char, a: Index, b: Index)
  {
    && a.moduleName == b.moduleName && a.namespace == b.namespace && a.channels == b.channels
    && a.releases.Keys == b.releases.Keys
    && forall v :: v in a.releases ==> SameRelease(lower, a.releases[v], b.releases[v])
  }

  lemma ArtifactValueExact(lower: char -> char, a: Artifact, b: Artifact)
    ensures ArtifactValue(lower, a) == ArtifactValue(lower, b) <==> SameArtifact(lower, a, b)
  {
    var f, g := ArtifactValue(lower, a).fields, ArtifactValue(lower, b).fields;
    assert f["url"] == String(a.url) && g["url"] == String(b.url);
    assert f["sha256"] == String(ToLower(lower, a.sha256)) && g["sha256"] == String(ToLower(lower, b.sha256));
    assert "sig" in f <==> a.sig != "";
    assert "sig" in g <==> b.sig != "";
    assert "sig" in f ==> f["sig"] == String(a.sig);
    assert "sig" in g ==> g["sig"] == String(b.sig);
  }

  lemma ReleaseValueExact(lower: char -> char, a: Release, b: Release)
    ensures ReleaseValue(lower, a) == ReleaseValue(lower, b) <==> SameRelease(lower, a, b)
  {
    var f, g := ReleaseValue(lower, a).fields, ReleaseValue(lower, b).fields;
    assert f["protocol"] == Number(a.protocol) && g["protocol"] == Number(b.protocol);
    assert f["artifacts"] == ArtifactsValue(lower, a.artifacts) && g["artifacts"] == ArtifactsValue(lower, b.artifacts);
    assert "engines" in f <==> a.engines != [];
    assert "engines" in g <==> b.engines != [];
    assert "engines" in f ==> f["engines"] == Array(a.engines);
    assert "engines" in g ==> g["engines"] == Array(b.engines);
    ArtifactsValueExact(lower, a.artifacts, b.artifacts);
  }

  lemma ArtifactsValueExact(lower: char -> char, a: map<string, Artifact>, b: map<string, Artifact>)
    ensures ArtifactsValue(lower, a) == ArtifactsValue(lower, b) <==>
      a.Keys == b.Keys && forall t :: t in a ==> SameArtifact(lower, a[t], b[t])
  {
    var f, g := ArtifactsValue(lower, a).fields, ArtifactsValue(lower, b).fields;
    assert f.Keys == a.Keys && g.Keys == b.Keys;
    forall t | t in a && t in b ensures f[t] == g[t] <==> SameArtifact(lower, a[t], b[t]) {
      ArtifactValueExact(lower, a[t], b[t]);
    }
    if f.Keys == g.Keys && forall t :: t in f ==> f[t] == g[t] { assert f == g; }
  }

  lemma ReleasesValueExact(lower: char -> char, a: map<string, Release>, b: map<string, Release>)
    ensures ReleasesValue(lower, a) == ReleasesValue(lower, b) <==>
      a.Keys == b.Keys && forall v :: v in a ==> SameRelease(lower, a[v], b[v])
  {
    var f, g := ReleasesValue(lower, a).fields, ReleasesValue(lower, b).fields;
    assert f.Keys == a.Keys && g.Keys == b.Keys;
    forall v | v in a && v in b ensures f[v] == g[v] <==> SameRelease(lower, a[v], b[v]) {
      ReleaseValueExact(lower, a[v], b[v]);
    }
    if f.Keys == g.Keys && forall v :: v in f ==> f[v] == g[v] { assert f == g; }
  }

  lemma ChannelsValueExact(a: Option<map<string, string>>, b: Option<map<string, string>>)
    ensures ChannelsValue(a) == ChannelsValue(b) <==> a == b
  {
    if a.Some? && b.Some? {
      var f, g := ChannelsValue(a).fields, ChannelsValue(b).fields;
      assert f.Keys == a.value.Keys && g.Keys == b.value.Keys;
      if f == g {
        forall c | c in a.value ensures a.value[c] == b.value[c] { assert f[c] == g[c]; }
        assert a.value == b.value;
      }
    }
  }

  /** The payload is unambiguous: two indexes have the same signed text exactly when everything signed agrees. */
  lemma PayloadUnambiguous(lower: char -> char, a: Index, b: Index)
    ensures Payload(lower, a) == Payload(lower, b) <==> SameSigned(lower, a, b)
  {
    var v, w := PayloadValue(lower, a), PayloadValue(lower, b);
    if Payload(lower, a) == Payload(lower, b) {
      EncodePrefixFree(v, w, "", "");
    }
    assert v.fields["module"] == String(a.moduleName) && w.fields["module"] == String(b.moduleName);
    assert v.fields["namespace"] == String(a.namespace) && w.fields["namespace"] == String(b.namespace);
    assert v.fields["releases"] == ReleasesValue(lower, a.releases)
      && w.fields["releases"] == ReleasesValue(lower, b.releases);
    assert v.fields["channels"] == ChannelsValue(a.channels) && w.fields["channels"] == ChannelsValue(b.channels);
    ReleasesValueExact(lower, a.releases, b.releases);
    ChannelsValueExact(a.channels, b.channels);
  }

  // ---- Building and printing the payload

  method InsertKey(keys: seq<string>, key: string) returns (r: seq<string>)
    requires Sorted(keys) && key !in keys
    ensures Sorted(r) && forall k :: k in r <==> k in keys || k == key
  {
    var i := 0;
    while i < |keys| && Compare(keys[i], key) < 0
      invariant i <= |keys|
      invariant forall j :: 0 <= j < i ==> Compare(keys[j], key) < 0
    {
      i := i + 1;
    }
    r := keys[..i] + [key] + keys[i..];
    assert keys == keys[..i] + keys[i..];
    forall j | i <= j < |keys| ensures Compare(key, keys[j]) < 0 {
      CompareTotal(keys[i], key);
      if j > i { CompareTransitive(key, keys[i], keys[j]); }
    }
  }

  /** The keys come out of a map in any order; sorted, they come out in one. */
  method SortKeys(domain: set<string>) returns (keys: seq<string>)
    ensures keys == SortedKeys(domain)
  {
    keys := [];
    var todo := domain;
    while todo != {}
      invariant todo <= domain
      invariant IsSortingOf(keys, domain - todo)
      decreases todo
    {
      var k :| k in todo;
      keys := InsertKey(keys, k);
      todo := todo - {k};
    }
    SortingIsUnique(keys, domain);
  }

  method EncodeItems(items: seq<string>) returns (text: string)
    ensures text == "[" + ItemsFrom(items, 0)
  {
    text := "[";
    for i := 0 to |items|
      invariant text + ItemsFrom(items, i) == "[" + ItemsFrom(items, 0)
    {
      var item := (if i == 0 then "" else ",") + Quoted(items[i]);
      Regroup(text, item, ItemsFrom(items, i + 1));
      text := text + item;
    }
    text := text + "]";
  }

  method EncodeText(v: Value) returns (text: string)
    ensures text == Encode(v)
    decreases v
  {
    match v {
      case Null => text := "null";
      case Number(n) => text := Integer(n);
      case String(s) => text := Quoted(s);
      case Array(items) => text := EncodeItems(items);
      case Object(fields) =>
        var keys := SortKeys(fields.Keys);
        text := "{";
        for i := 0 to |keys|
          invariant text + FieldsFrom(v, keys, i) == Encode(v)
        {
          var value := EncodeText(fields[keys[i]]);
          var field := (if i == 0 then "" else ",") + Quoted(keys[i]) + ":" + value;
          Regroup(text, field, FieldsFrom(v, keys, i + 1));
          text := text + field;
        }
        text := text + "}";
    }
  }

  function TrimNewlines(s: string): string
  {
    if s != "" && s[|s| - 1] == '\n' then TrimNewlines(s[..|s| - 1]) else s
  }

  lemma {:induction false} FieldsEndInBrace(v: Value, keys: seq<string>, i: nat)
    requires v.Object? && forall k :: k in keys ==> k in v.fields
    ensures var text := FieldsFrom(v, keys, i); text != "" && text[|text| - 1] == '}'
    decreases |keys| - i
  {
    if i < |keys| { FieldsEndInBrace(v, keys, i + 1); }
  }

  lemma TrimsOne(text: string)
    requires text != "" && text[|text| - 1] == '}'
    ensures TrimNewlines(text + "\n") == text
  {
    assert (text + "\n")[..|text|] == text;
    assert TrimNewlines(text) == text;
  }

  method ArtifactsPayload(lower: char -> char, artifacts: map<string, Artifact>) returns (v: Value)
    ensures v == ArtifactsValue(lower, artifacts)
  {
    var arts: map<string, Value> := map[];
    var todo := artifacts.Keys;
    while todo != {}
      invariant todo <= artifacts.Keys
      invariant arts == map triple | triple in artifacts.Keys - todo :: ArtifactValue(lower, artifacts[triple])
      decreases todo
    {
      var triple :| triple in todo;
      todo := todo - {triple};
      var a := artifacts[triple];
      var art := map["url" := String(a.url), "sha256" := String(ToLower(lower, a.sha256))];
      if a.sig != "" { art := art["sig" := String(a.sig)]; }
      arts := arts[triple := Object(art)];
    }
    v := Object(arts);
  }

  method ReleasesPayload(lower: char -> char, releases: map<string, Release>) returns (v: Value)
    ensures v == ReleasesValue(lower, releases)
  {
    var rels: map<string, Value> := map[];
    var todo := releases.Keys;
    while todo != {}
      invariant todo <= releases.Keys
      invariant rels == map version | version in releases.Keys - todo :: ReleaseValue(lower, releases[version])
      decreases todo
    {
      var version :| version in todo;
      todo := todo - {version};
      var r := releases[version];
      var artifacts := ArtifactsPayload(lower, r.artifacts);
      var rel := map["protocol" := Number(r.protocol), "artifacts" := artifacts];
      if |r.engines| > 0 { rel := rel["engines" := Array(r.engines)]; }
      rels := rels[version := Object(rel)];
    }
    v := Object(rels);
  }

  /** The payload, whatever order the releases and artifacts are visited in; the encoder's newline is
      trimmed off again. */
  method CanonicalPayload(lower: char -> char, idx: Index) returns (payload: string)
    ensures payload == Payload(lower, idx)
  {
    var releases := ReleasesPayload(lower, idx.releases);
    var value := Object(map["module" := String(idx.moduleName), "namespace" := String(idx.namespace),
                            "releases" := releases, "channels" := ChannelsValue(idx.channels)]);
    assert value == PayloadValue(lower, idx);
    var text := EncodeText(value);
    FieldsEndInBrace(value, SortedKeys(value.fields.Keys), 0);
    TrimsOne(text);
    payload := TrimNewlines(text + "\n");
  }
}
