/** The lockfile (binaries/lock.go, binaries/download.go). */
module Lockfile {
  import opened GoStrings

  datatype Pin = Pin(resolved: string, source: string, hashes: map<string, string>)

  datatype ModulePin = ModulePin(version: string, protocol: int, engines: seq<string>, hashes: map<string, string>)

  /** An engine and a spec: the lock's two levels of map as one. */
  type Key = (string, string)

  /** What the file holds. None is an entry whose YAML value is null. */
  datatype Content = Content(engines: map<Key, Option<Pin>>,
                             modules: map<string, Option<ModulePin>>,
                             downloads: map<string, Option<string>>)

  const EMPTY := Content(map[], map[], map[])

  /** A lock in memory, and what was last loaded from or written to its file (None after a write that failed midway). */
  datatype State = State(content: Content, path: string, dirty: bool, disk: Option<Content>)

  datatype LockEntry = LockEntry(eng: string, spec: string, pin: Pin)

  datatype Op =
    | Record(eng: string, spec: string, pin: Pin)
    | RecordModule(source: string, modulePin: ModulePin)
    | DropModule(dropped: string)
    | RecordDownload(url: string, digest: string)
    | Save(written: bool)

  // ---- Reading

  /** A Go map read: a missing key gives the empty string. */
  function Lookup(m: map<string, string>, k: string): string
  {
    if k in m then m[k] else ""
  }

  function Held(c: Content, eng: string, spec: string): Option<Pin>
  {
    if (eng, spec) in c.engines then c.engines[(eng, spec)] else None
  }

  function HeldModule(c: Content, source: string): Option<ModulePin>
  {
    if source in c.modules && c.modules[source].Some? && c.modules[source].value.version != "" then c.modules[source]
    else None
  }

  function HeldDownload(c: Content, url: string): Option<string>
  {
    if url in c.downloads && c.downloads[url].Some? && c.downloads[url].value != "" then c.downloads[url] else None
  }

  // ---- Writing

  /** The hashes of `news` laid over `base`; writing what is read already, blank for absent
      included, changes nothing. */
  function MergeHashes(base: map<string, string>, news: map<string, string>): map<string, string>
  {
    base + map t | t in news && Lookup(base, t) != news[t] :: news[t]
  }

  /** The pin after recording `pin` over `held`: a new resolved version starts afresh, the same one collects hashes. */
  function MergePin(held: Option<Pin>, pin: Pin): Pin
  {
    var base := if held.None? || held.value.resolved != pin.resolved then Pin(pin.resolved, pin.source, map[])
      else held.value;
    Pin(base.resolved, if base.source == "" then pin.source else base.source, MergeHashes(base.hashes, pin.hashes))
  }

  function PutPin(c: Content, eng: string, spec: string, pin: Pin): Content
  {
    c.(engines := c.engines[(eng, spec) := Some(pin)])
  }

  /** What each operation leaves in memory. */
  function ContentAfter(c: Content, op: Op): Content
  {
    match op
    case Record(eng, spec, pin) => PutPin(c, eng, spec, MergePin(Held(c, eng, spec), pin))
    case RecordModule(source, pin) => if pin.version == "" then c else c.(modules := c.modules[source := Some(pin)])
    case DropModule(source) => c.(modules := c.modules - {source})
    case RecordDownload(url, digest) =>
      if digest == "" || HeldDownload(c, url).Some? then c else c.(downloads := c.downloads[url := Some(digest)])
    case Save(_) => c
  }

  /** An operation changes the content, and marks the lock dirty just when it did; Save writes a dirty
      lock that has a path. */
  function Apply(s: State, op: Op): State
  {
    if !op.Save? then
      var content := ContentAfter(s.content, op);
      s.(content := content, dirty := s.dirty || content != s.content)
    else if !s.dirty || s.path == "" then s
    else if op.written then s.(dirty := false, disk := Some(s.content))
    else s.(disk := None)
  }

  function Run(s: State, ops: seq<Op>): State
  {
    if ops == [] then s else Apply(Run(s, ops[..|ops| - 1]), ops[|ops| - 1])
  }

  /** The module entries with a version. */
  function Kept(modules: map<string, Option<ModulePin>>): map<string, Option<ModulePin>>
  {
    map source | source in modules && modules[source].Some? && modules[source].value.version != "" :: modules[source]
  }

  /** The lock a file gives. */
  function Loaded(c: Content, path: string): State
  {
    State(c.(modules := Kept(c.modules)), path, Kept(c.modules) != c.modules, Some(c))
  }

  // ---- Maps and slices, which are references

  /** A Go map or slice: whoever holds it sees the others' writes. */
  class Cell<T> {
    var v: T

    constructor (v: T)
      ensures this.v == v
    {
      this.v := v;
    }
  }

  /** Null is Go's nil, which reads as empty. */
  type GoMap = Cell?<map<string, string>>

  type GoSlice = Cell?<seq<string>>

  /** A pin as it is held in memory, by the lock or by a caller. */
  datatype PinRef = PinRef(resolved: string, source: string, hashes: GoMap)

  datatype ModulePinRef = ModulePinRef(version: string, protocol: int, engines: GoSlice, hashes: GoMap)

  datatype EntryRef = EntryRef(eng: string, spec: string, pin: PinRef)

  type Pins = map<Key, Option<PinRef>>

  type ModulePins = map<string, Option<ModulePinRef>>

  function MapOf(m: GoMap): map<string, string>
    reads m
  {
    if m == null then map[] else m.v
  }

  function SliceOf(s: GoSlice): seq<string>
    reads s
  {
    if s == null then [] else s.v
  }

  function PinOf(p: PinRef): Pin
    reads p.hashes
  {
    Pin(p.resolved, p.source, MapOf(p.hashes))
  }

  function ModulePinOf(p: ModulePinRef): ModulePin
    reads p.engines, p.hashes
  {
    ModulePin(p.version, p.protocol, SliceOf(p.engines), MapOf(p.hashes))
  }

  /** Whose a map or slice is. */
  datatype Owner = OfPin(key: Key) | OfModule(source: string)

  /** The reference reads as this pin, and its map is on the books as that pin's own: so no two pins share one. */
  ghost predicate Holds(books: map<object, Owner>, p: Option<PinRef>, pin: Option<Pin>, owner: Owner)
    reads if p.Some? then p.value.hashes else null
  {
    && (p.Some? <==> pin.Some?)
    && (p.Some? ==>
          && PinOf(p.value) == pin.value
          && (p.value.hashes != null ==> p.value.hashes in books && books[p.value.hashes] == owner))
  }

  ghost predicate HoldsModule(books: map<object, Owner>, p: Option<ModulePinRef>, pin: Option<ModulePin>, owner: Owner)
    reads if p.Some? then p.value.hashes else null, if p.Some? then p.value.engines else null
  {
    && (p.Some? <==> pin.Some?)
    && (p.Some? ==>
         && ModulePinOf(p.value) == pin.value
         && (p.value.hashes != null ==> p.value.hashes in books && books[p.value.hashes] == owner)
         && (p.value.engines != null ==> p.value.engines in books && books[p.value.engines] == owner))
  }

  /** The references in memory read as these pins. */
  ghost predicate Tied(books: map<object, Owner>, engines: Pins, pins: map<Key, Option<Pin>>)
    reads books.Keys
  {
    && engines.Keys == pins.Keys
    && forall k :: k in engines ==> OnBooks(books, engines[k]) && Holds(books, engines[k], pins[k], OfPin(k))
  }

  ghost predicate TiedModules(books: map<object, Owner>, modules: ModulePins, pins: map<string, Option<ModulePin>>)
    reads books.Keys
  {
    && modules.Keys == pins.Keys
    && (forall m :: m in modules ==>
      ModuleOnBooks(books, modules[m]) && HoldsModule(books, modules[m], pins[m], OfModule(m)))
  }

  ghost predicate OnBooks(books: map<object, Owner>, p: Option<PinRef>)
  {
    p.Some? && p.value.hashes != null ==> p.value.hashes in books
  }

  ghost predicate ModuleOnBooks(books: map<object, Owner>, p: Option<ModulePinRef>)
  {
    p.Some? ==>
      && (p.value.hashes != null ==> p.value.hashes in books)
      && (p.value.engines != null ==> p.value.engines in books)
  }

  /** One pin put, the others reading as before. */
  lemma TiedPut(books: map<object, Owner>, engines: Pins, pins: map<Key, Option<Pin>>, key: Key, p: PinRef, pin: Pin)
    requires engines.Keys == pins.Keys
    requires forall k :: k in engines && k != key ==>
      OnBooks(books, engines[k]) && Holds(books, engines[k], pins[k], OfPin(k))
    requires OnBooks(books, Some(p)) && Holds(books, Some(p), Some(pin), OfPin(key))
    ensures Tied(books, engines[key := Some(p)], pins[key := Some(pin)])
  {
  }

  lemma TiedModulePut(
    books: map<object, Owner>, modules: ModulePins, pins: map<string, Option<ModulePin>>, source: string,
    p: ModulePinRef, pin: ModulePin)
    requires TiedModules(books, modules, pins)
    requires ModuleOnBooks(books, Some(p)) && HoldsModule(books, Some(p), Some(pin), OfModule(source))
    ensures TiedModules(books, modules[source := Some(p)], pins[source := Some(pin)])
  {
  }

  /** Entering a new map or slice leaves what is on the books as it is. */
  lemma TiedStill(books: map<object, Owner>, more: map<object, Owner>, engines: Pins, modules: ModulePins, c: Content)
    requires Tied(books, engines, c.engines) && TiedModules(books, modules, c.modules)
    requires forall o :: o in books ==> o in more && more[o] == books[o]
    ensures Tied(more, engines, c.engines) && TiedModules(more, modules, c.modules)
  {
    forall k | k in engines ensures OnBooks(more, engines[k]) && Holds(more, engines[k], c.engines[k], OfPin(k)) {
      assert Holds(books, engines[k], c.engines[k], OfPin(k));
    }
    forall m | m in modules
      ensures ModuleOnBooks(more, modules[m]) && HoldsModule(more, modules[m], c.modules[m], OfModule(m))
    {
      assert HoldsModule(books, modules[m], c.modules[m], OfModule(m));
    }
  }

  method CopyMap(m: GoMap) returns (r: GoMap)
    ensures MapOf(r) == MapOf(m) && (r == null <==> m == null)
    ensures r != null ==> fresh(r)
  {
    if m == null { return null; }
    r := new Cell(m.v);
  }

  method CopySlice(s: GoSlice) returns (r: GoSlice)
    ensures SliceOf(r) == SliceOf(s)
    ensures r != null ==> fresh(r)
  {
    if s == null || s.v == [] { return null; }   // append to a nil slice
    r := new Cell(s.v);
  }

  // ---- The lock object

  /** Record's loop over the hashes of a pin, in any order, into the lock's own map. */
  method MergeTriples(hashes: Cell<map<string, string>>, news: map<string, string>) returns (changed: bool)
    modifies hashes
    ensures hashes.v == MergeHashes(old(hashes.v), news)
    ensures changed <==> hashes.v != old(hashes.v)
  {
    changed := false;
    ghost var base := hashes.v;
    ghost var at := "";
    var todo := news.Keys;
    while todo != {}
      invariant todo <= news.Keys
      invariant forall t :: t in hashes.v <==> t in base || (t in news && t !in todo && Lookup(base, t) != news[t])
      invariant forall t :: t in hashes.v ==>
        hashes.v[t] == if t in news && t !in todo && Lookup(base, t) != news[t] then news[t] else base[t]
      invariant if changed then at in news && at !in todo && Lookup(hashes.v, at) != Lookup(base, at)
        else hashes.v == base
      decreases todo
    {
      var triple :| triple in todo;
      todo := todo - {triple};
      if Lookup(hashes.v, triple) != news[triple] {
        hashes.v := hashes.v[triple := news[triple]];
        changed, at := true, triple;
      }
    }
  }

  /** What YAML decoded the file to, in maps and slices of its own. */
  datatype File = File(engines: Pins, modules: ModulePins, downloads: map<string, Option<string>>)

  /** LoadLock's loop over the module entries. */
  method Scrub(modules: ModulePins) returns (kept: ModulePins, scrubbed: bool)
    ensures kept == map source | source in modules && Versioned(modules[source]) :: modules[source]
    ensures scrubbed <==> exists source :: source in modules && !Versioned(modules[source])
  {
    kept, scrubbed := modules, false;
    ghost var at := "";
    var todo := modules.Keys;
    while todo != {}
      invariant todo <= modules.Keys
      invariant kept ==
        map source | source in modules && (source in todo || Versioned(modules[source])) :: modules[source]
      invariant if scrubbed then at in modules && !Versioned(modules[at]) else kept == modules
      decreases todo
    {
      var source :| source in todo;
      todo := todo - {source};
      if !Versioned(modules[source]) {
        kept := kept - {source};
        scrubbed, at := true, source;
      }
    }
    if !scrubbed { assert forall source :: source in modules ==> source in kept; }
  }

  lemma ScrubbedModules(
    books: map<object, Owner>, modules: ModulePins, pins: map<string, Option<ModulePin>>, kept: ModulePins)
    requires TiedModules(books, modules, pins)
    requires kept == map source | source in modules && Versioned(modules[source]) :: modules[source]
    ensures TiedModules(books, kept, Kept(pins))
    ensures (exists source :: source in modules && !Versioned(modules[source])) <==> Kept(pins) != pins
  {
    forall source | source in modules ensures Versioned(modules[source]) <==> source in Kept(pins) {
      assert HoldsModule(books, modules[source], pins[source], OfModule(source));
    }
  }

  lemma SameModule(s: State, source: string, pin: ModulePin)
    requires pin.version != "" && source in s.content.modules && s.content.modules[source] == Some(pin)
    ensures Apply(s, Op.RecordModule(source, pin)) == s
  {
    assert s.content.modules[source := Some(pin)] == s.content.modules;
  }

  lemma ModuleRecorded(s: State, source: string, pin: ModulePin)
    requires pin.version != "" && !(source in s.content.modules && s.content.modules[source] == Some(pin))
    ensures Apply(s, Op.RecordModule(source, pin)) ==
      s.(content := s.content.(modules := s.content.modules[source := Some(pin)]), dirty := true)
  {
    assert s.content.modules[source := Some(pin)][source] == Some(pin);
  }

  /** Merging a pin is merging it without its hashes, and then the hashes; either step may be the
      one that changes it. */
  lemma MergedInSteps(held: Option<Pin>, pin: Pin, bare: Pin, p: Pin, changed: bool, merged: bool)
    requires bare == MergePin(held, Pin(pin.resolved, pin.source, map[]))
      && p == bare.(hashes := MergeHashes(bare.hashes, pin.hashes))
    requires changed <==> held.None? || bare != held.value
    requires merged <==> p != bare
    ensures p == MergePin(held, pin)
    ensures changed || merged <==> held.None? || p != held.value
  {
    var base := if held.None? || held.value.resolved != pin.resolved then Pin(pin.resolved, pin.source, map[])
      else held.value;
    assert MergeHashes(base.hashes, map[]) == base.hashes;
  }

  lemma NothingToMerge(held: Option<Pin>, bare: Pin)
    requires bare.hashes == map[]
    ensures
      var base := if held.None? || held.value.resolved != bare.resolved then bare else held.value;
      MergePin(held, bare) == base.(source := if base.source == "" then bare.source else base.source)
  {
    var base := if held.None? || held.value.resolved != bare.resolved then bare else held.value;
    assert MergeHashes(base.hashes, map[]) == base.hashes;
  }

  class Lock {
    var engines: Pins
    var modules: ModulePins
    var downloads: map<string, Option<string>>
    var path: string
    var dirty: bool
    ghost var disk: Option<Content>
    ghost var content: Content              // what the lock holds, as values
    ghost var books: map<object, Owner>     // the maps and slices of its pins

    ghost predicate Valid()
      reads this, books.Keys
    {
      && this !in books
      && Tied(books, engines, content.engines) && TiedModules(books, modules, content.modules)
      && downloads == content.downloads
    }

    ghost function View(): State
      reads this
    {
      State(content, path, dirty, disk)
    }

    /** LoadLock: a missing file gives an empty lock; module entries without a version are dropped. `loaded` is the
        file's content as values. */
    constructor Load(path: string, file: Option<File>, ghost loaded: Content, ghost books: map<object, Owner>)
      requires if file.None? then loaded == EMPTY
               else
                 && Tied(books, file.value.engines, loaded.engines)
                 && TiedModules(books, file.value.modules, loaded.modules) && file.value.downloads == loaded.downloads
      ensures Valid() && this.books == books
      ensures View() == Loaded(loaded, path)
      ensures Honest(View())
    {
      var decoded := if file.Some? then file.value else File(map[], map[], map[]);
      var kept, scrubbed := Scrub(decoded.modules);
      ScrubbedModules(books, decoded.modules, loaded.modules, kept);
      this.path := path;
      engines, modules, downloads := decoded.engines, kept, decoded.downloads;
      content, this.books := loaded.(modules := Kept(loaded.modules)), books;
      dirty, disk := scrubbed, Some(loaded);
    }

    /** A null pin under this key would be dereferenced. The map handed out is the caller's own. */
    method Get(eng: string, spec: string) returns (pin: Option<PinRef>)
      requires Valid()
      requires (eng, spec) in engines ==> engines[(eng, spec)].Some?
      ensures (if pin.Some? then Some(PinOf(pin.value)) else None) == Held(content, eng, spec)
      ensures pin.Some? <==> (eng, spec) in engines
      ensures pin.Some? ==> PinOf(pin.value) == PinOf(engines[(eng, spec)].value)
      ensures pin.Some? && pin.value.hashes != null ==> fresh(pin.value.hashes)
    {
      if (eng, spec) in engines {
        assert Holds(books, engines[(eng, spec)], content.engines[(eng, spec)], OfPin((eng, spec)));
        var p := engines[(eng, spec)].value;
        var hashes := CopyMap(p.hashes);
        return Some(PinRef(p.resolved, p.source, hashes));
      }
      return None;
    }

    /** Pin or merge. The lock keeps no reference to the caller's map: what it newly owns is fresh. */
    method Record(eng: string, spec: string, pin: PinRef)
      requires Valid()
      modifies this`engines, this`content, this`dirty, this`books, books.Keys
      ensures Valid() && old(books.Keys) <= books.Keys && fresh(books.Keys - old(books.Keys))
      ensures View() == Apply(old(View()), Op.Record(eng, spec, old(PinOf(pin))))
    {
      ghost var news, held := PinOf(pin), Held(content, eng, spec);
      RecordDirt(content, eng, spec, news);
      var p, changed := Holding(eng, spec, pin);
      ghost var bare := PinOf(p);
      var merged := MergeOnto(eng, spec, p, MapOf(pin.hashes));
      MergedInSteps(held, news, bare, PinOf(p), changed, merged);
      Install(engines[(eng, spec) := Some(p)], changed || merged, PutPin(content, eng, spec, PinOf(p)));
    }

    /** `values` is what these references read as. */
    method Install(refs: Pins, changed: bool, ghost values: Content)
      requires this !in books && downloads == values.downloads
      requires Tied(books, refs, values.engines) && TiedModules(books, modules, values.modules)
      modifies this`engines, this`content, this`dirty
      ensures Valid() && View() == old(View()).(content := values, dirty := old(dirty) || changed)
    {
      engines, content, dirty := refs, values, dirty || changed;
    }

    /** Merge the hashes into the map of a pin about to be put; every other pin reads as it did. */
    method MergeOnto(eng: string, spec: string, p: PinRef, news: map<string, string>) returns (merged: bool)
      requires Valid() && p.hashes != null && p.hashes in books && books[p.hashes] == OfPin((eng, spec))
      modifies p.hashes
      ensures PinOf(p) == old(PinOf(p)).(hashes := MergeHashes(old(PinOf(p)).hashes, news))
      ensures merged <==> PinOf(p) != old(PinOf(p))
      ensures Tied(books, engines[(eng, spec) := Some(p)], PutPin(content, eng, spec, PinOf(p)).engines)
      ensures TiedModules(books, modules, content.modules)
    {
      merged := MergeTriples(p.hashes, news);
      forall k | k in engines && k != (eng, spec)
        ensures OnBooks(books, engines[k]) && Holds(books, engines[k], content.engines[k], OfPin(k))
      {
        assert old(OnBooks(books, engines[k]) && Holds(books, engines[k], content.engines[k], OfPin(k)));
      }
      forall m | m in modules
        ensures ModuleOnBooks(books, modules[m]) && HoldsModule(books, modules[m], content.modules[m], OfModule(m))
      {
        assert old(ModuleOnBooks(books, modules[m]) && HoldsModule(books, modules[m], content.modules[m], OfModule(m)));
      }
      TiedPut(books, engines, content.engines, (eng, spec), p, PinOf(p));
    }

    /** What Record merges into: the pin held for the same version, or a new one, with a map of its own either way. */
    method Holding(eng: string, spec: string, pin: PinRef) returns (p: PinRef, changed: bool)
      requires Valid()
      modifies this`books
      ensures Valid() && old(books.Keys) <= books.Keys && fresh(books.Keys - old(books.Keys))
      ensures p.hashes != null && p.hashes in books && books[p.hashes] == OfPin((eng, spec))
      ensures
        var held := Held(content, eng, spec);
        && PinOf(p) == MergePin(held, Pin(pin.resolved, pin.source, map[]))
        && (changed <==> held.None? || PinOf(p) != held.value)
    {
      var held: Option<PinRef> := if (eng, spec) in engines then engines[(eng, spec)] else None;
      assert Holds(books, held, Held(content, eng, spec), OfPin((eng, spec))) && OnBooks(books, held);
      p, changed := PinRef(pin.resolved, pin.source, null), true;
      if held.Some? && held.value.resolved == pin.resolved {
        p, changed := held.value, false;
      }
      if p.source == "" && pin.source != "" {
        p := p.(source := pin.source);
        changed := true;
      }
      NothingToMerge(Held(content, eng, spec), Pin(pin.resolved, pin.source, map[]));
      if p.hashes == null {
        var own := new Cell(map[]);
        p := p.(hashes := own);
        TiedStill(books, books[own := OfPin((eng, spec))], engines, modules, content);
        books := books[own := OfPin((eng, spec))];
      }
    }

    method GetModule(source: string) returns (pin: Option<ModulePinRef>)
      requires Valid()
      ensures (if pin.Some? then Some(ModulePinOf(pin.value)) else None) == HeldModule(content, source)
      ensures pin.Some? <==> source in modules && modules[source].Some? && modules[source].value.version != ""
      ensures pin.Some? ==> ModulePinOf(pin.value) == ModulePinOf(modules[source].value)
      ensures pin.Some? && pin.value.hashes != null ==> fresh(pin.value.hashes)
      ensures pin.Some? && pin.value.engines != null ==> fresh(pin.value.engines)
    {
      if source in modules { assert HoldsModule(books, modules[source], content.modules[source], OfModule(source)); }
      if source !in modules || !Versioned(modules[source]) { return None; }
      var p := modules[source].value;
      var engines := CopySlice(p.engines);
      var hashes := CopyMap(p.hashes);
      return Some(ModulePinRef(p.version, p.protocol, engines, hashes));
    }

    method RecordModule(source: string, pin: ModulePinRef)
      requires Valid()
      modifies this`modules, this`content, this`dirty, this`books
      ensures Valid() && old(books.Keys) <= books.Keys && fresh(books.Keys - old(books.Keys))
      ensures View() == Apply(old(View()), Op.RecordModule(source, ModulePinOf(pin)))
    {
      if pin.version == "" { return; }
      if source in modules { assert HoldsModule(books, modules[source], content.modules[source], OfModule(source)); }
      if source in modules && modules[source].Some? && ModulePinOf(modules[source].value) == ModulePinOf(pin) {
        SameModule(View(), source, ModulePinOf(pin));
        return;
      }
      ModuleRecorded(View(), source, ModulePinOf(pin));
      var p := Copied(source, pin);
      PutModule(source, p, ModulePinOf(pin));
    }

    method PutModule(source: string, p: ModulePinRef, ghost pin: ModulePin)
      requires Valid()
      requires ModuleOnBooks(books, Some(p)) && HoldsModule(books, Some(p), Some(pin), OfModule(source))
      modifies this`modules, this`content, this`dirty
      ensures Valid()
      ensures View() == old(View()).(content := old(content).(modules := old(content).modules[source := Some(pin)]),
        dirty := true)
    {
      TiedModulePut(books, modules, content.modules, source, p, pin);
      modules, dirty := modules[source := Some(p)], true;
      content := content.(modules := content.modules[source := Some(pin)]);
    }

    /** A pin like the caller's, in a map and a slice of the lock's own. */
    method Copied(source: string, pin: ModulePinRef) returns (p: ModulePinRef)
      requires Valid()
      modifies this`books
      ensures Valid() && old(books.Keys) <= books.Keys && fresh(books.Keys - old(books.Keys))
      ensures ModuleOnBooks(books, Some(p)) && HoldsModule(books, Some(p), Some(ModulePinOf(pin)), OfModule(source))
    {
      var engines := CopySlice(pin.engines);
      var hashes := CopyMap(pin.hashes);
      p := ModulePinRef(pin.version, pin.protocol, engines, hashes);
      ghost var more := books;
      if engines != null { more := more[engines := OfModule(source)]; }
      if hashes != null { more := more[hashes := OfModule(source)]; }
      TiedStill(books, more, this.engines, modules, content);
      books := more;
    }

    method DropModule(source: string)
      requires Valid()
      modifies this`modules, this`content, this`dirty
      ensures Valid()
      ensures View() == Apply(old(View()), Op.DropModule(source))
    {
      if source in modules {
        assert source in content.modules && source !in content.modules - {source};
        modules := modules - {source};
        content := content.(modules := content.modules - {source});
        dirty := true;
      } else {
        assert content.modules - {source} == content.modules;
      }
    }

    method GetDownload(url: string) returns (digest: Option<string>)
      requires Valid()
      ensures digest == HeldDownload(content, url)
      ensures forall d :: digest == Some(d) <==> d != "" && url in downloads && downloads[url] == Some(d)
    {
      if url in downloads && downloads[url].Some? && downloads[url].value != "" { return downloads[url]; }
      return None;
    }

    method RecordDownload(url: string, digest: string)
      requires Valid()
      modifies this`downloads, this`content, this`dirty
      ensures Valid()
      ensures View() == Apply(old(View()), Op.RecordDownload(url, digest))
    {
      if digest == "" { return; }
      if url in downloads && downloads[url].Some? && downloads[url].value != "" { return; }
      assert downloads[url := Some(digest)][url] == Some(digest);
      downloads := downloads[url := Some(digest)];
      content := content.(downloads := downloads);
      dirty := true;
    }

    /** `written` is whether the file system took the bytes. */
    method Save(written: bool) returns (ok: bool)
      requires Valid()
      modifies this`dirty, this`disk
      ensures Valid()
      ensures View() == Apply(old(View()), Op.Save(written))
      ensures ok <==> !old(dirty) || path == "" || written
      ensures ok && path != "" && old(Honest(View())) ==> !dirty && disk == Some(content)
    {
      if !dirty || path == "" { return true; }
      if !written { disk := None; return false; }
      disk := Some(content);
      dirty := false;
      return true;
    }

    /** Every pin that is not null, once, in maps of the caller's own. */
    method Entries() returns (out: seq<EntryRef>, ghost values: seq<LockEntry>)
      requires Valid()
      ensures |out| == |values|
      ensures forall i :: 0 <= i < |out| ==>
        Reads(out[i], values[i]) && (out[i].pin.hashes != null ==> fresh(out[i].pin.hashes))
      ensures IsEntries(content, values)
    {
      out, values := [], [];
      var todo := engines.Keys;
      while todo != {}
        invariant todo <= engines.Keys
        invariant |out| == |values|
        invariant forall i :: 0 <= i < |out| ==>
          Reads(out[i], values[i]) && (out[i].pin.hashes != null ==> fresh(out[i].pin.hashes))
        invariant forall e :: e in values <==> Held(content, e.eng, e.spec) == Some(e.pin) && (e.eng, e.spec) !in todo
        decreases todo
      {
        var k :| k in todo;
        todo := todo - {k};
        assert Holds(books, engines[k], content.engines[k], OfPin(k));
        if engines[k].Some? {
          var p := engines[k].value;
          var hashes := CopyMap(p.hashes);
          out := out + [EntryRef(k.0, k.1, PinRef(p.resolved, p.source, hashes))];
          values := values + [LockEntry(k.0, k.1, PinOf(p))];
        }
      }
    }
  }

  /** The entry, its map read now, is this one. */
  ghost predicate Reads(e: EntryRef, value: LockEntry)
    reads e.pin.hashes
  {
    LockEntry(e.eng, e.spec, PinOf(e.pin)) == value
  }

  predicate Versioned(p: Option<ModulePinRef>)
  {
    p.Some? && p.value.version != ""
  }

  ghost predicate IsEntries(c: Content, entries: seq<LockEntry>)
  {
    forall e :: e in entries <==> Held(c, e.eng, e.spec) == Some(e.pin)
  }

  // ---- The lock is honest about being saved

  /** A clean lock holds exactly what its file holds. */
  ghost predicate Honest(s: State)
  {
    !s.dirty ==> s.disk == Some(s.content)
  }

  lemma {:induction false} AlwaysHonest(s: State, ops: seq<Op>)
    requires Honest(s)
    ensures Honest(Run(s, ops))
  {
    if ops != [] { AlwaysHonest(s, ops[..|ops| - 1]); }
  }

  /** Record's three dirty assignments together say: the pin is not what it was. */
  lemma RecordDirt(c: Content, eng: string, spec: string, pin: Pin)
    ensures
      var held := Held(c, eng, spec);
      ContentAfter(c, Record(eng, spec, pin)) != c <==> held.None? || MergePin(held, pin) != held.value
  {
    var after := ContentAfter(c, Record(eng, spec, pin));
    var held := Held(c, eng, spec);
    assert Held(after, eng, spec) == Some(MergePin(held, pin));
    if held.Some? && MergePin(held, pin) == held.value {
      assert after.engines == c.engines;
    }
  }

  /** Recording what is held, or recording the same thing again, leaves the lock as it is: clean if it was clean. */
  lemma RecordIdempotent(s: State, eng: string, spec: string, pin: Pin)
    ensures Apply(Apply(s, Record(eng, spec, pin)), Record(eng, spec, pin)) == Apply(s, Record(eng, spec, pin))
    ensures Held(s.content, eng, spec) == Some(pin) ==> Apply(s, Record(eng, spec, pin)) == s
  {
    var once := Apply(s, Record(eng, spec, pin));
    var merged := MergePin(Held(s.content, eng, spec), pin);
    assert Held(once.content, eng, spec) == Some(merged);
    assert MergePin(Some(merged), pin) == merged;
    RecordDirt(once.content, eng, spec, pin);
    RecordDirt(s.content, eng, spec, pin);
    if Held(s.content, eng, spec) == Some(pin) { assert MergePin(Some(pin), pin) == pin; }
  }

  /** A pinned URL keeps its digest through every run. */
  lemma {:induction false} DownloadPinsAreForever(s: State, ops: seq<Op>, url: string)
    requires HeldDownload(s.content, url).Some?
    ensures HeldDownload(Run(s, ops).content, url) == HeldDownload(s.content, url)
  {
    if ops != [] { DownloadPinsAreForever(s, ops[..|ops| - 1], url); }
  }

  /** A module pin stays until the same source is recorded again or dropped. */
  lemma {:induction false} ModulePinsStay(s: State, ops: seq<Op>, source: string)
    requires forall op :: op in ops ==>
      !(op.RecordModule? && op.source == source) && !(op.DropModule? && op.dropped == source)
    ensures HeldModule(Run(s, ops).content, source) == HeldModule(s.content, source)
  {
    if ops != [] {
      assert ops[|ops| - 1] in ops;
      ModulePinsStay(s, ops[..|ops| - 1], source);
    }
  }

  // ---- What each operation does, and nothing else

  /** Record leaves the recorded version under the key, over what was held of that version: its hashes where it has
      them, those held where it has not, and the source held unless that is blank. Another version starts afresh. */
  lemma RecordMeans(s: State, eng: string, spec: string, pin: Pin)
    ensures
      var before, after := Held(s.content, eng, spec), Held(Apply(s, Record(eng, spec, pin)).content, eng, spec);
      var kept := before.Some? && before.value.resolved == pin.resolved;
      && after.Some? && after.value.resolved == pin.resolved
      && after.value.source == (if kept && before.value.source != "" then before.value.source else pin.source)
      && forall t :: Lookup(after.value.hashes, t) ==
           if t in pin.hashes then pin.hashes[t] else if kept then Lookup(before.value.hashes, t) else ""
  {
  }

  lemma RecordModuleMeans(s: State, source: string, pin: ModulePin)
    ensures
      var before, after := s.content, Apply(s, Op.RecordModule(source, pin)).content;
      && HeldModule(after, source) == (if pin.version == "" then HeldModule(before, source) else Some(pin))
      && forall m :: m != source ==> HeldModule(after, m) == HeldModule(before, m)
  {
  }

  lemma DropModuleMeans(s: State, source: string)
    ensures
      var after := Apply(s, Op.DropModule(source)).content;
      && source !in after.modules && HeldModule(after, source) == None
      && forall m :: m != source ==> HeldModule(after, m) == HeldModule(s.content, m)
  {
  }

  lemma RecordDownloadMeans(s: State, url: string, digest: string)
    ensures
      var before, after := s.content, Apply(s, Op.RecordDownload(url, digest)).content;
      && HeldDownload(after, url) ==
           (if HeldDownload(before, url).Some? then HeldDownload(before, url)
            else if digest == "" then None else Some(digest))
      && forall u :: u != url ==> HeldDownload(after, u) == HeldDownload(before, u)
  {
  }

  /** Each kind of pin is touched by its own operations only, and nothing but Save touches the file. */
  lemma KindsApart(s: State, op: Op)
    ensures
      var t := Apply(s, op);
      && (!op.Record? ==> t.content.engines == s.content.engines)
      && (!op.RecordModule? && !op.DropModule? ==> t.content.modules == s.content.modules)
      && (!op.RecordDownload? ==> t.content.downloads == s.content.downloads)
      && (!op.Save? ==> t.disk == s.disk) && t.path == s.path
  {
  }

  // ---- Saving and loading

  lemma {:induction false} PathStays(s: State, ops: seq<Op>)
    ensures Run(s, ops).path == s.path
  {
    if ops != [] { PathStays(s, ops[..|ops| - 1]); }
  }

  /** After any run, a save that goes through leaves a clean lock whose file holds all the lock does; one that fails
      leaves a dirty lock dirty; and a lock that is clean or has no path is left as it is. */
  lemma SaveMeans(s: State, ops: seq<Op>, written: bool)
    requires Honest(s)
    ensures
      var t, u := Run(s, ops), Run(s, ops + [Save(written)]);
      && u.content == t.content
      && (written && s.path != "" ==> !u.dirty && u.disk == Some(u.content))
      && (!written && s.path != "" && t.dirty ==> u.dirty)
      && (!t.dirty || s.path == "" ==> u == t)
  {
    assert (ops + [Save(written)])[..|ops|] == ops;
    PathStays(s, ops);
    AlwaysHonest(s, ops);
  }

  /** Loading reads every pin the file holds. */
  lemma LoadKeepsPins(c: Content, path: string)
    ensures Honest(Loaded(c, path))
    ensures forall eng, spec :: Held(Loaded(c, path).content, eng, spec) == Held(c, eng, spec)
    ensures forall source :: HeldModule(Loaded(c, path).content, source) == HeldModule(c, source)
    ensures forall url :: HeldDownload(Loaded(c, path).content, url) == HeldDownload(c, url)
    ensures forall source :: source in Loaded(c, path).content.modules ==> HeldModule(c, source).Some?
  {
  }

  predicate Scrubbed(c: Content) { Kept(c.modules) == c.modules }

  lemma {:induction false} RunStaysScrubbed(s: State, ops: seq<Op>)
    requires Scrubbed(s.content)
    ensures Scrubbed(Run(s, ops).content)
  {
    if ops != [] {
      RunStaysScrubbed(s, ops[..|ops| - 1]);
      StepStaysScrubbed(Run(s, ops[..|ops| - 1]), ops[|ops| - 1]);
    }
  }

  lemma StepStaysScrubbed(s: State, op: Op)
    requires Scrubbed(s.content)
    ensures Scrubbed(Apply(s, op).content)
  {
    var before, after := s.content.modules, Apply(s, op).content.modules;
    forall m | m in after ensures m in Kept(after) {
      if m in before { assert m in Kept(before); }
    }
  }

  /** The lock comes back whole: load a file, do anything at all with the lock, save it, load it again, and every pin is
      there, and the lock is clean. */
  lemma SaveLoadRoundTrip(c: Content, path: string, ops: seq<Op>)
    requires path != ""
    ensures
      var saved := Run(Loaded(c, path), ops + [Save(true)]);
      && saved.disk == Some(saved.content) && saved.content == Run(Loaded(c, path), ops).content
      && Loaded(saved.content, path) == saved && !saved.dirty
  {
    var s := Loaded(c, path);
    assert Scrubbed(s.content);
    SaveMeans(s, ops, true);
    PathStays(s, ops + [Save(true)]);
    RunStaysScrubbed(s, ops + [Save(true)]);
  }

  /** Record touches its own key only, and there the hashes already read stay readable unless the version
      or the hash is new. */
  lemma RecordFrame(s: State, eng: string, spec: string, pin: Pin)
    ensures
      var after := Apply(s, Record(eng, spec, pin)).content;
      && Held(after, eng, spec) == Some(MergePin(Held(s.content, eng, spec), pin))
      && forall e, sp :: (e, sp) != (eng, spec) ==> Held(after, e, sp) == Held(s.content, e, sp)
  {
  }
}
