/**
 When the comma-joined cache key (expand_registry.go) names one graph: the exact condition on the keys of loadable
 sources, and a state the registry reaches where it fails, with a concordance that has a comma in its d.
 */
module CacheCollision {
  import opened Wrappers
  import opened Sequences
  import opened Ordering
  import opened Text
  import opened Vocab
  import opened VocabGraph
  import opened MappingTrust
  import opened SourceLoading
  import opened MappingRegistry
  import opened CacheRelay

  // ----- Sources with one mapping each -----

  /** A mapping whose author and d no other one has is merged in; nothing else comes in. */
  lemma {:induction false} FirstMappingsMembers(ms: seq<Mapping>, seen: set<string>, m: Mapping)
    ensures m in FirstMappings(ms, seen) ==> m in ms
    ensures m in ms && MappingKey(m) !in seen && (forall x :: x in ms && MappingKey(x) == MappingKey(m) ==> x == m) ==>
              m in FirstMappings(ms, seen)
    decreases |ms|
  {
    hide MappingKey;
    if ms != [] {
      assert ms == [ms[0]] + ms[1..];
      assert forall x :: x in ms[1..] ==> x in ms;
      FirstMappingsMembers(ms[1..], if MappingKey(ms[0]) in seen then seen else seen + {MappingKey(ms[0])}, m);
    }
  }

  lemma NoFirstConcepts()
    ensures FirstConcepts([], {}) == []
  {
  }

  predicate Primed(m: Mapping) {
    m.relation == "exactMatch" && m.to == [m.from + "'"]
  }

  ghost predicate OneEach(entries: Entries, member: map<string, Mapping>, ks: seq<string>) {
    forall x :: x in ks ==>
      x in entries && x in member && entries[x].source == Source([], [member[x]]) && Primed(member[x])
  }

  lemma {:induction false} MergedMembers(entries: Entries, member: map<string, Mapping>, ks: seq<string>)
    requires OneEach(entries, member, ks)
    ensures AllConcepts(entries, ks) == []
    ensures forall m :: m in AllMappings(entries, ks) <==> exists x :: x in ks && x in member && m == member[x]
    decreases |ks|
  {
    hide Primed;
    if ks != [] {
      assert ks == [ks[0]] + ks[1..];
      MergedMembers(entries, member, ks[1..]);
      var rest := AllMappings(entries, ks[1..]);
      assert AllMappings(entries, ks) == [member[ks[0]]] + rest;
      forall m ensures m in [member[ks[0]]] + rest <==> exists x :: x in ks && x in member && m == member[x] {
        if m == member[ks[0]] { assert ks[0] in ks; }
        if m in rest {
          var x :| x in ks[1..] && x in member && m == member[x];
          assert x in ks;
        }
        if x :| x in ks && x in member && m == member[x] && x != ks[0] { assert x in ks[1..]; }
      }
    }
  }

  /** The first mapping and those whose author and d no other one has survive the merge. */
  ghost predicate Survives(ms: seq<Mapping>, m: Mapping) {
    m in ms && (ms[0] == m || forall x :: x in ms && MappingKey(x) == MappingKey(m) ==> x == m)
  }

  lemma SurvivorStays(ms: seq<Mapping>, m: Mapping)
    requires Survives(ms, m)
    ensures m in FirstMappings(ms, {}) && forall x :: x in FirstMappings(ms, {}) ==> x in ms
  {
    hide MappingKey;
    forall x ensures x in FirstMappings(ms, {}) ==> x in ms {
      FirstMappingsMembers(ms, {}, x);
    }
    if ms[0] != m { FirstMappingsMembers(ms, {}, m); }
  }

  lemma LinkShows(m: Mapping, ms: seq<Mapping>, ns: seq<Mapping>)
    requires m in ms && (forall x :: x in ms || x in ns ==> Primed(x)) && forall x :: x in ns ==> x.from != m.from
    ensures BuildGraph([], ms) != BuildGraph([], ns)
  {
    hide Tabulate;
    var from, to := m.from, m.from + "'";
    TabulateRepresents(EdgeSet([], ms));
    TabulateRepresents(EdgeSet([], ns));
    assert |from| < |to|;
    assert Edge(Exact, from, to) in MappingEdges(m, ms);
    assert Edge(Exact, from, to) in AllMappingEdges(ms, ms);
    assert to in Succ(BuildGraph([], ms).Of(Exact), from);
    assert Edge(Exact, from, to) !in EdgeSet([], ns);
    assert to !in Succ(BuildGraph([], ns).Of(Exact), from);
  }

  /** A list with a key whose mapping survives, and one where nothing maps its text, have different graphs. */
  lemma Apart(entries: Entries, member: map<string, Mapping>, a: seq<string>, b: seq<string>, k: string)
    requires OneEach(entries, member, a) && OneEach(entries, member, b) && k in a
    requires Survives(AllMappings(entries, a), member[k]) && forall x :: x in b ==> member[x].from != member[k].from
    ensures GraphOver(entries, a) != GraphOver(entries, b)
  {
    hide AllMappings, AllConcepts, FirstMappings, FirstConcepts, BuildGraph, Survives, Primed;
    MergedMembers(entries, member, a);
    MergedMembers(entries, member, b);
    var ms, ns := AllMappings(entries, a), AllMappings(entries, b);
    SurvivorStays(ms, member[k]);
    forall x ensures x in FirstMappings(ns, {}) ==> x in ns {
      FirstMappingsMembers(ns, {}, x);
    }
    NoFirstConcepts();
    LinkShows(member[k], FirstMappings(ms, {}), FirstMappings(ns, {}));
  }

  // ----- When the cache can be trusted -----

  /** Some relay gave the registry this source for the key. */
  ghost predicate LoadsAs(codec: Codec, key: string, source: Source) {
    exists fetch: Fetch :: SourceOf(codec, fetch, key) == Ok(source)
  }

  /** Whatever sources were loaded under these keys, a consistent cache answers with the recomputed graph. */
  ghost predicate CacheIsRight(codec: Codec, keys: set<string>) {
    forall entries: Entries, cache, present ::
      entries.Keys == keys && (forall k :: k in entries ==> LoadsAs(codec, k, entries[k].source)) &&
      Consistent(cache, entries) && IsKeyList(entries, present) ==>
        Lookup(cache, entries, present) == GraphOver(entries, present)
  }

  /** SHA-256 tells two short texts apart. */
  predicate Discerns(codec: Codec) {
    MemberName(codec, "A") != MemberName(codec, "C")
  }

  /** With the keys of loadable sources the cache can be trusted exactly if no two sets of them have one joined key. */
  lemma CacheIsRightIff(codec: Codec, keys: set<string>)
    requires AsciiStays(codec.nfc) && Discerns(codec) && forall k :: k in keys ==> Loadable(k)
    ensures CacheIsRight(codec, keys) <==> DistinctCacheKeys(keys)
  {
    hide CacheKey, GraphOver, Less, ListsSome, Consistent, Lookup, LoadsAs, Loadable, AsciiStays, Discerns;
    if DistinctCacheKeys(keys) {
      DistinctKeysAreRight(codec, keys);
    } else {
      hide CacheIsRight;
      var a, b :| ListsSome(keys, a) && ListsSome(keys, b) && CacheKey(a) == CacheKey(b) && a != b;
      CollisionIsWrong(codec, keys, a, b);
    }
  }

  lemma DistinctKeysAreRight(codec: Codec, keys: set<string>)
    requires DistinctCacheKeys(keys)
    ensures CacheIsRight(codec, keys)
  {
    hide CacheKey, GraphOver, Less, Consistent, Lookup, LoadsAs, DistinctCacheKeys;
    forall entries: Entries, cache, present |
      entries.Keys == keys && Consistent(cache, entries) && IsKeyList(entries, present)
      ensures Lookup(cache, entries, present) == GraphOver(entries, present)
    {
      DistinctIsRight(entries, cache, present);
    }
  }

  /** Two lists of keys with one join: one has a key the other lacks, and its source tells their graphs apart. */
  lemma CollisionIsWrong(codec: Codec, keys: set<string>, a: seq<string>, b: seq<string>)
    requires AsciiStays(codec.nfc) && Discerns(codec) && forall k :: k in keys ==> Loadable(k)
    requires ListsSome(keys, a) && ListsSome(keys, b) && CacheKey(a) == CacheKey(b) && a != b
    ensures !CacheIsRight(codec, keys)
  {
    hide CacheKey, Less, CacheIsRight, Loadable, AsciiStays, Discerns;
    LessIsStrictOrder();
    if Elems(a) == Elems(b) { AscendingUnique(Less, a, b); }
    assert Elems(a) != Elems(b);
    if Elems(a) <= Elems(b) {
      var l :| l in Elems(b) && l !in Elems(a);
      OneKeyApart(codec, keys, b, a, l);
    } else {
      var k :| k in Elems(a) && k !in Elems(b);
      OneKeyApart(codec, keys, a, b, k);
    }
  }

  /** One relay holds all the sources; that of k maps "A", all others map "C". */
  function Marking(k: string): string -> string {
    x => if x == k then "A" else "C"
  }

  lemma MarkingLoads(codec: Codec, keys: set<string>, k: string) returns (fetch: Fetch)
    requires AsciiStays(codec.nfc) && forall x :: x in keys ==> Loadable(x)
    ensures forall x :: x in keys ==> Held(codec, fetch, x, Marking(k)(x))
  {
    hide Loadable, AsciiStays, Held, Relay;
    var id: Hex32 :| true;
    fetch := Relay(codec, _ => id, keys, Marking(k));
    forall x | x in keys ensures Held(codec, fetch, x, Marking(k)(x)) {
      LoadableLoads(codec, _ => id, keys, Marking(k), x);
    }
  }

  /** What the relay gave for each key. */
  ghost function MemberAt(codec: Codec, fetch: Fetch, text: string, key: string): (m: Mapping)
    requires Held(codec, fetch, key, text)
    ensures SourceOf(codec, fetch, key) == Ok(Source([], [m])) && Primed(m) && m.from == text
    ensures m.d == MemberName(codec, text) && |m.author| == 64
  {
    hide SourceOf, MemberName;
    var author: Hex32, address: string :|
      SourceOf(codec, fetch, key) == Ok(Source([], [MemberOf(author, codec, text, address)]));
    MemberOf(author, codec, text, address)
  }

  lemma SameKeySameName(m: Mapping, n: Mapping)
    requires MappingKey(m) == MappingKey(n) && |m.author| == |n.author|
    ensures m.d == n.d
  {
    assert m.d == MappingKey(m)[|m.author| + 1..] && n.d == MappingKey(n)[|n.author| + 1..];
  }

  /** The marked key's mapping has an identifier no other one has. */
  lemma MarkSurvives(entries: Entries, member: map<string, Mapping>, codec: Codec, a: seq<string>, k: string)
    requires OneEach(entries, member, a) && k in a && Discerns(codec)
    requires forall x :: x in a ==> |member[x].author| == 64 && member[x].d == MemberName(codec, Marking(k)(x))
    ensures Survives(AllMappings(entries, a), member[k])
  {
    hide MappingKey, AllMappings, MemberName;
    MergedMembers(entries, member, a);
    var ms := AllMappings(entries, a);
    forall m | m in ms && MappingKey(m) == MappingKey(member[k]) ensures m == member[k] {
      var x :| x in a && x in member && m == member[x];
      SameKeySameName(m, member[k]);
    }
  }

  lemma OneKeyApart(codec: Codec, keys: set<string>, a: seq<string>, b: seq<string>, k: string)
    requires AsciiStays(codec.nfc) && Discerns(codec) && forall x :: x in keys ==> Loadable(x)
    requires ListsSome(keys, a) && ListsSome(keys, b) && CacheKey(a) == CacheKey(b) && k in a && k !in b
    ensures !CacheIsRight(codec, keys)
  {
    hide CacheKey, GraphOver, Less, Loadable, AsciiStays, Discerns, Held, MemberName, SourceOf, CacheIsRight, Primed,
      Survives, AllMappings;
    var fetch := MarkingLoads(codec, keys, k);
    var member := map x | x in keys :: MemberAt(codec, fetch, Marking(k)(x), x);
    var entries: Entries := map x | x in keys :: SourceEntry(Source([], [member[x]]), 0);
    MarkSurvives(entries, member, codec, a, k);
    Apart(entries, member, a, b, k);
    forall x | x in entries ensures LoadsAs(codec, x, entries[x].source) {
      assert SourceOf(codec, fetch, x) == Ok(entries[x].source);
    }
    assert entries.Keys == keys;
    FirstGraphIsWrong(codec, keys, entries, a, b);
  }

  /** The graph of the first list is cached, and the second list asked for. */
  lemma FirstGraphIsWrong(codec: Codec, keys: set<string>, entries: Entries, a: seq<string>, b: seq<string>)
    requires ListsSome(keys, a) && ListsSome(keys, b) && CacheKey(a) == CacheKey(b)
    requires entries.Keys == keys && forall k :: k in entries ==> LoadsAs(codec, k, entries[k].source)
    requires GraphOver(entries, a) != GraphOver(entries, b)
    ensures !CacheIsRight(codec, keys)
  {
    hide CacheKey, GraphOver, Less, LoadsAs;
    var cache := map[CacheKey(a) := GraphOver(entries, a)];
    assert NamedBy(cache, entries, CacheKey(a), a);
    assert Consistent(cache, entries) && IsKeyList(entries, b);
    assert Lookup(cache, entries, b) != GraphOver(entries, b);
  }

  // ----- Two queries, one cache key -----

  lemma {:induction false} LessAfterPrefix(prefix: string, a: string, b: string)
    requires Less(a, b)
    ensures Less(prefix + a, prefix + b)
    decreases |prefix|
  {
    if prefix == "" {
      assert prefix + a == a && prefix + b == b;
    } else {
      assert (prefix + a)[1..] == prefix[1..] + a && (prefix + b)[1..] == prefix[1..] + b;
      LessAfterPrefix(prefix[1..], a, b);
    }
  }

  lemma LessLetters()
    ensures Less("a", "b")
  {
  }

  /** The third d: what the joined key of the first two holds after the third one's own prefix. */
  function Spelled(owner: Hex32): string {
    "a," + ConcordanceKey(owner, "b")
  }

  lemma KeysCollide(owner: Hex32)
    ensures var a, b, c := ConcordanceKey(owner, "a"), ConcordanceKey(owner, "b"),
              ConcordanceKey(owner, Spelled(owner));
            Less(a, b) && c == a + "," + b && a != b && c != a && c != b && CacheKey([a, b]) == CacheKey([c])
  {
    hide Less, Decimal;
    var a, b, c := ConcordanceKey(owner, "a"), ConcordanceKey(owner, "b"), ConcordanceKey(owner, Spelled(owner));
    var prefix := ConcordanceKey(owner, "");
    assert a == prefix + "a" && b == prefix + "b" && c == prefix + ("a," + b);
    assert c == a + "," + b;
    LessLetters();
    LessAfterPrefix(prefix, "a", "b");
    assert a[|prefix|] != b[|prefix|] && c[|prefix|] != b[|prefix|];
    assert |c| > |a|;
    assert [a, b][1..] == [b] && Join([b], ",") == b;
    assert CacheKey([a, b]) == a + "," + b && CacheKey([c]) == c;
  }

  /** A relay that has the three concordances, each mapping its own key. */
  function ThreeOf(codec: Codec, ids: string -> Hex32, owner: Hex32): Fetch {
    Relay(codec, ids, {ConcordanceKey(owner, "a"), ConcordanceKey(owner, "b"), ConcordanceKey(owner, Spelled(owner))},
          (key: string) => key)
  }

  function SourceAt(codec: Codec, owner: Hex32, d: string): Source {
    Source([], [MemberOf(owner, codec, ConcordanceKey(owner, d), ConcordanceAddress(owner, d))])
  }

  lemma KeyIsAscii(owner: Hex32, d: string)
    requires Ascii(d)
    ensures Ascii(ConcordanceKey(owner, d))
  {
    hide Decimal;
    KindText();
    assert Ascii("c:") && Ascii("39741") && Ascii(":") && Ascii(owner);
  }

  lemma ThreeLoad(codec: Codec, ids: string -> Hex32, owner: Hex32, d: string)
    requires AsciiStays(codec.nfc) && d in {"a", "b", Spelled(owner)}
    ensures SourceOf(codec, ThreeOf(codec, ids, owner), ConcordanceKey(owner, d)) == Ok(SourceAt(codec, owner, d))
  {
    hide SourceOf, Relay, AsciiStays, ConcordanceKey, ConcordanceAddress;
    var a, b, c := ConcordanceKey(owner, "a"), ConcordanceKey(owner, "b"), ConcordanceKey(owner, Spelled(owner));
    KeyIsAscii(owner, "b");
    assert Ascii("a,");
    KeyIsAscii(owner, d);
    KeyNotEmpty(owner, d);
    Loads(codec, ids, {a, b, c}, (key: string) => key, owner, d);
  }

  lemma KeyNotEmpty(owner: Hex32, d: string)
    ensures ConcordanceKey(owner, d) != ""
  {
  }

  /**
   Three sources that load, and of which the first two together share their cache key with the third alone,
   though not their graph.
   */
  lemma CommaKeysCollide(codec: Codec, ids: string -> Hex32, owner: Hex32, entries: Entries)
    requires AsciiStays(codec.nfc)
    requires forall d :: d in {"a", "b", Spelled(owner)} ==>
               && ConcordanceKey(owner, d) in entries
               && SourceOf(codec, ThreeOf(codec, ids, owner), ConcordanceKey(owner, d)) ==
                  Ok(entries[ConcordanceKey(owner, d)].source)
    ensures var a, b, c := ConcordanceKey(owner, "a"), ConcordanceKey(owner, "b"),
              ConcordanceKey(owner, Spelled(owner));
            && IsKeyList(entries, [a, b]) && IsKeyList(entries, [c]) && CacheKey([a, b]) == CacheKey([c])
            && GraphOver(entries, [a, b]) != GraphOver(entries, [c])
  {
    hide Less, GraphOver, SourceOf, ThreeOf, CacheKey, ConcordanceKey, ConcordanceAddress, MemberName, Spelled;
    var a, b, c := ConcordanceKey(owner, "a"), ConcordanceKey(owner, "b"), ConcordanceKey(owner, Spelled(owner));
    KeysCollide(owner);
    ThreeLoad(codec, ids, owner, "a");
    ThreeLoad(codec, ids, owner, "b");
    ThreeLoad(codec, ids, owner, Spelled(owner));
    var member := map x | x in {a, b, c} && x in entries && entries[x].source.mappings != [] ::
      entries[x].source.mappings[0];
    FirstSurvives(entries, member, a, b);
    Apart(entries, member, [a, b], [c], a);
  }

  lemma FirstSurvives(entries: Entries, member: map<string, Mapping>, a: string, b: string)
    requires OneEach(entries, member, [a, b])
    ensures Survives(AllMappings(entries, [a, b]), member[a])
  {
    assert a in [a, b] && AllMappings(entries, [a, b])[0] == member[a];
  }

  lemma KeysOfTrust(addresses: seq<string>, keys: seq<string>)
    requires |keys| == |addresses| && Ascending(Less, keys) && forall i :: 0 <= i < |keys| ==>
              keys[i] == "c:" + addresses[i]
    ensures SourceKeys(Trust(addresses, [])) == keys
  {
    hide Less;
    LessIsStrictOrder();
    var t := Trust(addresses, []);
    forall k ensures k in Elems(keys) <==> k in KeySet(t) {
      if k in keys {
        var i :| 0 <= i < |keys| && keys[i] == k;
        assert addresses[i] in addresses;
      }
      if k in KeySet(t) {
        var x :| x in addresses && k == "c:" + x;
        var i :| 0 <= i < |addresses| && addresses[i] == x;
        assert keys[i] == k;
      }
    }
    AscendingUnique(Less, SourceKeys(t), keys);
  }

  /** One load and one store, with room for it. */
  method LoadOne(registry: MappingRegistry, codec: Codec, relay: Fetch, key: string, ghost source: Source, now: int)
    requires registry.Valid() && |registry.entries| < MAX_ON_DEMAND_SOURCES && key !in registry.entries
    requires SourceOf(codec, relay, key) == Ok(source)
    modifies registry
    ensures registry.Valid() && registry.graphs == map[]
    ensures registry.entries == old(registry.entries)[key := SourceEntry(source, now)]
  {
    hide SourceOf, Evicted, MappingRegistry.Valid;
    var r := Load(codec, relay, key);
    ghost var all := registry.entries[key := SourceEntry(source, now)];
    FewOnDemand(registry.DefaultKeys(), registry.entries, key, SourceEntry(source, now));
    registry.Store(key, r.value, now);
    NothingEvicted(registry.DefaultKeys(), all, registry.entries);
  }

  lemma FewOnDemand(defaults: set<string>, entries: Entries, key: string, entry: SourceEntry)
    requires |entries| < MAX_ON_DEMAND_SOURCES
    ensures |OnDemand(defaults, entries[key := entry])| <= MAX_ON_DEMAND_SOURCES
  {
    assert entries[key := entry].Keys == entries.Keys + {key};
    SubsetSize(OnDemand(defaults, entries[key := entry]), entries.Keys + {key});
  }

  lemma AllPresent(entries: Entries, keys: seq<string>)
    requires forall k :: k in keys ==> k in entries
    ensures Present(entries, keys) == keys
  {
    if keys != [] {
      assert keys == [keys[0]] + keys[1..];
      AllPresent(entries, keys[1..]);
    }
  }

  /** Three sources loaded into an empty registry. */
  method LoadThree(codec: Codec, ids: string -> Hex32, owner: Hex32, now: int) returns (registry: MappingRegistry)
    requires AsciiStays(codec.nfc)
    ensures fresh(registry) && registry.Valid() && registry.graphs == map[]
    ensures forall d :: d in {"a", "b", Spelled(owner)} ==>
              && ConcordanceKey(owner, d) in registry.entries
              && SourceOf(codec, ThreeOf(codec, ids, owner), ConcordanceKey(owner, d)) ==
                 Ok(registry.entries[ConcordanceKey(owner, d)].source)
  {
    hide SourceOf, ThreeOf, ConcordanceKey, SourceAt, MappingRegistry.Valid, Less, CacheKey, AsciiStays, Spelled;
    var relay := ThreeOf(codec, ids, owner);
    KeysCollide(owner);
    ThreeLoad(codec, ids, owner, "a");
    ThreeLoad(codec, ids, owner, "b");
    ThreeLoad(codec, ids, owner, Spelled(owner));
    registry := new MappingRegistry(Trust([], []));
    LoadOne(registry, codec, relay, ConcordanceKey(owner, "a"), SourceAt(codec, owner, "a"), now);
    LoadOne(registry, codec, relay, ConcordanceKey(owner, "b"), SourceAt(codec, owner, "b"), now);
    LoadOne(registry, codec, relay, ConcordanceKey(owner, Spelled(owner)), SourceAt(codec, owner, Spelled(owner)), now);
  }

  /**
   The registry has loaded all three and answers a query that trusts the first two, then one that trusts the
   third: the second query gets the first one's graph, which is not its own.
   */
  method SecondQueryGetsFirstGraph(codec: Codec, ids: string -> Hex32, owner: Hex32, now: int)
    returns (registry: MappingRegistry, first: Graph, second: Graph)
    requires AsciiStays(codec.nfc)
    ensures var a, b, c := ConcordanceKey(owner, "a"), ConcordanceKey(owner, "b"),
              ConcordanceKey(owner, Spelled(owner));
            && SourceKeys(Trust([ConcordanceAddress(owner, "a"), ConcordanceAddress(owner, "b")], [])) == [a, b]
            && SourceKeys(Trust([ConcordanceAddress(owner, Spelled(owner))], [])) == [c]
            && a in registry.entries && b in registry.entries && c in registry.entries
            && first.View() == GraphOver(registry.entries, [a, b])
            && second.View() == first.View() && second.View() != GraphOver(registry.entries, [c])
  {
    hide Less, GraphOver, SourceOf, ThreeOf, ConcordanceAddress, KeySet, Graph.View, CacheKey, Spelled,
      MappingRegistry.Valid, SourceKeys;
    var a, b, c := ConcordanceKey(owner, "a"), ConcordanceKey(owner, "b"), ConcordanceKey(owner, Spelled(owner));
    KeysCollide(owner);
    KeysOfTrust([ConcordanceAddress(owner, "a"), ConcordanceAddress(owner, "b")], [a, b]);
    KeysOfTrust([ConcordanceAddress(owner, Spelled(owner))], [c]);
    registry := LoadThree(codec, ids, owner, now);
    CommaKeysCollide(codec, ids, owner, registry.entries);
    ghost var loaded := registry.entries;
    var g := registry.GraphFor([a, b], now);
    AllPresent(registry.entries, [a, b]);
    GraphSame(loaded, registry.entries, [a, b]);
    first := g;
    ghost var touched := registry.entries;
    var h := registry.GraphFor([c], now);
    AllPresent(registry.entries, [c]);
    GraphSame(touched, registry.entries, [a, b]);
    GraphSame(loaded, registry.entries, [c]);
    second := h;
  }
}
