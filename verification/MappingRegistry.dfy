/**
 The registry of loaded sources and its caches (expand_registry.go): what is kept, what is evicted, and when
 a cached graph is the graph over what is loaded now.
 */
module MappingRegistry {
  import opened Wrappers
  import opened Sequences
  import opened Ordering
  import opened Text
  import opened Vocab
  import opened VocabGraph
  import opened MappingTrust
  import opened SourceLoading
  import VocabParse

  const MAX_ON_DEMAND_SOURCES := 32
  const MAX_CACHED_GRAPHS := 64
  const MAX_FAILED_SOURCES := 1024
  const MAX_LOADS_PER_QUERY := 4

  datatype SourceEntry = SourceEntry(source: Source, lastUsed: int)

  type Entries = map<string, SourceEntry>

  // ----- Source keys -----

  ghost function KeySet(t: Trust): set<string> {
    (set c | c in t.concordances :: "c:" + c) + (set a | a in t.authors :: "p:" + a)
  }

  ghost function SourceKeys(t: Trust): seq<string> {
    LessIsStrictOrder();
    SortedSeq(Less, KeySet(t))
  }

  method ComputeSourceKeys(t: Trust) returns (keys: seq<string>)
    ensures keys == SourceKeys(t)
  {
    hide Less;
    var all: set<string> := {};
    for i := 0 to |t.concordances|
      invariant all == set c | c in t.concordances[..i] :: "c:" + c
    {
      assert t.concordances[..i + 1] == t.concordances[..i] + [t.concordances[i]];
      all := all + {"c:" + t.concordances[i]};
    }
    assert t.concordances[..|t.concordances|] == t.concordances;
    ghost var first := all;
    for i := 0 to |t.authors|
      invariant all == first + set a | a in t.authors[..i] :: "p:" + a
    {
      assert t.authors[..i + 1] == t.authors[..i] + [t.authors[i]];
      all := all + {"p:" + t.authors[i]};
    }
    assert t.authors[..|t.authors|] == t.authors;
    keys := VocabParse.KeysInSomeOrder(all);
    LessIsStrictOrder();
    SortIsSortedSeq(Less, keys);
    keys := Sort(Less, keys);
  }

  // ----- The graph over loaded sources -----

  function Present(entries: Entries, keys: seq<string>): (present: seq<string>)
    ensures forall k :: k in present ==> k in entries
  {
    if keys == [] then []
    else if keys[0] in entries then [keys[0]] + Present(entries, keys[1..])
    else Present(entries, keys[1..])
  }

  /** The first concept of each address, source by source. */
  function FirstConcepts(concepts: seq<Concept>, seen: set<string>): seq<Concept> {
    if concepts == [] then []
    else if concepts[0].address in seen then FirstConcepts(concepts[1..], seen)
    else [concepts[0]] + FirstConcepts(concepts[1..], seen + {concepts[0].address})
  }

  function MappingKey(m: Mapping): string {
    m.author + "|" + m.d
  }

  function FirstMappings(mappings: seq<Mapping>, seen: set<string>): seq<Mapping> {
    if mappings == [] then []
    else if MappingKey(mappings[0]) in seen then FirstMappings(mappings[1..], seen)
    else [mappings[0]] + FirstMappings(mappings[1..], seen + {MappingKey(mappings[0])})
  }

  function AllConcepts(entries: Entries, present: seq<string>): seq<Concept>
    requires forall k :: k in present ==> k in entries
  {
    if present == [] then [] else entries[present[0]].source.concepts + AllConcepts(entries, present[1..])
  }

  function AllMappings(entries: Entries, present: seq<string>): seq<Mapping>
    requires forall k :: k in present ==> k in entries
  {
    if present == [] then [] else entries[present[0]].source.mappings + AllMappings(entries, present[1..])
  }

  /** The graph recomputed from what is loaded under these keys. */
  ghost function GraphOver(entries: Entries, present: seq<string>): Relations
    requires forall k :: k in present ==> k in entries
  {
    BuildGraph(FirstConcepts(AllConcepts(entries, present), {}), FirstMappings(AllMappings(entries, present), {}))
  }

  /** Only the loaded sources matter, not when they were used. */
  lemma {:induction false} SourcesDecide(a: Entries, b: Entries, present: seq<string>)
    requires forall k :: k in present ==> k in a && k in b && a[k].source == b[k].source
    ensures AllConcepts(a, present) == AllConcepts(b, present) && AllMappings(a, present) == AllMappings(b, present)
    decreases |present|
  {
    if present != [] {
      assert present[0] in present;
      assert forall k :: k in present[1..] ==> k in present;
      SourcesDecide(a, b, present[1..]);
    }
  }

  // ----- Cache keys -----

  function CacheKey(present: seq<string>): string {
    Join(present, ",")
  }

  /** Ascending, so a list is determined by its members. */
  ghost predicate ListsSome(keys: set<string>, ks: seq<string>) {
    ks != [] && Ascending(Less, ks) && forall k :: k in ks ==> k in keys
  }

  ghost predicate IsKeyList(entries: Entries, ks: seq<string>) {
    ListsSome(entries.Keys, ks)
  }

  /** Different sets of these keys have different cache keys. */
  ghost predicate DistinctCacheKeys(keys: set<string>) {
    forall a, b :: ListsSome(keys, a) && ListsSome(keys, b) && CacheKey(a) == CacheKey(b) ==> a == b
  }

  lemma {:induction false} CommaFreeJoin(a: seq<string>, b: seq<string>)
    requires a != [] && b != [] && Join(a, ",") == Join(b, ",")
    requires forall k :: k in a || k in b ==> ',' !in k
    ensures a == b
    decreases |a|
  {
    var s, t := Join(a, ","), Join(b, ",");
    JoinCut(a);
    JoinCut(b);
    assert a == [a[0]] + a[1..] && b == [b[0]] + b[1..];
    if |a| > 1 && |b| > 1 {
      CommaFreeJoin(a[1..], b[1..]);
    }
  }

  lemma JoinCut(a: seq<string>)
    requires a != [] && ',' !in a[0]
    ensures Cut(Join(a, ","), ',') == if |a| == 1 then None else Some((a[0], Join(a[1..], ",")))
    ensures |a| == 1 ==> Join(a, ",") == a[0]
  {
    if |a| == 1 {
      assert forall k :: 0 <= k < |a[0]| ==> a[0][k] in a[0];
    } else {
      CutAt(a[0], ',', Join(a[1..], ","));
      assert Join(a, ",") == a[0] + [','] + Join(a[1..], ",");
    }
  }

  /** Keys without commas never share a cache key. */
  lemma CommaFreeKeysAreDistinct(keys: set<string>)
    requires forall k :: k in keys ==> ',' !in k
    ensures DistinctCacheKeys(keys)
  {
    forall a, b | ListsSome(keys, a) && ListsSome(keys, b) && CacheKey(a) == CacheKey(b) ensures a == b {
      CommaFreeJoin(a, b);
    }
  }

  // ----- The registry -----

  function OnDemand(defaults: set<string>, entries: Entries): set<string> {
    entries.Keys - defaults
  }

  /** What eviction may leave of all: every default, and of the others the MAX_ON_DEMAND_SOURCES last used. */
  ghost predicate Evicted(defaults: set<string>, all: Entries, kept: Entries) {
    && kept.Keys <= all.Keys && (forall k :: k in kept ==> kept[k] == all[k])
    && (forall k :: k in all && k in defaults ==> k in kept)
    && |OnDemand(defaults, kept)| <= MAX_ON_DEMAND_SOURCES
    && (kept != all ==> |OnDemand(defaults, kept)| == MAX_ON_DEMAND_SOURCES)
    && (forall k, l :: k in all && k !in kept && l in OnDemand(defaults, kept) ==> all[k].lastUsed <= all[l].lastUsed)
  }

  lemma EvictedBounds(defaults: set<string>, all: Entries, kept: Entries)
    requires Evicted(defaults, all, kept)
    ensures |OnDemand(defaults, kept)| <= MAX_ON_DEMAND_SOURCES
    ensures forall k :: k in all && k in defaults ==> k in kept
  {
  }

  /** The failures that still count. */
  function Recent(failed: map<string, int>, now: int, retryAfter: int): map<string, int> {
    map k | k in failed && now - failed[k] < retryAfter :: failed[k]
  }

  /** What stays so that one more fits: all, or all but the oldest and no fewer than needed. */
  ghost predicate RoomMade(recent: map<string, int>, room: map<string, int>) {
    && room.Keys <= recent.Keys && (forall k :: k in room ==> room[k] == recent[k])
    && |room| < MAX_FAILED_SOURCES && (room != recent ==> |room| == MAX_FAILED_SOURCES - 1)
    && (forall k, l :: k in recent && k !in room && l in room ==> recent[k] <= recent[l])
  }

  lemma RoomFits(recent: map<string, int>, room: map<string, int>)
    requires RoomMade(recent, room)
    ensures |room| < MAX_FAILED_SOURCES
  {
  }

  /** What one on-demand load meets: the shared deadline over, an error, or a source; and the time it is. */
  datatype Attempt = Expired | Failed(at: int) | Loaded(source: Source, at: int)

  class MappingRegistry {
    const defaults: Trust
    var entries: Entries
    var failedAt: map<string, int>
    var graphs: map<string, Graph>

    ghost function DefaultKeys(): set<string> {
      KeySet(defaults)
    }

    /** The cached graph is the graph over ks, recomputed now. */
    ghost predicate CachedOver(key: string, ks: seq<string>)
      reads `entries, `graphs, graphs.Values
    {
      key in graphs && IsKeyList(entries, ks) && CacheKey(ks) == key && graphs[key].View() == GraphOver(entries, ks)
    }

    ghost predicate CachesAgree()
      reads `entries, `graphs, graphs.Values
    {
      forall key :: key in graphs ==> exists ks :: CachedOver(key, ks)
    }

    ghost predicate Valid()
      reads this, graphs.Values
    {
      && |OnDemand(DefaultKeys(), entries)| <= MAX_ON_DEMAND_SOURCES
      && |graphs| <= MAX_CACHED_GRAPHS
      && |failedAt| <= MAX_FAILED_SOURCES
      && CachesAgree()
    }

    lemma Bounded()
      requires Valid()
      ensures |OnDemand(DefaultKeys(), entries)| <= MAX_ON_DEMAND_SOURCES
    {
    }

    constructor (defaults: Trust)
      ensures Valid() && this.defaults == defaults && entries == map[]
    {
      this.defaults := defaults;
      entries, failedAt, graphs := map[], map[], map[];
    }

    method IsDefault(key: string) returns (r: bool)
      ensures r <==> key in DefaultKeys()
    {
      var keys := ComputeSourceKeys(defaults);
      assert Elems(keys) == DefaultKeys();
      r := key in keys;
    }

    /** Not loaded, not a default, and not failed within retryAfter. */
    ghost predicate Wanted(k: string, now: int, retryAfter: int)
      reads this
    {
      k !in entries && k !in DefaultKeys() && !(k in failedAt && now - failedAt[k] < retryAfter)
    }

    ghost function AllWanted(keys: seq<string>, now: int, retryAfter: int): (r: seq<string>)
      reads this
      ensures forall k :: k in r ==> k in keys && Wanted(k, now, retryAfter)
    {
      if keys == [] then []
      else if Wanted(keys[0], now, retryAfter) then [keys[0]] + AllWanted(keys[1..], now, retryAfter)
      else AllWanted(keys[1..], now, retryAfter)
    }

    method ToLoad(keys: seq<string>, now: int, retryAfter: int) returns (out: seq<string>)
      ensures out == AllWanted(keys, now, retryAfter)
    {
      hide KeySet, AllWanted;
      out := [];
      assert keys[0..] == keys;
      for i := 0 to |keys|
        invariant out + AllWanted(keys[i..], now, retryAfter) == AllWanted(keys, now, retryAfter)
      {
        var k := keys[i];
        WantedFrom(keys, i, now, retryAfter);
        var isDefault := IsDefault(k);
        if k in entries || isDefault { continue; }
        if k in failedAt && now - failedAt[k] < retryAfter { continue; }
        out := out + [k];
      }
      WantedEnd(keys, now, retryAfter);
    }

    lemma WantedFrom(keys: seq<string>, i: nat, now: int, retryAfter: int)
      requires i < |keys|
      ensures AllWanted(keys[i..], now, retryAfter) ==
              (if Wanted(keys[i], now, retryAfter) then [keys[i]] else []) + AllWanted(keys[i + 1..], now, retryAfter)
    {
      hide KeySet;
      assert keys[i..][0] == keys[i] && keys[i..][1..] == keys[i + 1..];
    }

    lemma WantedEnd(keys: seq<string>, now: int, retryAfter: int)
      ensures AllWanted(keys[|keys|..], now, retryAfter) == []
    {
      hide KeySet;
    }

    /**
     Records a failed load. The recent failures stay, but for the oldest ones where there is no room. The loaded
     sources and the graphs stay as they are.
     */
    method MarkFailed(key: string, now: int, retryAfter: int)
      requires Valid()
      modifies this`failedAt
      ensures Valid()
      ensures exists room :: RoomMade(Recent(old(failedAt), now, retryAfter), room) && failedAt == room[key := now]
    {
      hide GraphOver, CacheKey, IsKeyList, KeySet, CachesAgree, Recent;
      var room := MakeRoom(failedAt, now, retryAfter);
      failedAt := room[key := now];
      RoomFits(Recent(old(failedAt), now, retryAfter), room);
    }

    /** Drops what is older than retryAfter, then the oldest until one more fits. */
    static method MakeRoom(failed: map<string, int>, now: int, retryAfter: int) returns (room: map<string, int>)
      ensures RoomMade(Recent(failed, now, retryAfter), room)
    {
      room := Recent(failed, now, retryAfter);
      ghost var recent := room;
      hide Recent;
      while |room| >= MAX_FAILED_SOURCES
        invariant room.Keys <= recent.Keys && forall k :: k in room ==> room[k] == recent[k]
        invariant room != recent ==> |room| >= MAX_FAILED_SOURCES - 1
        invariant forall k, l :: k in recent && k !in room && l in room ==> recent[k] <= recent[l]
        decreases |room|
      {
        var oldest := OldestFailure(room);
        assert |room - {oldest}| == |room| - 1 by { assert (room - {oldest}).Keys == room.Keys - {oldest}; }
        room := room - {oldest};
      }
    }

    static method OldestFailure(failed: map<string, int>) returns (oldest: string)
      requires |failed| > 0
      ensures oldest in failed && forall k :: k in failed ==> failed[oldest] <= failed[k]
    {
      var todo := failed.Keys;
      assert todo != {};
      oldest :| oldest in todo;
      todo := todo - {oldest};
      while todo != {}
        invariant todo <= failed.Keys && oldest in failed
        invariant forall k :: k in failed && k !in todo ==> failed[oldest] <= failed[k]
        decreases todo
      {
        var k :| k in todo;
        if failed[k] < failed[oldest] { oldest := k; }
        todo := todo - {k};
      }
    }

    /** Puts a loaded source in, drops all graphs, and evicts the least recently used on-demand sources. */
    method Store(key: string, source: Source, now: int)
      requires Valid()
      modifies this
      ensures Valid()
      ensures graphs == map[] && failedAt == old(failedAt) - {key}
      ensures var used := if key in old(entries) then old(entries)[key].lastUsed else now;
              Evicted(DefaultKeys(), old(entries)[key := SourceEntry(source, used)], entries)
    {
      hide GraphOver, CacheKey, IsKeyList, KeySet, Less, Evicted, OnDemand, CachedOver;
      var used := if key in entries then entries[key].lastUsed else now;
      var defaultKeys := ComputeSourceKeys(defaults);
      assert Elems(defaultKeys) == DefaultKeys();
      ghost var all := entries[key := SourceEntry(source, used)];
      entries := Evict(Elems(defaultKeys), entries[key := SourceEntry(source, used)]);
      EvictedBounds(DefaultKeys(), all, entries);
      failedAt := failedAt - {key};
      assert failedAt.Keys <= old(failedAt).Keys && |failedAt.Keys| <= |old(failedAt).Keys| by {
        SubsetSize(failedAt.Keys, old(failedAt).Keys);
      }
      graphs := map[];
    }

    static method Evict(defaultKeys: set<string>, all: Entries) returns (kept: Entries)
      ensures Evicted(defaultKeys, all, kept)
    {
      kept := all;
      while |OnDemand(defaultKeys, kept)| > MAX_ON_DEMAND_SOURCES
        invariant kept.Keys <= all.Keys && forall k :: k in kept ==> kept[k] == all[k]
        invariant forall k :: k in all && k in defaultKeys ==> k in kept
        invariant kept != all ==> |OnDemand(defaultKeys, kept)| >= MAX_ON_DEMAND_SOURCES
        invariant forall k, l :: k in all && k !in kept && l in OnDemand(defaultKeys, kept) ==>
            all[k].lastUsed <= all[l].lastUsed
        decreases |kept|
      {
        var oldest := LeastRecentlyUsed(kept, OnDemand(defaultKeys, kept));
        assert OnDemand(defaultKeys, kept - {oldest}) == OnDemand(defaultKeys, kept) - {oldest};
        kept := kept - {oldest};
      }
    }

    static method LeastRecentlyUsed(entries: Entries, among: set<string>) returns (oldest: string)
      requires among != {} && among <= entries.Keys
      ensures oldest in among && forall k :: k in among ==> entries[oldest].lastUsed <= entries[k].lastUsed
    {
      oldest :| oldest in among;
      var todo := among - {oldest};
      while todo != {}
        invariant todo <= among && oldest in among
        invariant forall k :: k in among && k !in todo ==> entries[oldest].lastUsed <= entries[k].lastUsed
        decreases todo
      {
        var k :| k in todo;
        if entries[k].lastUsed < entries[oldest].lastUsed { oldest := k; }
        todo := todo - {k};
      }
    }

    ghost function Cached(): map<string, Relations>
      reads `graphs, graphs.Values
    {
      map k | k in graphs :: graphs[k].View()
    }

    /** The graph over the loaded ones among keys, from the cache when its key is there. */
    method GraphFor(keys: seq<string>, now: int) returns (g: Graph?)
      requires Valid() && Ascending(Less, keys)
      modifies this`entries, this`graphs
      ensures Valid()
      ensures SameSources(old(entries), entries)
      ensures g == null <==> Present(entries, keys) == []
      ensures g != null ==> g.View() == Lookup(old(Cached()), entries, Present(entries, keys))
      ensures g != null ==> CacheKey(Present(entries, keys)) in graphs && graphs[CacheKey(Present(entries, keys))] == g
    {
      hide Less, CacheKey, GraphOver, KeySet, OnDemand;
      var present := Present(entries, keys);
      PresentIsKeyList(entries, keys);
      Touch(present, now);
      PresentSame(old(entries), entries, keys);
      if |present| == 0 { return null; }
      var key := CacheKey(present);
      if key in graphs { return graphs[key]; }
      g := BuildOver(entries, present);
      Remember(key, g, present);
    }

    method Touch(present: seq<string>, now: int)
      requires Valid() && forall k :: k in present ==> k in entries
      modifies this`entries
      ensures Valid() && SameSources(old(entries), entries)
      ensures forall k :: k in entries ==> entries[k].lastUsed == if k in present then now else old(entries)[k].lastUsed
    {
      hide GraphOver, CacheKey, Less, IsKeyList, KeySet, Graph.View;
      ghost var listOf := map key | key in graphs :: (var ks :| CachedOver(key, ks); ks);
      entries := map k | k in entries :: if k in present then entries[k].(lastUsed := now) else entries[k];
      assert entries.Keys == old(entries).Keys;
      forall key | key in graphs ensures exists ks :: CachedOver(key, ks) {
        KeyListSame(old(entries), entries, listOf[key]);
        GraphSame(old(entries), entries, listOf[key]);
        assert CachedOver(key, listOf[key]);
      }
    }

    method Remember(key: string, g: Graph, ghost present: seq<string>)
      requires Valid() && IsKeyList(entries, present) && key == CacheKey(present) &&
               g.View() == GraphOver(entries, present)
      modifies this`graphs
      ensures Valid() && key in graphs && graphs[key] == g
    {
      hide GraphOver, CacheKey, Less, IsKeyList, KeySet, OnDemand, Graph.View;
      ghost var listOf := map k | k in graphs :: (var ks :| CachedOver(k, ks); ks);
      if |graphs| >= MAX_CACHED_GRAPHS {
        graphs := map[];
      }
      graphs := graphs[key := g];
      forall k | k in graphs ensures exists ks :: CachedOver(k, ks) {
        assert CachedOver(k, if k == key then present else listOf[k]);
      }
    }

    /**
     The graph a query expands with. At most MAX_LOADS_PER_QUERY unknown sources are loaded first, until the
     shared deadline is over; a failed load changes no source and no graph.
     */
    method GraphOf(trust: Trust, attempts: string -> Attempt, now: int, retryAfter: int) returns (g: Graph?)
      requires Valid()
      modifies this
      ensures Valid()
      ensures Grown(old(entries), entries, Tried(FirstFew(old(AllWanted(SourceKeys(trust), now, retryAfter))),
                                                 attempts), DefaultKeys(), attempts)
      ensures g == null <==> Present(entries, SourceKeys(trust)) == []
      ensures g != null ==>
                exists ks :: IsKeyList(entries, ks) && CacheKey(ks) == CacheKey(Present(entries, SourceKeys(trust))) &&
                             g.View() == GraphOver(entries, ks)
      ensures g != null && DistinctCacheKeys(entries.Keys) ==>
                g.View() == GraphOver(entries, Present(entries, SourceKeys(trust)))
      ensures g != null && KeysNameGraphs(entries) ==>
                g.View() == GraphOver(entries, Present(entries, SourceKeys(trust)))
    {
      hide GraphOver, CacheKey, Less, IsKeyList, Grown, KeysNameGraphs, KeySet, CachesAgree, AllWanted, Tried,
          FirstFew, DistinctCacheKeys;
      var keys := ComputeSourceKeys(trust);
      LessIsStrictOrder();
      if |keys| == 0 {
        NothingWanted(now, retryAfter);
        NothingGrown(entries, DefaultKeys(), attempts);
        return null;
      }
      AscendingNoDup(Less, keys);
      LoadSome(keys, attempts, now, retryAfter);
      ghost var loaded := entries;
      g := GraphFor(keys, now);
      TouchedGrown(old(entries), loaded, entries, Tried(FirstFew(old(AllWanted(keys, now, retryAfter))), attempts),
                   DefaultKeys(), attempts);
      DistinctKeysNameGraphs(entries);
      if g != null {
        ghost var ks := ListOf(CacheKey(Present(entries, keys)));
        PresentIsKeyList(entries, keys);
        GraphNamed(entries, ks, Present(entries, keys));
      }
    }

    lemma NothingWanted(now: int, retryAfter: int)
      ensures AllWanted([], now, retryAfter) == [] && FirstFew([]) == []
      ensures forall attempts: string -> Attempt :: Tried([], attempts) == []
    {
    }

    lemma {:induction false} WantedDistinct(keys: seq<string>, now: int, retryAfter: int)
      requires NoDup(keys)
      ensures NoDup(AllWanted(keys, now, retryAfter))
      decreases |keys|
    {
      hide Wanted;
      if keys != [] {
        WantedDistinct(keys[1..], now, retryAfter);
        assert keys[0] !in keys[1..];
      }
    }

    /** Some key list the cached graph is over. */
    ghost function ListOf(key: string): (ks: seq<string>)
      requires Valid() && key in graphs
      reads this, graphs.Values
      ensures CachedOver(key, ks)
    {
      var ks :| CachedOver(key, ks);
      ks
    }

    method LoadSome(keys: seq<string>, attempts: string -> Attempt, now: int, retryAfter: int)
      requires Valid() && NoDup(keys)
      modifies this
      ensures Valid()
      ensures Grown(old(entries), entries, Tried(FirstFew(old(AllWanted(keys, now, retryAfter))), attempts),
                    DefaultKeys(), attempts)
    {
      hide GraphOver, CacheKey, Less, IsKeyList, Grown, KeySet, CachesAgree, Evicted, OnDemand, Valid, AllWanted, Tried;
      WantedDistinct(keys, now, retryAfter);
      var toLoad := ToLoad(keys, now, retryAfter);
      ghost var wanted := toLoad;
      assert forall k :: k in wanted ==> k !in entries && k !in DefaultKeys();
      if |toLoad| > MAX_LOADS_PER_QUERY {
        toLoad := toLoad[..MAX_LOADS_PER_QUERY];
      }
      assert toLoad == FirstFew(wanted);
      assert forall i :: 0 <= i < |toLoad| ==> toLoad[i] == wanted[i] && wanted[i] in wanted;
      NothingGrown(entries, DefaultKeys(), attempts);
      ghost var done: seq<string> := [];
      assert toLoad[..0] == [] && toLoad[0..] == toLoad;
      NoneTried(toLoad, attempts);
      for i := 0 to |toLoad|
        invariant Valid() && done == toLoad[..i]
        invariant Grown(old(entries), entries, done, DefaultKeys(), attempts)
        invariant Tried(toLoad, attempts) == done + Tried(toLoad[i..], attempts)
        invariant i == |toLoad| ==> Tried(toLoad, attempts) == done
      {
        TriedStep(toLoad, i, attempts);
        ghost var before := entries;
        done := toLoad[..i + 1];
        match attempts(toLoad[i])
        case Expired =>
          done := toLoad[..i];
          break;
        case Failed(at) =>
          MarkFailed(toLoad[i], at, retryAfter);
          FailedGrown(old(entries), before, toLoad, i, DefaultKeys(), attempts);
        case Loaded(source, at) =>
          Store(toLoad[i], source, at);
          ghost var used := if toLoad[i] in before then before[toLoad[i]].lastUsed else at;
          StoredGrown(old(entries), before, entries, toLoad, i, DefaultKeys(), attempts, used);
      }
    }

    /** Reloads the defaults and every loaded source; a failed load keeps the last good data. */
    method Refresh(loads: string -> Option<Source>, now: int)
      requires Valid()
      modifies this
      ensures Valid()
      ensures entries == Refreshed(old(entries), DefaultKeys() + old(entries).Keys, loads, now)
      ensures (forall k :: loads(k).None?) ==> graphs == old(graphs)
    {
      hide GraphOver, CacheKey, IsKeyList, KeySet, Less, Evicted, CachesAgree, Refreshed;
      var keys := ComputeSourceKeys(defaults);
      var others := VocabParse.KeysInSomeOrder(OnDemand(Elems(keys), entries));
      ElemsConcat(keys, others);
      assert Elems(keys + others) == DefaultKeys() + (entries.Keys - DefaultKeys());
      assert DefaultKeys() + (entries.Keys - DefaultKeys()) == DefaultKeys() + entries.Keys;
      RefreshAll(keys + others, loads, now);
    }

    method RefreshAll(keys: seq<string>, loads: string -> Option<Source>, now: int)
      requires Valid() && Elems(keys) == DefaultKeys() + entries.Keys
      modifies this
      ensures Valid()
      ensures entries == Refreshed(old(entries), Elems(keys), loads, now)
      ensures (forall k :: loads(k).None?) ==> graphs == old(graphs)
    {
      hide GraphOver, CacheKey, IsKeyList, KeySet, Less, Evicted, CachesAgree, OnDemand, Refreshed, Valid;
      NothingRefreshed(entries, loads, now);
      assert Elems(keys[..0]) == {};
      for i := 0 to |keys|
        invariant Valid()
        invariant entries == Refreshed(old(entries), Elems(keys[..i]), loads, now)
        invariant (forall k :: loads(k).None?) ==> graphs == old(graphs)
      {
        assert keys[..i + 1] == keys[..i] + [keys[i]] && keys[i] in Elems(keys);
        ElemsConcat(keys[..i], [keys[i]]);
        assert Elems([keys[i]]) == {keys[i]};
        var r := loads(keys[i]);
        Bounded();
        ghost var before := entries;
        if r.Some? {
          Store(keys[i], r.value, now);
          ghost var used := if keys[i] in before then before[keys[i]].lastUsed else now;
          RefreshedStep(old(entries), before, entries, Elems(keys[..i]), keys[i], DefaultKeys(), loads, now, used);
        } else {
          RefreshedSkip(old(entries), Elems(keys[..i]), keys[i], loads, now);
        }
      }
      assert keys[..|keys|] == keys;
    }
  }

  // ----- What loading does to the entries -----

  /** The first sources a query may load. */
  function FirstFew(keys: seq<string>): seq<string> {
    if |keys| > MAX_LOADS_PER_QUERY then keys[..MAX_LOADS_PER_QUERY] else keys
  }

  /** Those it gets to before the deadline is over. */
  function Tried(keys: seq<string>, attempts: string -> Attempt): seq<string> {
    if keys == [] || attempts(keys[0]).Expired? then [] else [keys[0]] + Tried(keys[1..], attempts)
  }

  lemma TriedFrom(keys: seq<string>, i: nat, attempts: string -> Attempt)
    requires i < |keys|
    ensures Tried(keys[i..], attempts) ==
            if attempts(keys[i]).Expired? then [] else [keys[i]] + Tried(keys[i + 1..], attempts)
  {
    assert keys[i..][0] == keys[i] && keys[i..][1..] == keys[i + 1..];
  }

  lemma TriedStep(keys: seq<string>, i: nat, attempts: string -> Attempt)
    requires i < |keys| && Tried(keys, attempts) == keys[..i] + Tried(keys[i..], attempts)
    ensures if attempts(keys[i]).Expired? then Tried(keys, attempts) == keys[..i]
            else Tried(keys, attempts) == keys[..i + 1] + Tried(keys[i + 1..], attempts)
    ensures !attempts(keys[i]).Expired? && i + 1 == |keys| ==> Tried(keys, attempts) == keys
    ensures keys[..|keys|] == keys
  {
    TriedFrom(keys, i, attempts);
    PrefixGrows(keys, i, Tried(keys[i + 1..], attempts));
    assert keys[|keys|..] == [];
  }

  lemma PrefixGrows(keys: seq<string>, i: nat, tail: seq<string>)
    requires i < |keys|
    ensures keys[..i] + ([keys[i]] + tail) == keys[..i + 1] + tail && keys[..i] + [] == keys[..i]
    ensures keys[..|keys|] + [] == keys[..|keys|] == keys
  {
  }

  lemma NoneTried(keys: seq<string>, attempts: string -> Attempt)
    ensures keys == [] ==> Tried(keys, attempts) == []
  {
  }

  /**
   The sources that were tried and loaded are added as they were loaded, each under its own key. Nothing else
   changes, but that on-demand sources may go when there are MAX_ON_DEMAND_SOURCES others.
   */
  ghost predicate Grown(before: Entries, after: Entries, tried: seq<string>, defaults: set<string>,
                        attempts: string -> Attempt) {
    && (forall k :: k in after && k in before ==> after[k].source == before[k].source)
    && (forall k :: k in after && k !in before ==>
          k in tried && attempts(k).Loaded? && after[k].source == attempts(k).source)
    && (forall k :: (k in before || (k in tried && attempts(k).Loaded?)) && k !in after ==>
          k !in defaults && |OnDemand(defaults, after)| == MAX_ON_DEMAND_SOURCES)
  }

  lemma NothingGrown(entries: Entries, defaults: set<string>, attempts: string -> Attempt)
    ensures Grown(entries, entries, [], defaults, attempts)
  {
  }

  lemma TouchedGrown(before: Entries, after: Entries, touched: Entries, tried: seq<string>, defaults: set<string>,
                     attempts: string -> Attempt)
    requires Grown(before, after, tried, defaults, attempts) && SameSources(after, touched)
    ensures Grown(before, touched, tried, defaults, attempts)
  {
    assert OnDemand(defaults, after) == OnDemand(defaults, touched);
  }

  lemma FailedGrown(origin: Entries, before: Entries, toLoad: seq<string>, i: nat, defaults: set<string>,
                    attempts: string -> Attempt)
    requires i < |toLoad| && Grown(origin, before, toLoad[..i], defaults, attempts) && attempts(toLoad[i]).Failed?
    ensures Grown(origin, before, toLoad[..i + 1], defaults, attempts)
  {
    hide OnDemand;
    assert toLoad[..i + 1] == toLoad[..i] + [toLoad[i]];
  }

  lemma FullStays(defaults: set<string>, before: Entries, key: string, entry: SourceEntry, after: Entries)
    requires key !in before && key !in defaults && Evicted(defaults, before[key := entry], after)
    ensures |OnDemand(defaults, before)| == MAX_ON_DEMAND_SOURCES || after != before[key := entry] ==>
              |OnDemand(defaults, after)| == MAX_ON_DEMAND_SOURCES
  {
    var all := before[key := entry];
    assert OnDemand(defaults, all) == OnDemand(defaults, before) + {key};
  }

  lemma StoredGrown(origin: Entries, before: Entries, after: Entries, toLoad: seq<string>, i: nat,
                    defaults: set<string>,
                    attempts: string -> Attempt, used: int)
    requires NoDup(toLoad) && i < |toLoad| && toLoad[i] !in origin && toLoad[i] !in defaults &&
             attempts(toLoad[i]).Loaded?
    requires Grown(origin, before, toLoad[..i], defaults, attempts)
    requires Evicted(defaults, before[toLoad[i] := SourceEntry(attempts(toLoad[i]).source, used)], after)
    ensures Grown(origin, after, toLoad[..i + 1], defaults, attempts)
  {
    hide OnDemand;
    var key := toLoad[i];
    assert toLoad[..i + 1] == toLoad[..i] + [key];
    assert key !in toLoad[..i] && key !in before;
    FullStays(defaults, before, key, SourceEntry(attempts(key).source, used), after);
  }

  /** The entries after every key of done was loaded again, where that succeeded; each holds what its own load gave. */
  ghost function Refreshed(origin: Entries, done: set<string>, loads: string -> Option<Source>, now: int): Entries {
    map k | k in origin.Keys + done && (k in origin || loads(k).Some?) ::
      if k in done && loads(k).Some? then SourceEntry(loads(k).value, if k in origin then origin[k].lastUsed else now)
      else origin[k]
  }

  lemma NothingRefreshed(entries: Entries, loads: string -> Option<Source>, now: int)
    ensures Refreshed(entries, {}, loads, now) == entries
  {
  }

  lemma NothingEvicted(defaults: set<string>, all: Entries, kept: Entries)
    requires Evicted(defaults, all, kept) && |OnDemand(defaults, all)| <= MAX_ON_DEMAND_SOURCES
    ensures kept == all
  {
    if kept.Keys != all.Keys {
      var k :| k in all && k !in kept;
      SubsetSize(OnDemand(defaults, kept), OnDemand(defaults, all) - {k});
    }
  }

  lemma RefreshedStep(origin: Entries, before: Entries, after: Entries, done: set<string>, key: string,
                      defaults: set<string>,
                      loads: string -> Option<Source>, now: int, used: int)
    requires before == Refreshed(origin, done, loads, now) && |OnDemand(defaults, before)| <= MAX_ON_DEMAND_SOURCES
    requires (key in defaults || key in origin) && loads(key).Some?
    requires used == if key in before then before[key].lastUsed else now
    requires Evicted(defaults, before[key := SourceEntry(loads(key).value, used)], after)
    ensures after == Refreshed(origin, done + {key}, loads, now)
  {
    hide Refreshed, Evicted;
    var all := before[key := SourceEntry(loads(key).value, used)];
    RefreshedKeys(origin, done, loads, now);
    assert OnDemand(defaults, all) == OnDemand(defaults, before);
    NothingEvicted(defaults, all, after);
    RefreshedMore(origin, done, key, loads, now, used);
  }

  lemma RefreshedKeys(origin: Entries, done: set<string>, loads: string -> Option<Source>, now: int)
    ensures origin.Keys <= Refreshed(origin, done, loads, now).Keys
  {
  }

  lemma RefreshedMore(origin: Entries, done: set<string>, key: string, loads: string -> Option<Source>, now: int,
                      used: int)
    requires loads(key).Some?
    requires var before := Refreshed(origin, done, loads, now);
             used == if key in before then before[key].lastUsed else now
    ensures Refreshed(origin, done, loads, now)[key := SourceEntry(loads(key).value, used)] ==
            Refreshed(origin, done + {key}, loads, now)
  {
    var a, b := Refreshed(origin, done, loads, now)[key := SourceEntry(loads(key).value, used)],
        Refreshed(origin, done + {key}, loads, now);
    assert a.Keys == b.Keys;
    forall k | k in a ensures a[k] == b[k] {
    }
  }

  /** A failed load. */
  lemma RefreshedSkip(origin: Entries, done: set<string>, key: string, loads: string -> Option<Source>, now: int)
    requires loads(key).None?
    ensures Refreshed(origin, done + {key}, loads, now) == Refreshed(origin, done, loads, now)
  {
  }

  lemma GraphNamed(entries: Entries, ks: seq<string>, present: seq<string>)
    requires IsKeyList(entries, ks) && IsKeyList(entries, present) && CacheKey(ks) == CacheKey(present)
    ensures KeysNameGraphs(entries) ==> GraphOver(entries, ks) == GraphOver(entries, present)
  {
    hide IsKeyList, CacheKey, GraphOver;
  }

  ghost predicate SameSources(a: Entries, b: Entries) {
    a.Keys == b.Keys && forall k :: k in a ==> a[k].source == b[k].source
  }

  lemma KeyListSame(a: Entries, b: Entries, ks: seq<string>)
    requires SameSources(a, b) && IsKeyList(a, ks)
    ensures IsKeyList(b, ks) && forall k :: k in ks ==> k in a
  {
  }

  lemma GraphSame(a: Entries, b: Entries, ks: seq<string>)
    requires SameSources(a, b) && forall k :: k in ks ==> k in a
    ensures GraphOver(a, ks) == GraphOver(b, ks)
  {
    SourcesDecide(a, b, ks);
  }

  lemma {:induction false} PresentSame(a: Entries, b: Entries, keys: seq<string>)
    requires a.Keys == b.Keys
    ensures Present(a, keys) == Present(b, keys)
    decreases |keys|
  {
    if keys != [] { PresentSame(a, b, keys[1..]); }
  }

  lemma {:induction false} PresentMembers(entries: Entries, keys: seq<string>)
    ensures forall k :: k in Present(entries, keys) <==> k in keys && k in entries
    decreases |keys|
  {
    if keys != [] {
      PresentMembers(entries, keys[1..]);
      assert keys == [keys[0]] + keys[1..];
    }
  }

  lemma {:induction false} PresentIsKeyList(entries: Entries, keys: seq<string>)
    requires Ascending(Less, keys)
    ensures Ascending(Less, Present(entries, keys))
    ensures Present(entries, keys) != [] ==> IsKeyList(entries, Present(entries, keys))
    decreases |keys|
  {
    hide Less;
    if keys != [] {
      var rest := Present(entries, keys[1..]);
      PresentIsKeyList(entries, keys[1..]);
      PresentMembers(entries, keys[1..]);
      forall i | 0 <= i < |rest| ensures Less(keys[0], rest[i]) {
        assert rest[i] in keys[1..];
        var j :| 0 <= j < |keys[1..]| && keys[1..][j] == rest[i];
        assert Less(keys[0], keys[j + 1]);
      }
    }
  }

  // ----- Merging the loaded sources -----

  method BuildOver(entries: Entries, present: seq<string>) returns (g: Graph)
    requires forall k :: k in present ==> k in entries
    ensures fresh(g) && g.View() == GraphOver(entries, present)
  {
    hide BuildGraph, FirstConcepts, FirstMappings;
    var concepts := MergeConcepts(entries, present);
    var mappings := MergeMappings(entries, present);
    g := NewGraph(concepts, mappings);
  }

  method MergeConcepts(entries: Entries, present: seq<string>) returns (out: seq<Concept>)
    requires forall k :: k in present ==> k in entries
    ensures out == FirstConcepts(AllConcepts(entries, present), {})
  {
    out := [];
    var seen := {};
    for i := 0 to |present|
      invariant out + FirstConcepts(AllConcepts(entries, present[i..]), seen) ==
                FirstConcepts(AllConcepts(entries, present), {})
    {
      assert present[i..][1..] == present[i + 1..];
      var list := entries[present[i]].source.concepts;
      ghost var later := AllConcepts(entries, present[i + 1..]);
      for j := 0 to |list|
        invariant out + FirstConcepts(list[j..] + later, seen) == FirstConcepts(AllConcepts(entries, present), {})
      {
        assert (list[j..] + later)[1..] == list[j + 1..] + later;
        if list[j].address !in seen {
          seen := seen + {list[j].address};
          out := out + [list[j]];
        }
      }
      assert list[|list|..] + later == later;
    }
    assert present[|present|..] == [];
  }

  method MergeMappings(entries: Entries, present: seq<string>) returns (out: seq<Mapping>)
    requires forall k :: k in present ==> k in entries
    ensures out == FirstMappings(AllMappings(entries, present), {})
  {
    hide MappingKey;
    out := [];
    var seen := {};
    for i := 0 to |present|
      invariant out + FirstMappings(AllMappings(entries, present[i..]), seen) ==
                FirstMappings(AllMappings(entries, present), {})
    {
      assert present[i..][1..] == present[i + 1..];
      var list := entries[present[i]].source.mappings;
      ghost var later := AllMappings(entries, present[i + 1..]);
      for j := 0 to |list|
        invariant out + FirstMappings(list[j..] + later, seen) == FirstMappings(AllMappings(entries, present), {})
      {
        assert (list[j..] + later)[1..] == list[j + 1..] + later;
        if MappingKey(list[j]) !in seen {
          seen := seen + {MappingKey(list[j])};
          out := out + [list[j]];
        }
      }
      assert list[|list|..] + later == later;
    }
    assert present[|present|..] == [];
  }

  // ----- When the cached graph is the right one -----

  ghost function Lookup(cache: map<string, Relations>, entries: Entries, present: seq<string>): Relations
    requires forall k :: k in present ==> k in entries
  {
    if CacheKey(present) in cache then cache[CacheKey(present)] else GraphOver(entries, present)
  }

  ghost predicate NamedBy(cache: map<string, Relations>, entries: Entries, key: string, ks: seq<string>) {
    key in cache && IsKeyList(entries, ks) && CacheKey(ks) == key && cache[key] == GraphOver(entries, ks)
  }

  /** A cache as the registry keeps it: each graph is over loaded sources with that cache key. */
  ghost predicate Consistent(cache: map<string, Relations>, entries: Entries) {
    forall key :: key in cache ==> exists ks :: NamedBy(cache, entries, key, ks)
  }

  ghost predicate KeysNameGraphs(entries: Entries) {
    forall a, b :: IsKeyList(entries, a) && IsKeyList(entries, b) && CacheKey(a) == CacheKey(b) ==>
        GraphOver(entries, a) == GraphOver(entries, b)
  }

  lemma DistinctKeysNameGraphs(entries: Entries)
    ensures DistinctCacheKeys(entries.Keys) ==> KeysNameGraphs(entries)
  {
    hide CacheKey, GraphOver, ListsSome;
  }

  /** Where keys name graphs, every consistent cache answers with the recomputed graph. */
  lemma NamedCacheIsRight(entries: Entries, cache: map<string, Relations>, present: seq<string>)
    requires KeysNameGraphs(entries) && Consistent(cache, entries) && IsKeyList(entries, present)
    ensures Lookup(cache, entries, present) == GraphOver(entries, present)
  {
    hide CacheKey, GraphOver, IsKeyList;
    if CacheKey(present) in cache {
      var ks :| NamedBy(cache, entries, CacheKey(present), ks);
    }
  }

  /** So does every consistent cache over keys of which no two sets have the same joined key, whatever the sources. */
  lemma DistinctIsRight(entries: Entries, cache: map<string, Relations>, present: seq<string>)
    requires DistinctCacheKeys(entries.Keys) && Consistent(cache, entries) && IsKeyList(entries, present)
    ensures Lookup(cache, entries, present) == GraphOver(entries, present)
  {
    hide CacheKey, GraphOver, Consistent, IsKeyList, Lookup, KeysNameGraphs, DistinctCacheKeys;
    DistinctKeysNameGraphs(entries);
    NamedCacheIsRight(entries, cache, present);
  }

  /** Without commas in the loaded keys the cache can be trusted. */
  lemma CommaFreeCacheIsRight(entries: Entries)
    requires forall k :: k in entries ==> ',' !in k
    ensures KeysNameGraphs(entries)
  {
    CommaFreeKeysAreDistinct(entries.Keys);
    DistinctKeysNameGraphs(entries);
  }
}
