/** Paging relays by created_at (expand_registry.go): when it is complete, when it fails, why it ends. */
module Paging {
  import opened Wrappers
  import opened Sequences
  import opened Text
  import opened Nostr

  const PAGE_SIZE := 300

  /** until 0 is no bound. */
  predicate InRange(ev: Event, until: nat) {
    until == 0 || ev.createdAt <= until
  }

  /**
   One page of a relay that holds store: up to PAGE_SIZE of the newest events in range, all of them when
   there are fewer; which of the events with one created_at it picks is up to the relay, on every call anew.
   */
  ghost predicate IsPage(store: set<Event>, until: nat, page: seq<Event>) {
    && NoDup(page) && |page| <= PAGE_SIZE
    && (forall e :: e in page ==> e in store && InRange(e, until))
    && (forall e, f :: e in page && f in store && InRange(f, until) && f !in page ==> f.createdAt <= e.createdAt)
    && (|page| < PAGE_SIZE ==> forall f :: f in store && InRange(f, until) ==> f in page)
  }

  /** The answer to call n with this until. */
  type PageFetcher = (nat, nat) -> Result<seq<Event>>

  ghost predicate Serves(fetch: PageFetcher, store: set<Event>) {
    forall n, until :: fetch(n, until).Ok? ==> IsPage(store, until, fetch(n, until).value)
  }

  /** Ids determine events, and created_at is positive. */
  ghost predicate Sound(store: set<Event>) {
    && (forall e, f :: e in store && f in store && e.id == f.id ==> e == f)
    && (forall e :: e in store ==> e.createdAt > 0)
  }

  ghost function At(store: set<Event>, t: int): set<Event> {
    set e | e in store && e.createdAt == t
  }

  /** At least a full page of events share a created_at. */
  ghost predicate Crowded(store: set<Event>, t: int) {
    |At(store, t)| >= PAGE_SIZE
  }

  ghost predicate Holds(byID: map<Hex32, Event>, evs: set<Event>) {
    forall e :: e in evs ==> e.id in byID && byID[e.id] == e
  }

  ghost predicate OnlyAdds(before: map<Hex32, Event>, after: map<Hex32, Event>, store: set<Event>) {
    && (forall id :: id in before ==> id in after)
    && (forall id :: id in after ==>
          (id in before && after[id] == before[id]) || (after[id] in store && after[id].id == id))
  }

  datatype Outcome = Complete | FetchFailed(message: string) | SharedCreatedAt(at: int)

  /** Everything newer than until is merged, nothing older than until was seen, crowds lie at or below until. */
  ghost predicate Progress(store: set<Event>, merged: set<Event>, until: nat) {
    && merged <= store
    && (until == 0 ==> merged == {})
    && (until > 0 ==>
          && (forall e :: e in merged ==> e.createdAt >= until)
          && (forall e :: e in store && e.createdAt > until ==> e in merged)
          && (forall t :: Crowded(store, t) ==> t <= until))
  }

  method PageRelay(ghost store: set<Event>, fetch: PageFetcher, byID: map<Hex32, Event>) returns (merged: map<Hex32,
        Event>, outcome: Outcome)
    requires Serves(fetch, store) && Sound(store)
    ensures OnlyAdds(byID, merged, store)
    ensures outcome.Complete? ==> Holds(merged, store)
    ensures outcome.Complete? ==> forall t :: !Crowded(store, t)
    ensures outcome.SharedCreatedAt? ==> Crowded(store, outcome.at)
    ensures outcome.FetchFailed? ==> exists n, until :: fetch(n, until).Err?
  {
    merged := byID;
    var seen: set<Hex32> := {};
    var until: nat := 0;
    var calls: nat := 0;
    ghost var got: set<Event> := {};
    while true
      invariant Progress(store, got, until)
      invariant Merged(store, got, [], seen, merged, false) && OnlyAdds(byID, merged, store)
      decreases store - got
    {
      var page := fetch(calls, until);
      if page.Err? {
        return merged, FetchFailed(page.message);
      }
      calls := calls + 1;
      var evs := page.value;
      ghost var before := got;
      var oldest, newToRelay;
      oldest, newToRelay, seen, merged := MergePage(store, evs, seen, merged, got);
      got := got + Elems(evs);
      if |evs| < PAGE_SIZE {
        LastPage(store, before, until, evs);
        return merged, Complete;
      }
      if newToRelay == 0 {
        StuckPage(store, before, until, evs, oldest);
        return merged, SharedCreatedAt(oldest);
      }
      FullPage(store, before, until, evs, oldest);
      until := oldest;
    }
  }

  ghost predicate IsOldest(part: seq<Event>, oldest: int) {
    if part == [] then oldest == 0
    else oldest > 0 && (exists e :: e in part && e.createdAt == oldest) && forall e :: e in part ==>
        oldest <= e.createdAt
  }

  /** What merging part of a page has done to seen and byID, and whether it found anything new. */
  ghost predicate Merged(store: set<Event>, got: set<Event>, part: seq<Event>, seen: set<Hex32>, byID: map<Hex32,
                         Event>, isNew: bool) {
    && (forall e :: e in store ==> (e.id in seen <==> e in got || e in part))
    && Holds(byID, got) && (forall e :: e in part ==> e.id in byID && byID[e.id] == e)
    && (isNew <==> exists e :: e in part && e !in got)
  }

  lemma MergeOne(store: set<Event>, got: set<Event>, part: seq<Event>, seen: set<Hex32>, byID: map<Hex32, Event>,
                 isNew: bool, ev: Event)
    requires Sound(store) && got <= store && ev in store && forall e :: e in part ==> e in store
    requires Merged(store, got, part, seen, byID, isNew)
    ensures Merged(store, got, part + [ev], seen + {ev.id}, byID[ev.id := ev], isNew || ev.id !in seen)
  {
    assert forall e :: e in part + [ev] <==> e in part || e == ev;
    if ev !in got {
      assert isNew || ev.id !in seen;
    }
  }

  lemma OldestOne(part: seq<Event>, oldest: int, ev: Event)
    requires IsOldest(part, oldest) && ev.createdAt > 0
    ensures IsOldest(part + [ev], if oldest == 0 || ev.createdAt < oldest then ev.createdAt else oldest)
  {
    assert forall e :: e in part + [ev] <==> e in part || e == ev;
  }

  method MergePage(ghost store: set<Event>, evs: seq<Event>, seen: set<Hex32>, byID: map<Hex32, Event>,
                   ghost got: set<Event>)
    returns (oldest: int, newToRelay: nat, seen': set<Hex32>, byID': map<Hex32, Event>)
    requires Sound(store) && got <= store && forall e :: e in evs ==> e in store
    requires Merged(store, got, [], seen, byID, false)
    ensures Merged(store, got, evs, seen', byID', newToRelay > 0) && OnlyAdds(byID, byID', store)
    ensures IsOldest(evs, oldest)
  {
    hide Merged, IsOldest;
    oldest, newToRelay, seen', byID' := 0, 0, seen, byID;
    assert evs[..0] == [] && IsOldest([], 0) by { NothingMerged(); }
    for i := 0 to |evs|
      invariant IsOldest(evs[..i], oldest)
      invariant Merged(store, got, evs[..i], seen', byID', newToRelay > 0) && OnlyAdds(byID, byID', store)
    {
      var ev := evs[i];
      assert ev in evs && evs[..i + 1] == evs[..i] + [ev];
      OldestOne(evs[..i], oldest, ev);
      MergeOne(store, got, evs[..i], seen', byID', newToRelay > 0, ev);
      if oldest == 0 || ev.createdAt < oldest {
        oldest := ev.createdAt;
      }
      if ev.id !in seen' {
        seen' := seen' + {ev.id};
        newToRelay := newToRelay + 1;
      }
      assert seen' + {ev.id} == seen';
      byID' := byID'[ev.id := ev];
    }
    assert evs[..|evs|] == evs;
  }

  lemma NothingMerged()
    ensures IsOldest([], 0)
  {
  }

  // ----- What a page proves -----

  lemma PageSize(page: seq<Event>)
    requires NoDup(page)
    ensures |Elems(page)| == |page|
  {
    NoDupCardinality(page);
  }

  lemma LastPage(store: set<Event>, got: set<Event>, until: nat, page: seq<Event>)
    requires Progress(store, got, until) && IsPage(store, until, page) && |page| < PAGE_SIZE
    ensures got + Elems(page) == store
    ensures forall t :: !Crowded(store, t)
  {
    assert forall e :: e in Elems(page) <==> e in page;
    assert forall e :: e in store && !InRange(e, until) ==> e in got;
    PageSize(page);
    forall t | until == 0 || t <= until ensures !Crowded(store, t) {
      SubsetSize(At(store, t), Elems(page));
    }
  }

  lemma StuckPage(store: set<Event>, got: set<Event>, until: nat, page: seq<Event>, oldest: int)
    requires Progress(store, got, until) && IsPage(store, until, page) && |page| == PAGE_SIZE
    requires forall e :: e in page ==> e in got
    requires exists e :: e in page && e.createdAt == oldest
    ensures Crowded(store, oldest)
  {
    assert page[0] in page && until > 0;
    assert forall e :: e in page ==> e.createdAt == until;
    PageSize(page);
    SubsetSize(Elems(page), At(store, oldest));
  }

  lemma FullPage(store: set<Event>, got: set<Event>, until: nat, page: seq<Event>, oldest: int)
    requires Progress(store, got, until) && IsPage(store, until, page) && |page| == PAGE_SIZE && oldest > 0
    requires exists e :: e in page && e.createdAt == oldest
    requires forall e :: e in page ==> oldest <= e.createdAt
    ensures Progress(store, got + Elems(page), oldest)
  {
    var last :| last in page && last.createdAt == oldest;
    assert forall e :: e in Elems(page) <==> e in page;
    assert forall e :: e in store && InRange(e, until) && e !in page ==> e.createdAt <= last.createdAt;
    PageSize(page);
    forall t | Crowded(store, t) ensures t <= oldest {
      if t > oldest && (until == 0 || t <= until) {
        CrowdFits(store, until, page, last, t);
      }
    }
  }

  /** A crowd newer than the last event of a page would have filled the page. */
  lemma CrowdFits(store: set<Event>, until: nat, page: seq<Event>, last: Event, t: int)
    requires IsPage(store, until, page) && last in page && t > last.createdAt && (until == 0 || t <= until)
    ensures !Crowded(store, t)
  {
    assert forall e :: e in store && InRange(e, until) && e !in page ==> e.createdAt <= last.createdAt;
    PageSize(page);
    assert last in Elems(page) && last !in At(store, t);
    SubsetSize(At(store, t), Elems(page));
  }

  // ----- Several relays -----

  datatype Relay = Relay(store: set<Event>, fetch: PageFetcher)

  ghost predicate AllServe(relays: seq<Relay>) {
    forall i :: 0 <= i < |relays| ==> Serves(relays[i].fetch, relays[i].store) && Sound(relays[i].store)
  }

  ghost function Union(relays: seq<Relay>): set<Event> {
    if relays == [] then {} else Union(relays[..|relays| - 1]) + relays[|relays| - 1].store
  }

  /** Every matching event any relay holds, each once, in some order; or an error if one relay fails. */
  method Fetch(relays: seq<Relay>) returns (out: Result<seq<Event>>)
    requires AllServe(relays) && Sound(Union(relays))
    ensures out.Ok? ==> NoDup(out.value) && Elems(out.value) == Union(relays)
    ensures out.Ok? ==> forall i, t :: 0 <= i < |relays| ==> !Crowded(relays[i].store, t)
  {
    var byID: map<Hex32, Event> := map[];
    for i := 0 to |relays|
      invariant IsUnion(byID, Union(relays[..i]))
      invariant forall j, t :: 0 <= j < i ==> !Crowded(relays[j].store, t)
    {
      assert relays[..i + 1][..i] == relays[..i];
      UnionGrows(relays, i + 1);
      ghost var before := byID;
      var outcome;
      byID, outcome := PageRelay(relays[i].store, relays[i].fetch, byID);
      if !outcome.Complete? {
        return Err("relay failed");
      }
      UnionStep(before, byID, Union(relays[..i]), relays[i].store);
    }
    assert relays[..|relays|] == relays;
    var list := ValuesInSomeOrder(byID, Union(relays));
    return Ok(list);
  }

  /** byID holds exactly these events, by their ids. */
  ghost predicate IsUnion(byID: map<Hex32, Event>, evs: set<Event>) {
    Holds(byID, evs) && forall id :: id in byID ==> byID[id] in evs && byID[id].id == id
  }

  lemma UnionStep(before: map<Hex32, Event>, after: map<Hex32, Event>, evs: set<Event>, store: set<Event>)
    requires IsUnion(before, evs) && OnlyAdds(before, after, store) && Holds(after, store) && Sound(evs + store)
    ensures IsUnion(after, evs + store)
  {
    forall e | e in evs ensures e.id in after && after[e.id] == e {
      assert e.id in before && before[e.id] == e;
      assert after[e.id] in evs + store && after[e.id].id == e.id;
    }
  }

  method ValuesInSomeOrder(byID: map<Hex32, Event>, ghost evs: set<Event>) returns (list: seq<Event>)
    requires IsUnion(byID, evs)
    ensures NoDup(list) && Elems(list) == evs
  {
    list := [];
    var todo := byID.Keys;
    while todo != {}
      invariant todo <= byID.Keys
      invariant NoDup(list) && forall e :: e in list <==> e in evs && e.id !in todo
      decreases todo
    {
      var id :| id in todo;
      list := list + [byID[id]];
      todo := todo - {id};
    }
  }

  lemma {:induction false} UnionGrows(relays: seq<Relay>, n: nat)
    requires n <= |relays|
    ensures Union(relays[..n]) <= Union(relays)
    decreases |relays| - n
  {
    if n == |relays| {
      assert relays[..n] == relays;
    } else {
      UnionGrows(relays, n + 1);
      assert relays[..n + 1][..n] == relays[..n];
    }
  }
}
