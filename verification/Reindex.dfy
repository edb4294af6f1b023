/**
 The rebuild of the search index (reindex.go): the walk writes metadata, the replay writes fulltext, with
 different keys and in different orders, and both settle on the same version.
 */
module Reindex {
  import opened Wrappers
  import opened Sequences
  import opened Ordering
  import opened Text
  import opened Nostr
  import opened Gate
  import opened Projection

  const BATCH_SIZE := 100

  datatype Entry = Entry(text: string, fetchedAt: int, status: string)

  datatype Doc = Doc(meta: Event, content: Option<Entry>)

  /** Documents by id, and those of events without an id of their own making. */
  datatype Index = Index(docs: map<string, Doc>, loose: set<Event>)

  const EMPTY := Index(map[], {})

  type Key = Event -> Option<string>

  // ----- What each pass comes to -----

  /** The unconditional upsert: the whole document is replaced. */
  function Put(ix: Index, key: Key, ev: Event): Index {
    match key(ev)
    case Some(k) => ix.(docs := ix.docs[k := Doc(ev, None)])
    case None => ix.(loose := ix.loose + {ev})
  }

  /** Upserts in order; those of the ids in lost fail. */
  function PutAll(ix: Index, key: Key, batch: seq<Event>, lost: set<Hex32>): Index
    decreases |batch|
  {
    if batch == [] then ix
    else
      var before, last := PutAll(ix, key, batch[..|batch| - 1], lost), batch[|batch| - 1];
      if last.id in lost then before else Put(before, key, last)
  }

  /** The versions AddressDedup has kept so far, by key. */
  function Best(key: Key, evs: seq<Event>): map<string, Event>
    decreases |evs|
  {
    if evs == [] then map[]
    else
      var best, ev := Best(key, evs[..|evs| - 1]), evs[|evs| - 1];
      match key(ev)
      case Some(k) => if k in best && !Newer(ev, best[k]) then best else best[k := ev]
      case None => best
  }

  /** By key, the last of the kept versions whose upsert did not fail. */
  function Landed(key: Key, evs: seq<Event>, lost: set<Hex32>): map<string, Event>
    decreases |evs|
  {
    if evs == [] then map[]
    else
      var init, ev := evs[..|evs| - 1], evs[|evs| - 1];
      var landed := Landed(key, init, lost);
      match key(ev)
      case Some(k) =>
        if ev.id in lost || (k in Best(key, init) && !Newer(ev, Best(key, init)[k])) then landed else landed[k := ev]
      case None => landed
  }

  /** The events the gate let through when the walk met them; gates(i) is the gate at that time. */
  function Admitted(evs: seq<Event>, gates: nat -> Gate): seq<Event>
    decreases |evs|
  {
    if evs == [] then []
    else
      var last := |evs| - 1;
      var before := Admitted(evs[..last], gates);
      if gates(last).Blocked(evs[last]) then before else before + [evs[last]]
  }

  ghost predicate DistinctIds(evs: seq<Event>) {
    forall i, j :: 0 <= i < j < |evs| ==> evs[i].id != evs[j].id
  }

  /** ev is the version of its document that wins among evs. */
  ghost predicate IsNewest(ev: Event, key: Key, evs: seq<Event>) {
    ev in evs && forall other :: other in evs && key(other) == key(ev) ==> other == ev || Newer(ev, other)
  }

  // ----- Pass one: metadata -----

  /** nostrlib's AddressDedup, by its documented contract. */
  class AddressDedup {
    var best: map<string, Event>

    constructor ()
      ensures best == map[]
    {
      best := map[];
    }

    method Keep(key: string, ev: Event) returns (keep: bool)
      modifies this
      ensures keep <==> !(key in old(best)) || Newer(ev, old(best)[key])
      ensures best == if keep then old(best)[key := ev] else old(best)
    {
      keep := key !in best || Newer(ev, best[key]);
      if keep {
        best := best[key := ev];
      }
    }
  }

  /** docs and loose after writing every version that was kept when it came, the metadata part. */
  ghost predicate Projects(ix: Index, key: Key, evs: seq<Event>, lost: set<Hex32>) {
    && (forall k :: k in ix.docs <==> k in Landed(key, evs, lost))
    && (forall k :: k in ix.docs ==> ix.docs[k] == Doc(Landed(key, evs, lost)[k], None))
    && (forall ev :: ev in ix.loose <==> ev in evs && key(ev).None? && ev.id !in lost)
  }

  lemma ProjectsStep(ix: Index, key: Key, evs: seq<Event>, ev: Event, lost: set<Hex32>)
    requires Projects(ix, key, evs, lost)
    ensures var best := Best(key, evs);
            var kept := match key(ev) case Some(k) => k !in best || Newer(ev, best[k]) case None => true;
            Projects(if kept && ev.id !in lost then Put(ix, key, ev) else ix, key, evs + [ev], lost)
  {
    hide Newer;
    assert (evs + [ev])[..|evs|] == evs;
    assert forall x :: x in evs + [ev] <==> x in evs || x == ev;
  }

  lemma PutAllStep(ix: Index, key: Key, batch: seq<Event>, ev: Event, lost: set<Hex32>)
    ensures PutAll(ix, key, batch + [ev], lost) ==
            if ev.id in lost then PutAll(ix, key, batch, lost) else Put(PutAll(ix, key, batch, lost), key, ev)
  {
    assert (batch + [ev])[..|batch|] == batch;
  }

  class Collection {
    var index: Index

    constructor ()
      ensures index == EMPTY
    {
      index := EMPTY;
    }

    /** The number of documents indexed, and some number of errors. */
    method BatchUpsertEvents(key: Key, batch: seq<Event>, lost: set<Hex32>) returns (indexed: nat, errs: nat)
      modifies this
      ensures index == PutAll(old(index), key, batch, lost)
      ensures indexed <= |batch| && (indexed == |batch| <==> errs == 0)
      ensures errs == 0 <==> forall ev :: ev in batch ==> ev.id !in lost
    {
      ghost var origin := index;
      indexed, errs := 0, 0;
      for i := 0 to |batch|
        invariant index == PutAll(origin, key, batch[..i], lost) && indexed + errs == i
        invariant errs == 0 <==> forall ev :: ev in batch[..i] ==> ev.id !in lost
      {
        assert batch[..i + 1] == batch[..i] + [batch[i]];
        PutAllStep(origin, key, batch[..i], batch[i], lost);
        if batch[i].id in lost {
          errs := errs + 1;
        } else {
          index := Put(index, key, batch[i]);
          indexed := indexed + 1;
        }
      }
      assert batch[..|batch|] == batch;
    }

    /** PATCH of one document. Without such a document it fails. */
    method PatchContent(docId: string, entry: Entry, fails: bool) returns (ok: bool)
      modifies this
      ensures ok <==> docId in old(index).docs && !fails
      ensures index == if fails then old(index) else Patched(old(index), docId, entry)
    {
      ok := docId in index.docs && !fails;
      if ok {
        index := index.(docs := index.docs[docId := index.docs[docId].(content := Some(entry))]);
      }
    }
  }

  function Patched(ix: Index, docId: string, entry: Entry): Index {
    if docId in ix.docs then ix.(docs := ix.docs[docId := ix.docs[docId].(content := Some(entry))]) else ix
  }

  datatype Counts = Counts(total: nat, indexed: nat, superseded: nat, errors: nat)

  /** What the walk notes about an event for the replay; docId is "" when it has no usable d tag. */
  datatype Walked = Walked(createdAt: int, docId: string)

  function RecordWalked(ev: Event): Walked {
    match TsDocId(ev)
    case Some(docId) => Walked(ev.createdAt, docId)
    case None => Walked(ev.createdAt, "")
  }

  ghost predicate Remembers(walked: map<Hex32, Walked>, evs: seq<Event>) {
    && (forall id :: id in walked ==> exists ev :: ev in evs && ev.id == id && walked[id] == RecordWalked(ev))
    && (forall ev :: ev in evs ==> ev.id in walked)
  }

  lemma RemembersStep(walked: map<Hex32, Walked>, evs: seq<Event>, ev: Event)
    requires Remembers(walked, evs)
    ensures Remembers(walked[ev.id := RecordWalked(ev)], evs + [ev])
  {
    hide RecordWalked;
    assert forall x :: x in evs + [ev] <==> x in evs || x == ev;
  }

  lemma AdmittedStep(evs: seq<Event>, gates: nat -> Gate, i: nat)
    requires i < |evs|
    ensures Admitted(evs[..i + 1], gates) ==
            if gates(i).Blocked(evs[i]) then Admitted(evs[..i], gates) else Admitted(evs[..i], gates) + [evs[i]]
  {
    assert evs[..i + 1][..i] == evs[..i];
  }

  /** Where one pass stands: what was written, with the batch on top, is the projection of what was admitted. */
  ghost predicate InWalk(ix: Index, batch: seq<Event>, best: map<string, Event>, key: Key, evs: seq<Event>,
                         lost: set<Hex32>) {
    best == Best(key, evs) && Projects(PutAll(ix, key, batch, lost), key, evs, lost)
  }

  lemma BestStep(key: Key, evs: seq<Event>, ev: Event)
    ensures Best(key, evs + [ev]) ==
            match key(ev)
            case Some(k) => if k in Best(key, evs) && !Newer(ev, Best(key, evs)[k]) then Best(key, evs) else Best(key,
                  evs)[k := ev]
            case None => Best(key, evs)
  {
    assert (evs + [ev])[..|evs|] == evs;
  }

  lemma WalkStep(ix: Index, batch: seq<Event>, best: map<string, Event>, key: Key, evs: seq<Event>, ev: Event,
                 lost: set<Hex32>)
    requires InWalk(ix, batch, best, key, evs, lost)
    ensures match key(ev)
            case Some(k) =>
              if k in best && !Newer(ev, best[k]) then InWalk(ix, batch, best, key, evs + [ev], lost)
              else InWalk(ix, batch + [ev], best[k := ev], key, evs + [ev], lost)
            case None => InWalk(ix, batch + [ev], best, key, evs + [ev], lost)
  {
    hide Newer, Projects, Best, PutAll;
    ProjectsStep(PutAll(ix, key, batch, lost), key, evs, ev, lost);
    PutAllStep(ix, key, batch, ev, lost);
    BestStep(key, evs, ev);
  }

  lemma FlushStep(ix: Index, batch: seq<Event>, best: map<string, Event>, key: Key, evs: seq<Event>, lost: set<Hex32>)
    requires InWalk(ix, batch, best, key, evs, lost)
    ensures InWalk(PutAll(ix, key, batch, lost), [], best, key, evs, lost)
  {
  }

  /**
   The walk of run(): skip what is blocked, note the rest, keep the newest, upsert by the hundred. The upserts of
   the ids in lost fail.
   */
  method WalkAmb(evs: seq<Event>, gates: nat -> Gate, lost: set<Hex32>, coll: Collection)
    returns (walked: map<Hex32, Walked>, counts: Counts)
    requires coll.index == EMPTY
    modifies coll
    ensures Projects(coll.index, AmbDedupKey, Admitted(evs, gates), lost)
    ensures Remembers(walked, Admitted(evs, gates))
    ensures counts.total == |Admitted(evs, gates)| && counts.indexed + counts.superseded <= counts.total
    ensures counts.errors == 0 <==> counts.indexed + counts.superseded == counts.total
  {
    hide Projects, Best, Landed, PutAll, Gate.Blocked, AmbDedupKey, Newer, Remembers, RecordWalked, InWalk, Admitted;
    NoneAdmitted(gates);
    walked, counts := map[], Counts(0, 0, 0, 0);
    var batch: seq<Event> := [];
    var dedup := new AddressDedup();
    WalkStarts(lost);
    assert evs[..0] == [];
    for i := 0 to |evs|
      invariant fresh(dedup)
      invariant InWalk(coll.index, batch, dedup.best, AmbDedupKey, Admitted(evs[..i], gates), lost)
      invariant Remembers(walked, Admitted(evs[..i], gates))
      invariant Counted(counts, |Admitted(evs[..i], gates)|, |batch|)
    {
      AdmittedStep(evs, gates, i);
      var event := evs[i];
      if gates(i).Blocked(event) { continue; }
      ghost var admitted := Admitted(evs[..i], gates);
      RemembersStep(walked, admitted, event);
      WalkStep(coll.index, batch, dedup.best, AmbDedupKey, admitted, event, lost);
      counts := counts.(total := counts.total + 1);
      walked := walked[event.id := RecordWalked(event)];
      var key := AmbDedupKey(event);
      if key.Some? {
        var keep := dedup.Keep(key.value, event);
        if !keep {
          counts := counts.(superseded := counts.superseded + 1);
          continue;
        }
      }
      batch := batch + [event];
      if |batch| >= BATCH_SIZE {
        FlushStep(coll.index, batch, dedup.best, AmbDedupKey, Admitted(evs[..i + 1], gates), lost);
        var indexed, errs := coll.BatchUpsertEvents(AmbDedupKey, batch, lost);
        counts := counts.(indexed := counts.indexed + indexed, errors := counts.errors + errs);
        batch := [];
      }
    }
    assert evs[..|evs|] == evs;
    WalkEnds(coll.index, batch, dedup.best, AmbDedupKey, Admitted(evs, gates), lost);
    if |batch| > 0 {
      var indexed, errs := coll.BatchUpsertEvents(AmbDedupKey, batch, lost);
      counts := counts.(indexed := counts.indexed + indexed, errors := counts.errors + errs);
    } else {
      EmptyPutAll(coll.index, AmbDedupKey, lost);
    }
  }

  /** Every admitted event is indexed, superseded, waiting, or part of a counted error. */
  predicate Counted(counts: Counts, admitted: nat, waiting: nat) {
    && counts.total == admitted && counts.indexed + counts.superseded + waiting <= admitted
    && (counts.errors == 0 <==> counts.indexed + counts.superseded + waiting == admitted)
  }

  lemma NoneAdmitted(gates: nat -> Gate)
    ensures Admitted([], gates) == []
  {
  }

  lemma EmptyPutAll(ix: Index, key: Key, lost: set<Hex32>)
    ensures PutAll(ix, key, [], lost) == ix
  {
  }

  lemma WalkStarts(lost: set<Hex32>)
    ensures forall key: Key :: InWalk(EMPTY, [], map[], key, [], lost)
    ensures Remembers(map[], [])
  {
  }

  lemma WalkEnds(ix: Index, batch: seq<Event>, best: map<string, Event>, key: Key, evs: seq<Event>, lost: set<Hex32>)
    requires InWalk(ix, batch, best, key, evs, lost)
    ensures Projects(PutAll(ix, key, batch, lost), key, evs, lost)
  {
  }

  /** reindexStructuredEvents: the same resolution, one reprojection each; those of the ids in lost fail. */
  method ReindexStructuredEvents(evs: seq<Event>, gates: nat -> Gate, lost: set<Hex32>,
                                 coll: Collection) returns (counts: Counts)
    requires coll.index == EMPTY
    modifies coll
    ensures Projects(coll.index, StructuredDedupKey, Admitted(evs, gates), lost)
    ensures counts.total == counts.indexed + counts.superseded + counts.errors == |Admitted(evs, gates)|
  {
    hide Projects, Best, Landed, PutAll, Gate.Blocked, StructuredDedupKey, Newer, InWalk, Admitted;
    NoneAdmitted(gates);
    counts := Counts(0, 0, 0, 0);
    var dedup := new AddressDedup();
    WalkStarts(lost);
    assert evs[..0] == [];
    for i := 0 to |evs|
      invariant fresh(dedup)
      invariant InWalk(coll.index, [], dedup.best, StructuredDedupKey, Admitted(evs[..i], gates), lost)
      invariant counts.total == counts.indexed + counts.superseded + counts.errors == |Admitted(evs[..i], gates)|
    {
      AdmittedStep(evs, gates, i);
      var event := evs[i];
      if gates(i).Blocked(event) { continue; }
      WalkStep(coll.index, [], dedup.best, StructuredDedupKey, Admitted(evs[..i], gates), event, lost);
      counts := counts.(total := counts.total + 1);
      var docID := StructuredDedupKey(event);
      if docID.Some? {
        var keep := dedup.Keep(docID.value, event);
        if !keep {
          counts := counts.(superseded := counts.superseded + 1);
          continue;
        }
      }
      assert [] + [event] == [event];
      FlushStep(coll.index, [event], dedup.best, StructuredDedupKey, Admitted(evs[..i + 1], gates), lost);
      var indexed, errs := coll.BatchUpsertEvents(StructuredDedupKey, [event], lost);
      if errs > 0 {
        counts := counts.(errors := counts.errors + 1);
        continue;
      }
      counts := counts.(indexed := counts.indexed + 1);
    }
    assert evs[..|evs|] == evs;
    WalkEnds(coll.index, [], dedup.best, StructuredDedupKey, Admitted(evs, gates), lost);
    EmptyPutAll(coll.index, StructuredDedupKey, lost);
  }

  // ----- The version that is kept is the newest -----

  lemma {:induction false} BestIsNewest(key: Key, evs: seq<Event>, k: string)
    requires DistinctIds(evs)
    ensures k in Best(key, evs) ==> key(Best(key, evs)[k]) == Some(k) && IsNewest(Best(key, evs)[k], key, evs)
    ensures (exists ev :: ev in evs && key(ev) == Some(k)) ==> k in Best(key, evs)
    decreases |evs|
  {
    hide Newer;
    if evs != [] {
      var init, ev := evs[..|evs| - 1], evs[|evs| - 1];
      assert evs == init + [ev];
      assert forall x :: x in evs <==> x in init || x == ev;
      BestIsNewest(key, init, k);
      if key(ev) == Some(k) && k in Best(key, init) {
        var prev := Best(key, init)[k];
        NewerConnected(ev, prev);
        assert prev.id != ev.id;
        forall other | other in init && key(other) == Some(k) && Newer(ev, prev) ensures Newer(ev, other) {
          if other != prev { NewerTransitive(ev, prev, other); }
        }
      }
    }
  }

  lemma NewestUnique(a: Event, b: Event, key: Key, evs: seq<Event>)
    requires IsNewest(a, key, evs) && IsNewest(b, key, evs) && key(a) == key(b)
    ensures a == b
  {
    hide Newer;
    NewerConnected(a, b);
  }

  /** What landed was kept, and of the newest versions all landed but the lost ones. */
  lemma {:induction false} LandedIs(key: Key, evs: seq<Event>, lost: set<Hex32>, k: string)
    ensures k in Landed(key, evs, lost) ==>
              var ev := Landed(key, evs, lost)[k];
              ev in evs && key(ev) == Some(k) && ev.id !in lost && k in Best(key, evs)
    ensures k in Best(key, evs) && Best(key, evs)[k].id !in lost ==>
              k in Landed(key, evs, lost) && Landed(key, evs, lost)[k] == Best(key, evs)[k]
    decreases |evs|
  {
    hide Newer;
    if evs != [] {
      LandedIs(key, evs[..|evs| - 1], lost, k);
      assert evs == evs[..|evs| - 1] + [evs[|evs| - 1]];
    }
  }

  /** The upsert of the newest version of the document failed. */
  ghost predicate NewestLost(key: Key, k: string, evs: seq<Event>, lost: set<Hex32>) {
    exists ev :: IsNewest(ev, key, evs) && key(ev) == Some(k) && ev.id in lost
  }

  /**
   Whatever the order of the walk: a document has the metadata of the newest version that the gate let through,
   the lowest id on equal times, unless that version's upsert failed; then it has an admitted version's or is
   not there.
   */
  lemma WalkKeepsNewest(ix: Index, key: Key, evs: seq<Event>, ev: Event, lost: set<Hex32>)
    requires Projects(ix, key, evs, lost) && DistinctIds(evs)
    requires ev in evs && key(ev).Some?
    ensures var k := key(ev).value;
            && (!NewestLost(key, k, evs, lost) ==> k in ix.docs && (ix.docs[k].meta == ev <==> IsNewest(ev, key, evs)))
            && (k in ix.docs ==>
                  ix.docs[k].meta in evs && key(ix.docs[k].meta) == Some(k) && ix.docs[k].meta.id !in lost)
  {
    hide Newer, Best, Landed;
    var k := key(ev).value;
    BestIsNewest(key, evs, k);
    LandedIs(key, evs, lost, k);
    if IsNewest(ev, key, evs) {
      NewestUnique(ev, Best(key, evs)[k], key, evs);
    }
  }

  // ----- Pass two: fulltext -----

  function CreatedAt(walked: map<Hex32, Walked>, id: Hex32): int {
    if id in walked then walked[id].createdAt else 0
  }

  function DocIdOf(walked: map<Hex32, Walked>, id: Hex32): string {
    if id in walked then walked[id].docId else ""
  }

  /** The winner of a document is patched last: ascending time, then descending id. */
  predicate Before(walked: map<Hex32, Walked>, a: Hex32, b: Hex32) {
    CreatedAt(walked, a) < CreatedAt(walked, b) || (CreatedAt(walked, a) == CreatedAt(walked, b) && Less(b, a))
  }

  function ReplayOrder(walked: map<Hex32, Walked>): (Hex32, Hex32) -> bool {
    (a: Hex32, b: Hex32) => Before(walked, a, b)
  }

  lemma ReplayOrderIsStrict(walked: map<Hex32, Walked>)
    ensures StrictOrder(ReplayOrder(walked))
  {
    hide Less;
    LessIsStrictOrder();
  }

  /** orderContentReplay, in place: the same rows, in replay order. */
  method OrderContentReplay(rows: array<Hex32>, walked: map<Hex32, Walked>)
    requires NoDup(rows[..])
    modifies rows
    ensures multiset(rows[..]) == multiset(old(rows[..]))
    ensures Ascending(ReplayOrder(walked), rows[..])
  {
    hide Sort, ReplayOrder;
    var sorted := Sort(ReplayOrder(walked), rows[..]);
    ReplayOrderIsStrict(walked);
    SortAscending(ReplayOrder(walked), rows[..]);
    SortMultiset(ReplayOrder(walked), rows[..]);
    forall i | 0 <= i < rows.Length {
      rows[i] := sorted[i];
    }
    assert rows[..] == sorted;
  }

  lemma SameMembers(a: seq<Hex32>, b: seq<Hex32>)
    requires multiset(a) == multiset(b)
    ensures Elems(a) == Elems(b) && |a| == |b|
  {
    assert forall id :: id in a <==> id in multiset(a);
    assert forall id :: id in b <==> id in multiset(b);
    assert |multiset(a)| == |a| && |multiset(b)| == |b|;
  }

  /** The patches of the rows in order; rows that are not in entries have no patch that succeeds. */
  function Replayed(ix: Index, ids: seq<Hex32>, walked: map<Hex32, Walked>, entries: map<Hex32, Entry>): Index
    decreases |ids|
  {
    if ids == [] then ix
    else
      var last := ids[|ids| - 1];
      var before := Replayed(ix, ids[..|ids| - 1], walked, entries);
      if DocIdOf(walked, last) == "" || last !in entries then before
      else Patched(before, DocIdOf(walked, last), entries[last])
  }

  lemma ReplayedStep(ix: Index, ids: seq<Hex32>, i: nat, walked: map<Hex32, Walked>, entries: map<Hex32, Entry>)
    requires i < |ids|
    ensures Replayed(ix, ids[..i + 1], walked, entries) ==
            if DocIdOf(walked, ids[i]) == "" || ids[i] !in entries then Replayed(ix, ids[..i], walked, entries)
            else Patched(Replayed(ix, ids[..i], walked, entries), DocIdOf(walked, ids[i]), entries[ids[i]])
  {
    assert ids[..i + 1][..i] == ids[..i];
  }

  /**
   replayContent: every row on its document, in order. A row is an id; its entry is what the store holds. The
   patches of the rows in failing fail.
   */
  method ReplayContent(rows: array<Hex32>, entries: map<Hex32, Entry>, failing: set<Hex32>, walked: map<Hex32,
                       Walked>, coll: Collection)
    returns (patched: nat, errs: nat)
    requires NoDup(rows[..]) && forall i :: 0 <= i < rows.Length ==> rows[i] in entries
    modifies rows, coll
    ensures Elems(rows[..]) == Elems(old(rows[..])) && Ascending(ReplayOrder(walked), rows[..])
    ensures coll.index == Replayed(old(coll.index), rows[..], walked, entries - failing)
    ensures patched + errs == rows.Length
  {
    hide Replayed, Patched, DocIdOf, ReplayOrder, Ascending;
    ghost var given := rows[..];
    OrderContentReplay(rows, walked);
    ghost var sorted := rows[..];
    SameMembers(sorted, given);
    forall i | 0 <= i < rows.Length ensures rows[i] in entries {
      assert sorted[i] in Elems(given);
    }
    patched, errs := 0, 0;
    EmptyReplay(coll.index, walked, entries - failing);
    for i := 0 to rows.Length
      invariant rows[..] == sorted && patched + errs == i
      invariant forall j :: 0 <= j < rows.Length ==> rows[j] in entries
      invariant coll.index == Replayed(old(coll.index), sorted[..i], walked, entries - failing)
    {
      ReplayedStep(old(coll.index), sorted, i, walked, entries - failing);
      assert rows[i] == sorted[i];
      var docID := DocIdOf(walked, rows[i]);
      if docID == "" {
        errs := errs + 1;
        continue;
      }
      var ok := coll.PatchContent(docID, entries[rows[i]], rows[i] in failing);
      if ok { patched := patched + 1; } else { errs := errs + 1; }
    }
    assert sorted[..rows.Length] == sorted;
  }

  lemma EmptyReplay(ix: Index, walked: map<Hex32, Walked>, entries: map<Hex32, Entry>)
    ensures Replayed(ix, [], walked, entries) == ix
  {
  }

  /** The last row of the document whose patch succeeds. */
  function LastFor(ids: seq<Hex32>, walked: map<Hex32, Walked>, entries: map<Hex32, Entry>,
                   k: string): (r: Option<Hex32>)
    ensures r.Some? ==> r.value in entries
    decreases |ids|
  {
    if ids == [] then None
    else
      var last := ids[|ids| - 1];
      if DocIdOf(walked, last) == k && last in entries then Some(last) else LastFor(ids[..|ids| - 1], walked, entries,
            k)
  }

  /** The fulltext the replay leaves on a document that had this one. */
  function Fulltext(ids: seq<Hex32>, walked: map<Hex32, Walked>, entries: map<Hex32, Entry>, k: string,
                    before: Option<Entry>): Option<Entry> {
    match LastFor(ids, walked, entries, k)
    case Some(id) => Some(entries[id])
    case None => before
  }

  /** The replay changes fulltext alone, and of each document to that of its last row. */
  lemma {:induction false} ReplayedIs(ix: Index, ids: seq<Hex32>, walked: map<Hex32, Walked>, entries: map<Hex32,
                                      Entry>)
    ensures var t := Replayed(ix, ids, walked, entries);
            && t.loose == ix.loose && t.docs.Keys == ix.docs.Keys
            && forall k :: k in ix.docs ==>
                 && t.docs[k].meta == ix.docs[k].meta
                 && (k != "" ==> t.docs[k].content == Fulltext(ids, walked, entries, k, ix.docs[k].content))
    decreases |ids|
  {
    hide DocIdOf;
    if ids != [] {
      ReplayedIs(ix, ids[..|ids| - 1], walked, entries);
    }
  }

  lemma {:induction false} LastIsGreatest(ids: seq<Hex32>, walked: map<Hex32, Walked>, entries: map<Hex32, Entry>,
                                          k: string)
    requires Ascending(ReplayOrder(walked), ids)
    ensures match LastFor(ids, walked, entries, k)
            case Some(last) =>
              && last in ids && DocIdOf(walked, last) == k
              && forall id :: id in ids && DocIdOf(walked, id) == k && id in entries ==>
                   id == last || Before(walked, id, last)
            case None => forall id :: id in ids && id in entries ==> DocIdOf(walked, id) != k
    decreases |ids|
  {
    hide DocIdOf, Before;
    if ids != [] {
      var init, last := ids[..|ids| - 1], ids[|ids| - 1];
      assert ids == init + [last];
      assert Ascending(ReplayOrder(walked), init);
      LastIsGreatest(init, walked, entries, k);
      forall id | id in init ensures Before(walked, id, last) {
        var i :| 0 <= i < |init| && init[i] == id;
        assert ReplayOrder(walked)(ids[i], ids[|ids| - 1]);
      }
    }
  }

  // ----- Both passes together -----

  predicate HasRow(ev: Event, k: string, entries: map<Hex32, Entry>) {
    TsDocId(ev) == Some(k) && ev.id in entries
  }

  /** The newest version of the document that has a row gives the fulltext. */
  ghost predicate FulltextFits(content: Option<Entry>, k: string, evs: seq<Event>, entries: map<Hex32, Entry>) {
    match content
    case None => forall ev :: ev in evs ==> !HasRow(ev, k, entries)
    case Some(entry) => exists ev :: ev in evs && GivesFulltext(ev, entry, k, evs, entries)
  }

  ghost predicate GivesFulltext(ev: Event, entry: Entry, k: string, evs: seq<Event>, entries: map<Hex32, Entry>) {
    && HasRow(ev, k, entries) && entries[ev.id] == entry
    && forall other :: other in evs && HasRow(other, k, entries) ==> other == ev || Newer(ev, other)
  }

  /** evs: what the gate let through; entries: the rows whose patch succeeds; lost: the ids whose upsert fails. */
  ghost predicate EndState(ix: Index, evs: seq<Event>, entries: map<Hex32, Entry>, lost: set<Hex32>) {
    && (forall ev :: ev in ix.loose <==> ev in evs && AmbDedupKey(ev).None? && ev.id !in lost)
    && (forall k :: k in ix.docs ==> MetadataFits(ix.docs[k].meta, k, evs, lost))
    && (forall ev :: ev in evs && AmbDedupKey(ev).Some? ==>
          AmbDedupKey(ev).value in ix.docs || NewestLost(AmbDedupKey, AmbDedupKey(ev).value, evs, lost))
    && (forall k :: k in ix.docs ==> FulltextFits(ix.docs[k].content, k, evs, entries))
  }

  /** The newest version of the document; an older one only if the newest was lost. */
  ghost predicate MetadataFits(meta: Event, k: string, evs: seq<Event>, lost: set<Hex32>) {
    && meta in evs && AmbDedupKey(meta) == Some(k) && meta.id !in lost
    && (IsNewest(meta, AmbDedupKey, evs) || NewestLost(AmbDedupKey, k, evs, lost))
  }

  lemma WalkEndState(ix: Index, evs: seq<Event>, lost: set<Hex32>)
    requires Projects(ix, AmbDedupKey, evs, lost) && DistinctIds(evs)
    ensures forall k :: k in ix.docs ==> ix.docs[k].content == None && MetadataFits(ix.docs[k].meta, k, evs, lost)
    ensures forall ev :: ev in evs && AmbDedupKey(ev).Some? ==>
              AmbDedupKey(ev).value in ix.docs || NewestLost(AmbDedupKey, AmbDedupKey(ev).value, evs, lost)
  {
    hide Best, Landed, AmbDedupKey, IsNewest;
    forall k | k in ix.docs ensures MetadataFits(ix.docs[k].meta, k, evs, lost) {
      BestIsNewest(AmbDedupKey, evs, k);
      LandedIs(AmbDedupKey, evs, lost, k);
    }
    forall ev | ev in evs && AmbDedupKey(ev).Some?
      ensures AmbDedupKey(ev).value in ix.docs || NewestLost(AmbDedupKey, AmbDedupKey(ev).value, evs, lost)
    {
      BestIsNewest(AmbDedupKey, evs, AmbDedupKey(ev).value);
      LandedIs(AmbDedupKey, evs, lost, AmbDedupKey(ev).value);
    }
  }

  /** The row order is the version order. */
  lemma BeforeIsOlder(walked: map<Hex32, Walked>, evs: seq<Event>, a: Event, b: Event)
    requires Remembers(walked, evs) && DistinctIds(evs) && a in evs && b in evs
    ensures Before(walked, a.id, b.id) <==> Newer(b, a)
  {
    hide Less, TsDocId;
    WalkedIs(walked, evs, a);
    WalkedIs(walked, evs, b);
  }

  lemma WalkedIs(walked: map<Hex32, Walked>, evs: seq<Event>, ev: Event)
    requires Remembers(walked, evs) && DistinctIds(evs) && ev in evs
    ensures ev.id in walked && walked[ev.id] == RecordWalked(ev)
  {
    hide RecordWalked;
    var other :| other in evs && other.id == ev.id && walked[ev.id] == RecordWalked(other);
    assert other == ev;
  }

  lemma DocIdNotEmpty(ev: Event)
    ensures TsDocId(ev).Some? ==> TsDocId(ev).value != ""
    ensures RecordWalked(ev).docId == (if TsDocId(ev).Some? then TsDocId(ev).value else "")
  {
  }

  lemma RowIs(walked: map<Hex32, Walked>, evs: seq<Event>, ev: Event, k: string)
    requires Remembers(walked, evs) && DistinctIds(evs) && ev in evs && k != ""
    ensures ev.id in walked && (DocIdOf(walked, ev.id) == k <==> TsDocId(ev) == Some(k))
  {
    hide RecordWalked, TsDocId;
    WalkedIs(walked, evs, ev);
    DocIdNotEmpty(ev);
  }

  /** ids: the stored rows of walked events. */
  ghost predicate LiveRows(ids: seq<Hex32>, walked: map<Hex32, Walked>, entries: map<Hex32, Entry>) {
    NoDup(ids) && forall id :: id in ids <==> id in entries && id in walked
  }

  lemma LastFits(ids: seq<Hex32>, walked: map<Hex32, Walked>, entries: map<Hex32, Entry>, evs: seq<Event>, k: string)
    requires Ascending(ReplayOrder(walked), ids) && (forall id :: id in entries && id in walked ==> id in ids)
    requires (forall id :: id in ids ==> id in walked) && Remembers(walked, evs) && DistinctIds(evs) && k != ""
    ensures FulltextFits(Fulltext(ids, walked, entries, k, None), k, evs, entries)
  {
    hide Before, ReplayOrder, LastFor, TsDocId, RecordWalked, Newer, DocIdOf;
    LastIsGreatest(ids, walked, entries, k);
    forall ev | ev in evs ensures ev.id in walked && (DocIdOf(walked, ev.id) == k <==> TsDocId(ev) == Some(k)) {
      RowIs(walked, evs, ev, k);
    }
    match LastFor(ids, walked, entries, k)
    case None =>
    case Some(id) =>
      var ev :| ev in evs && ev.id == id;
      forall other | other in evs && HasRow(other, k, entries) ensures other == ev || Newer(ev, other) {
        BeforeIsOlder(walked, evs, other, ev);
        assert other.id in ids;
      }
      assert GivesFulltext(ev, entries[id], k, evs, entries);
  }

  lemma ReplayEndState(ix: Index, ids: seq<Hex32>, walked: map<Hex32, Walked>, entries: map<Hex32, Entry>,
                       failing: set<Hex32>,
                       evs: seq<Event>, lost: set<Hex32>)
    requires Projects(ix, AmbDedupKey, evs, lost) && DistinctIds(evs) && Remembers(walked, evs)
    requires LiveRows(ids, walked, entries) && Ascending(ReplayOrder(walked), ids)
    ensures EndState(Replayed(ix, ids, walked, entries - failing), evs, entries - failing, lost)
  {
    hide Landed, AmbDedupKey, MetadataFits, NewestLost, ReplayOrder, Remembers, Replayed, LastFor, FulltextFits,
        DistinctIds, Ascending;
    var t := Replayed(ix, ids, walked, entries - failing);
    WalkEndState(ix, evs, lost);
    ReplayedIs(ix, ids, walked, entries - failing);
    forall k | k in t.docs ensures FulltextFits(t.docs[k].content, k, evs, entries - failing) {
      MetadataKey(ix.docs[k].meta, k, evs, lost);
      LastFits(ids, walked, entries - failing, evs, k);
    }
  }

  lemma MetadataKey(meta: Event, k: string, evs: seq<Event>, lost: set<Hex32>)
    requires MetadataFits(meta, k, evs, lost)
    ensures k != ""
  {
    KeyNotEmpty(meta);
  }

  lemma KeyNotEmpty(ev: Event)
    ensures AmbDedupKey(ev).Some? ==> AmbDedupKey(ev).value != ""
  {
  }

  /** Gathers the stored rows whose event was walked. */
  method GatherLive(stored: seq<Hex32>, walked: map<Hex32, Walked>) returns (live: seq<Hex32>)
    requires NoDup(stored)
    ensures NoDup(live) && forall id :: id in live <==> id in stored && id in walked
  {
    live := [];
    for i := 0 to |stored|
      invariant NoDup(live) && forall id :: id in live <==> id in stored[..i] && id in walked
    {
      assert stored[..i + 1] == stored[..i] + [stored[i]];
      if stored[i] in walked { live := live + [stored[i]]; }
    }
    assert stored[..|stored|] == stored;
  }

  /** The rows left when those in seen were looked at. */
  function Unorphaned(entries: map<Hex32, Entry>, seen: set<Hex32>, spared: set<Hex32>): map<Hex32, Entry> {
    map id | id in entries && (id !in seen || id in spared) :: entries[id]
  }

  lemma OrphanStep(entries: map<Hex32, Entry>, seen: set<Hex32>, x: Hex32, spared: set<Hex32>)
    requires x in entries && x !in seen
    ensures var kept := Unorphaned(entries, seen, spared);
            && Unorphaned(entries, seen + {x}, spared) == (if x in spared then kept else kept - {x})
            && |kept - {x}| + 1 == |kept|
  {
    var kept := Unorphaned(entries, seen, spared);
    assert (kept - {x}).Keys == kept.Keys - {x};
  }

  /** classifyOrphans and the deletions that follow: rows of no event that was walked and of none in Bolt. */
  method DropOrphans(stored: seq<Hex32>, walked: map<Hex32, Walked>, inBolt: set<Hex32>, undeletable: set<Hex32>,
                     entries: map<Hex32, Entry>)
    returns (kept: map<Hex32, Entry>, orphaned: nat)
    requires NoDup(stored) && Elems(stored) == entries.Keys
    ensures kept == map id | id in entries && (id in walked || id in inBolt || id in undeletable) :: entries[id]
    ensures |kept| + orphaned == |entries|
  {
    hide Unorphaned, Elems, NoDup;
    kept, orphaned := entries, 0;
    ghost var spared := walked.Keys + inBolt + undeletable;
    NoneSeen(entries, stored, spared);
    for i := 0 to |stored|
      invariant kept == Unorphaned(entries, Elems(stored[..i]), spared) && |kept| + orphaned == |entries|
    {
      NextElem(stored, i);
      OrphanStep(entries, Elems(stored[..i]), stored[i], spared);
      if stored[i] in walked || stored[i] in inBolt || stored[i] in undeletable { continue; }
      kept := kept - {stored[i]};
      orphaned := orphaned + 1;
    }
    assert stored[..|stored|] == stored;
    AllSeen(entries, walked, inBolt, undeletable);
  }

  lemma NextElem(s: seq<Hex32>, i: nat)
    requires i < |s| && NoDup(s)
    ensures s[i] in Elems(s) && s[i] !in Elems(s[..i]) && Elems(s[..i + 1]) == Elems(s[..i]) + {s[i]}
  {
    assert s[..i + 1] == s[..i] + [s[i]];
  }

  lemma NoneSeen(entries: map<Hex32, Entry>, stored: seq<Hex32>, spared: set<Hex32>)
    ensures Unorphaned(entries, Elems(stored[..0]), spared) == entries
  {
  }

  lemma AllSeen(entries: map<Hex32, Entry>, walked: map<Hex32, Walked>, inBolt: set<Hex32>, undeletable: set<Hex32>)
    ensures Unorphaned(entries, entries.Keys, walked.Keys + inBolt + undeletable) ==
            map id | id in entries && (id in walked || id in inBolt || id in undeletable) :: entries[id]
  {
  }

  /**
   The AMB part of run(): stored lists the ids of the content rows in the order of the store, which is any order;
   inBolt are the ids of all events in Bolt, walked or not. The gate may change while the walk goes on, the
   upserts of the ids in lost, the patches of the rows in failing and the deletes of the rows in undeletable fail.
   Of the rows, those of events that were not walked and are not in Bolt are deleted, where that works, and counted.
   */
  method Run(evs: seq<Event>, gates: nat -> Gate, lost: set<Hex32>, stored: seq<Hex32>, inBolt: set<Hex32>,
             undeletable: set<Hex32>, entries: map<Hex32, Entry>, failing: set<Hex32>, coll: Collection)
    returns (kept: map<Hex32, Entry>, orphaned: nat)
    requires DistinctIds(Admitted(evs, gates)) && NoDup(stored) && Elems(stored) == entries.Keys
    requires coll.index == EMPTY
    modifies coll
    ensures EndState(coll.index, Admitted(evs, gates), entries - failing, lost)
    ensures forall id :: id in kept <==>
              id in entries &&
              (id in inBolt || id in undeletable || exists ev :: ev in Admitted(evs, gates) && ev.id == id)
    ensures (forall id :: id in kept ==> kept[id] == entries[id]) && |kept| + orphaned == |entries|
  {
    hide Admitted, EndState, Replayed, Projects, Remembers, ReplayOrder, Ascending, DistinctIds;
    var walked, counts := WalkAmb(evs, gates, lost, coll);
    ghost var ix := coll.index;
    WalkedIds(walked, Admitted(evs, gates));
    var live := GatherLive(stored, walked);
    assert forall id :: id in stored <==> id in Elems(stored);
    kept, orphaned := DropOrphans(stored, walked, inBolt, undeletable, entries);
    var rows := new Hex32[|live|](i requires 0 <= i < |live| => live[i]);
    assert rows[..] == live;
    var patched, errs := ReplayContent(rows, entries, failing, walked, coll);
    SortedLive(live, rows[..], walked, entries);
    ReplayEndState(ix, rows[..], walked, entries, failing, Admitted(evs, gates), lost);
  }

  lemma WalkedIds(walked: map<Hex32, Walked>, evs: seq<Event>)
    requires Remembers(walked, evs)
    ensures forall id :: id in walked <==> exists ev :: ev in evs && ev.id == id
  {
    hide RecordWalked;
  }

  lemma SortedLive(live: seq<Hex32>, sorted: seq<Hex32>, walked: map<Hex32, Walked>, entries: map<Hex32, Entry>)
    requires LiveRows(live, walked, entries) && Elems(sorted) == Elems(live) && Ascending(ReplayOrder(walked), sorted)
    ensures LiveRows(sorted, walked, entries)
  {
    hide ReplayOrder;
    ReplayOrderIsStrict(walked);
    AscendingNoDup(ReplayOrder(walked), sorted);
    assert forall id :: id in sorted <==> id in Elems(sorted);
    assert forall id :: id in live <==> id in Elems(live);
  }

  /** The version that gives the metadata gives the fulltext too, if it has a row and no newer one was lost. */
  lemma MetadataAndFulltextAgree(ix: Index, evs: seq<Event>, entries: map<Hex32, Entry>, lost: set<Hex32>, k: string)
    requires EndState(ix, evs, entries, lost) && k in ix.docs && HasRow(ix.docs[k].meta, k, entries)
    requires !NewestLost(AmbDedupKey, k, evs, lost)
    ensures ix.docs[k].content == Some(entries[ix.docs[k].meta.id])
  {
    hide Newer, TsDocId, AmbDedupKey;
    var v := ix.docs[k].meta;
    assert MetadataFits(v, k, evs, lost) && FulltextFits(ix.docs[k].content, k, evs, entries);
    if ix.docs[k].content.Some? {
      var ev :| ev in evs && GivesFulltext(ev, ix.docs[k].content.value, k, evs, entries);
      KeysAgree(ev, k);
      NewerConnected(ev, v);
    }
  }

  lemma KeysAgree(ev: Event, k: string)
    requires TsDocId(ev) == Some(k)
    ensures AmbDedupKey(ev) == Some(k)
  {
  }

  lemma FulltextUnique(a: Option<Entry>, b: Option<Entry>, k: string, evs: seq<Event>, fvs: seq<Event>,
                       entries: map<Hex32, Entry>)
    requires FulltextFits(a, k, evs, entries) && FulltextFits(b, k, fvs, entries) && Elems(evs) == Elems(fvs)
    ensures a == b
  {
    hide Newer, HasRow;
    assert forall ev :: ev in evs <==> ev in Elems(evs);
    assert forall ev :: ev in fvs <==> ev in Elems(fvs);
    if a.Some? && b.Some? {
      var x :| x in evs && GivesFulltext(x, a.value, k, evs, entries);
      var y :| y in fvs && GivesFulltext(y, b.value, k, fvs, entries);
      NewerConnected(x, y);
    }
  }

  /** The same events in any order, with the rows in any order, end in the same index if no newest version is lost. */
  lemma EndStateUnique(ix: Index, evs: seq<Event>, iy: Index, fvs: seq<Event>, entries: map<Hex32, Entry>,
                       lost: set<Hex32>)
    requires EndState(ix, evs, entries, lost) && EndState(iy, fvs, entries, lost) && Elems(evs) == Elems(fvs)
    requires forall k :: !NewestLost(AmbDedupKey, k, evs, lost) && !NewestLost(AmbDedupKey, k, fvs, lost)
    ensures ix == iy
  {
    hide Newer, AmbDedupKey, FulltextFits, NewestLost;
    assert forall ev :: ev in evs <==> ev in Elems(evs);
    assert forall ev :: ev in fvs <==> ev in Elems(fvs);
    assert ix.loose == iy.loose;
    assert ix.docs.Keys == iy.docs.Keys;
    forall k | k in ix.docs ensures ix.docs[k] == iy.docs[k] {
      NewerConnected(ix.docs[k].meta, iy.docs[k].meta);
      FulltextUnique(ix.docs[k].content, iy.docs[k].content, k, evs, fvs, entries);
    }
    assert ix.docs == iy.docs;
  }
}
