/** Removing events from every store (purge.go): bans, author deletions, and deletions by coordinate. */
module Purge {
  import opened Wrappers
  import opened Sequences
  import opened Text
  import opened Nostr
  import opened Gate

  const BOLT_LIMIT := 1000
  const INDEX_LIMIT := 250

  /**
   The kinds of each registered content type, every one with a search collection of its own; Bolt rows by id, ids with
   stored fulltext, the events search documents stand for, and the deletes queued behind the index buffer.
   */
  datatype Stores = Stores(types: seq<set<Kind>>, rows: map<Hex32, Event>, content: set<Hex32>, docs: set<Event>,
                           queued: seq<Hex32>)

  /**
   Which calls fail: writing a tombstone or a deleted mark, deleting in Bolt, deleting an id in the search collection
   of one type.
   */
  datatype Faults = Faults(tombstone: set<string>, mark: set<Hex32>, bolt: set<Hex32>, index: set<(nat, Hex32)>)

  /** byKind: the last type that lists the kind. */
  function Home(types: seq<set<Kind>>, kind: Kind): Option<nat> {
    if types == [] then None
    else if kind in types[|types| - 1] then Some(|types| - 1)
    else Home(types[..|types| - 1], kind)
  }

  predicate LivesIn(types: seq<set<Kind>>, d: Event, i: nat) {
    Home(types, d.kind) == Some(i)
  }

  /** A delete leaves the document where its own collection fails, whatever the others do. */
  predicate Undeletable(types: seq<set<Kind>>, d: Event, f: Faults) {
    match Home(types, d.kind)
    case Some(i) => (i, d.id) in f.index
    case None => true
  }

  /** A document after the first i collections were tried. */
  predicate LeftBefore(types: seq<set<Kind>>, d: Event, id: Hex32, f: Faults, i: nat) {
    d.id != id || Undeletable(types, d, f) || Home(types, d.kind).value >= i
  }

  lemma HomeInRange(types: seq<set<Kind>>, kind: Kind)
    ensures Home(types, kind).Some? ==> Home(types, kind).value < |types|
  {
  }

  lemma IndexDeletesMore(types: seq<set<Kind>>, a: set<Hex32>, b: set<Hex32>, f: Faults)
    ensures IndexDeletes(types, a + b, f) <==> IndexDeletes(types, a, f) && IndexDeletes(types, b, f)
    ensures forall id :: IndexDeletes(types, {id}, f) <==> !PurgeFails(types, id, f)
  {
  }

  lemma NoneToDelete(types: seq<set<Kind>>, f: Faults)
    ensures IndexDeletes(types, {}, f)
  {
  }

  /** No collection fails to delete any of these. */
  ghost predicate IndexDeletes(types: seq<set<Kind>>, ids: set<Hex32>, f: Faults) {
    forall i: nat, id :: i < |types| && id in ids ==> (i, id) !in f.index
  }

  /** One purge. A failed delete in Bolt is logged only; a failed delete in the index is returned. */
  function PurgeOne(s: Stores, id: Hex32, f: Faults): Stores {
    Stores(s.types, if id in f.bolt then s.rows else s.rows - {id}, s.content - {id},
           (set d | d in s.docs && (d.id != id || Undeletable(s.types, d, f))), s.queued + [id])
  }

  predicate PurgeFails(types: seq<set<Kind>>, id: Hex32, f: Faults) {
    exists i :: 0 <= i < |types| && (i, id) in f.index
  }

  /** What the lookups of a coordinate deletion select: the filter, and the check that follows it. */
  predicate Selected(c: Coord, del: Event, ev: Event) {
    && ev.kind == c.kind && ev.pubkey == c.pubkey && ev.createdAt <= del.createdAt
    && (IsAddressable(c.kind) ==> HasD(ev, c.d) && GetD(ev) == c.d)
  }

  /** The d filter: some d tag of the event has this value. An event without d tags never passes it. */
  predicate HasD(ev: Event, d: string) {
    exists tag :: tag in ev.tags && |tag| >= 2 && tag[0] == "d" && tag[1] == d
  }

  /** Any limit of the matching events, in any order; all of them when there are not more. */
  ghost predicate Answers(found: seq<Event>, matching: set<Event>, limit: nat) {
    NoDup(found) && Elems(found) <= matching && (|matching| <= limit ==> Elems(found) == matching)
  }

  ghost function RowsSelected(s: Stores, c: Coord, del: Event): set<Event> {
    set id | id in s.rows && Selected(c, del, s.rows[id]) :: s.rows[id]
  }

  ghost function DocsSelected(s: Stores, c: Coord, del: Event): set<Event> {
    set d | d in s.docs && Selected(c, del, d)
  }

  class EventPurger {
    const mgmt: ManagementStore
    var stores: Stores
    /** The hook around an author deletion: of which events it reads a share's target, and for which it was called. */
    const isShare: Event -> bool
    var restamped: seq<Event>

    constructor (mgmt: ManagementStore, stores: Stores, isShare: Event -> bool)
      ensures this.mgmt == mgmt && this.stores == stores && this.isShare == isShare && restamped == []
    {
      this.mgmt, this.isShare := mgmt, isShare;
      this.stores, restamped := stores, [];
    }

    method Purge(id: Hex32, f: Faults) returns (failed: bool)
      modifies this`stores
      ensures stores == PurgeOne(old(stores), id, f)
      ensures failed <==> PurgeFails(stores.types, id, f)
    {
      if id !in f.bolt {
        stores := stores.(rows := stores.rows - {id});
      }
      stores := stores.(content := stores.content - {id});
      failed := DeleteEverywhere(id, f);
      stores := stores.(queued := stores.queued + [id]);
    }

    /** The id carries no kind, so every collection is tried, also after one failed. */
    method DeleteEverywhere(id: Hex32, f: Faults) returns (failed: bool)
      modifies this`stores
      ensures stores == old(stores).(docs := set d | d in old(stores).docs &&
                                       (d.id != id || Undeletable(stores.types, d, f)))
      ensures failed <==> PurgeFails(stores.types, id, f)
    {
      hide Home;
      ghost var was := stores;
      failed := false;
      for i := 0 to |stores.types|
        invariant stores == was.(docs := stores.docs)
        invariant forall d :: d in stores.docs <==> d in was.docs && LeftBefore(was.types, d, id, f, i)
        invariant failed <==> exists j :: 0 <= j < i && (j, id) in f.index
      {
        if (i, id) in f.index {
          failed := true;
        } else {
          stores := stores.(docs := set d | d in stores.docs && !(d.id == id && LivesIn(stores.types, d, i)));
        }
      }
      forall d | d in was.docs
        ensures LeftBefore(was.types, d, id, f, |was.types|) <==> d.id != id || Undeletable(was.types, d, f)
      {
        HomeInRange(was.types, d.kind);
      }
    }

    /**
     The id is marked deleted before anything is removed. The hook reads the row before and acts after the purge, also
     after one that failed.
     */
    method AuthorDelete(id: Hex32, f: Faults) returns (failed: bool)
      requires this as object != mgmt
      modifies this, mgmt`deletedEvents
      ensures stores == PurgeOne(old(stores), id, f)
      ensures mgmt.View() ==
              old(mgmt.View()).(deletedIds := old(mgmt.View()).deletedIds + if id in f.mark then {} else {id})
      ensures failed <==> PurgeFails(stores.types, id, f)
      ensures restamped == old(restamped) + if id in old(stores).rows && isShare(old(stores).rows[id])
                                            then [old(stores).rows[id]] else []
    {
      var shares := if id in stores.rows && isShare(stores.rows[id]) then [stores.rows[id]] else [];
      if id !in f.mark {
        mgmt.MarkEventDeleted(id);
      }
      failed := Purge(id, f);
      restamped := restamped + shares;
    }

    /** The ban is recorded before anything is removed; when it cannot be recorded nothing is removed. */
    method Ban(id: Hex32, f: Faults) returns (failed: bool)
      requires this as object != mgmt
      modifies this`stores, mgmt`bannedEvents
      ensures id in f.mark ==> failed && stores == old(stores) && mgmt.View() == old(mgmt.View())
      ensures id !in f.mark ==> stores == PurgeOne(old(stores), id, f)
      ensures id !in f.mark ==> (failed <==> PurgeFails(stores.types, id, f))
      ensures id !in f.mark ==> mgmt.View() == old(mgmt.View()).(bannedIds := old(mgmt.View()).bannedIds + {id})
    {
      if id in f.mark { return true; }
      mgmt.BanEvent(id);
      failed := Purge(id, f);
    }

    /** Looks up Bolt rows; ranges over them in some order. */
    method QueryRows(c: Coord, del: Event) returns (found: seq<Event>)
      ensures Answers(found, RowsSelected(stores, c, del), BOLT_LIMIT)
    {
      found := TakeSome((set id | id in stores.rows && Selected(c, del, stores.rows[id]) :: stores.rows[id]),
                        BOLT_LIMIT);
    }

    method FetchDocs(c: Coord, del: Event) returns (found: seq<Event>)
      ensures Answers(found, DocsSelected(stores, c, del), INDEX_LIMIT)
    {
      found := TakeSome((set d | d in stores.docs && Selected(c, del, d)), INDEX_LIMIT);
    }

    static method TakeSome(all: set<Event>, limit: nat) returns (found: seq<Event>)
      ensures Answers(found, all, limit)
    {
      found := [];
      var rest := all;
      while rest != {} && |found| < limit
        invariant rest <= all && Elems(found) == all - rest && NoDup(found)
        invariant |found| + |rest| == |all|
        decreases rest
      {
        var ev :| ev in rest;
        ElemsConcat(found, [ev]);
        assert forall e :: e in found ==> e in Elems(found);
        found := found + [ev];
        rest := rest - {ev};
      }
    }

    /**
     The 'a' tags of a stored deletion request. done(i) tells whether the context is over before coordinate i.
     attempted are the ids it tried to purge.
     */
    method ApplyCoordDeletions(del: Event, f: Faults, done: nat -> bool)
      returns (tombstoned: nat, purged: nat, errs: nat, ghost processed: nat, ghost attempted: set<Hex32>)
      requires this as object != mgmt && WellKept(stores)
      modifies this, mgmt`deletedEvents, mgmt`deletedCoords
      ensures processed <= |CoordsOf(del)| && (processed < |CoordsOf(del)| ==> done(processed))
      ensures mgmt.View() == Recorded(old(mgmt.View()), CoordsOf(del)[..processed], del.createdAt, attempted, f)
      ensures IsAttempt(old(stores), stores, attempted, f)
      ensures attempted <= Hits(old(stores), CoordsOf(del)[..processed], del)
      ensures WithinLimits(old(stores), CoordsOf(del), del) ==>
                attempted == Hits(old(stores), CoordsOf(del)[..processed], del)
      ensures errs == 0 <==> IndexDeletes(stores.types, attempted, f) && forall c :: c in CoordsOf(del)[..processed] ==>
                CoordString(c) !in f.tombstone
    {
      hide Progress, Recorded, IsAttempt, Hits, WithinLimits, CoordString, SameAuthorCoords, RowsSelected,
          DocsSelected, ManagementStore.View;
      tombstoned, purged, errs, processed, attempted := 0, 0, 0, 0, {};
      NothingYet(mgmt.View(), stores, del, f);
      if del.kind != KIND_DELETION {
        ProgressMeans(old(mgmt.View()), old(stores), mgmt.View(), stores, [], CoordsOf(del), del, attempted, true, f);
        return;
      }
      var coords := ComputeSameAuthorCoords(del);
      assert coords[..0] == [];
      for i := 0 to |coords|
        invariant processed == i && WellKept(stores)
        invariant Progress(old(mgmt.View()), old(stores), mgmt.View(), stores, coords[..i], coords, del, attempted,
                           errs == 0, f)
      {
        if done(i) { break; }
        ghost var g, s, tried := mgmt.View(), stores, attempted;
        var t, p, e;
        ghost var found;
        t, p, e, found := ApplyOne(coords[i], del, f);
        OneMore(old(mgmt.View()), old(stores), g, s, mgmt.View(), stores, coords[..i], coords, coords[i], del, tried,
                found, errs == 0, e == 0, f);
        assert coords[..i + 1] == coords[..i] + [coords[i]];
        tombstoned, purged, errs := tombstoned + t, purged + p, errs + e;
        attempted := attempted + found;
        processed := i + 1;
      }
      assert coords[..processed] == CoordsOf(del)[..processed];
      ProgressMeans(old(mgmt.View()), old(stores), mgmt.View(), stores, coords[..processed], coords, del, attempted,
                    errs == 0, f);
    }

    /** One coordinate: its tombstone first, then every version that is found. */
    method ApplyOne(c: Coord, del: Event, f: Faults)
      returns (tombstoned: nat, purged: nat, errs: nat, ghost found: set<Hex32>)
      requires this as object != mgmt && WellKept(stores)
      modifies this, mgmt`deletedEvents, mgmt`deletedCoords
      ensures mgmt.View() == Recorded(old(mgmt.View()), [c], del.createdAt, found, f)
      ensures IsAttempt(old(stores), stores, found, f) && stores.types == old(stores.types)
      ensures found <= Hits(old(stores), [c], del)
      ensures |RowsSelected(old(stores), c, del)| <= BOLT_LIMIT ==>
                |DocsSelected(old(stores), c, del)| <= INDEX_LIMIT ==> found == Hits(old(stores), [c], del)
      ensures errs == 0 <==> IndexDeletes(stores.types, found, f) && CoordString(c) !in f.tombstone
    {
      hide CoordString, Selected, IsAttempt, Hits;
      tombstoned, purged, errs := 0, 0, 0;
      if CoordString(c) in f.tombstone {
        errs := errs + 1;
      } else {
        mgmt.MarkCoordDeleted(CoordString(c), del.createdAt);
        tombstoned := 1;
      }
      var ids := CollectTargets(c, del);
      found := Elems(ids);
      var e;
      purged, e := DeleteTargets(ids, f);
      errs := errs + e;
      MarkSomeAppend(old(mgmt.View()), [], c, del.createdAt, f);
      assert [] + [c] == [c];
    }

    /** The ids of what Bolt and the index find, each once. */
    method CollectTargets(c: Coord, del: Event) returns (ids: seq<Hex32>)
      requires WellKept(stores)
      ensures NoDup(ids)
      ensures Elems(ids) <= Hits(stores, [c], del)
      ensures |RowsSelected(stores, c, del)| <= BOLT_LIMIT && |DocsSelected(stores, c, del)| <= INDEX_LIMIT ==>
                Elems(ids) == Hits(stores, [c], del)
    {
      hide Selected;
      var rows := QueryRows(c, del);
      var docs := FetchDocs(c, del);
      ids := IdsOf([], rows);
      ids := IdsOf(ids, docs);
      assert forall e :: e in rows <==> e in Elems(rows);
      assert forall e :: e in docs <==> e in Elems(docs);
      HitsOfOne(stores, c, del);
    }

    static method IdsOf(ids: seq<Hex32>, evs: seq<Event>) returns (more: seq<Hex32>)
      requires NoDup(ids)
      ensures NoDup(more)
      ensures Elems(more) == Elems(ids) + set e | e in evs :: e.id
    {
      more := ids;
      for i := 0 to |evs|
        invariant NoDup(more)
        invariant Elems(more) == Elems(ids) + set e | e in evs[..i] :: e.id
      {
        assert evs[..i + 1] == evs[..i] + [evs[i]];
        ElemsConcat(more, [evs[i].id]);
        if evs[i].id !in more {
          more := more + [evs[i].id];
        }
      }
      assert evs[..|evs|] == evs;
    }

    method DeleteTargets(ids: seq<Hex32>, f: Faults) returns (purged: nat, errs: nat)
      requires this as object != mgmt
      modifies this, mgmt`deletedEvents
      ensures IsAttempt(old(stores), stores, Elems(ids), f) && stores.types == old(stores.types)
      ensures mgmt.View() == old(mgmt.View()).(deletedIds := old(mgmt.View()).deletedIds + (Elems(ids) - f.mark))
      ensures errs == 0 <==> IndexDeletes(stores.types, Elems(ids), f)
    {
      hide IsAttempt, PurgeOne, PurgeFails, IndexDeletes;
      purged, errs := 0, 0;
      AttemptNothing(stores, f);
      assert Elems(ids[..0]) == {} && IndexDeletes(stores.types, {}, f) by { NoneToDelete(stores.types, f); }
      for i := 0 to |ids|
        invariant IsAttempt(old(stores), stores, Elems(ids[..i]), f) && stores.types == old(stores.types)
        invariant mgmt.View() ==
                  old(mgmt.View()).(deletedIds := old(mgmt.View()).deletedIds + (Elems(ids[..i]) - f.mark))
        invariant errs == 0 <==> IndexDeletes(stores.types, Elems(ids[..i]), f)
      {
        assert ids[..i + 1] == ids[..i] + [ids[i]];
        ElemsConcat(ids[..i], [ids[i]]);
        assert Elems([ids[i]]) == {ids[i]};
        ghost var before := stores;
        var failed := AuthorDelete(ids[i], f);
        AttemptOne(old(stores), before, stores, Elems(ids[..i]), ids[i], f);
        AttemptKeepsTypes(old(stores), stores, Elems(ids[..i]) + {ids[i]}, f);
        IndexDeletesMore(stores.types, Elems(ids[..i]), {ids[i]}, f);
        if failed {
          errs := errs + 1;
        } else {
          purged := purged + 1;
        }
      }
      assert ids[..|ids|] == ids;
    }
  }

  /** Rows are kept under their own id, documents in the collection of their kind. */
  ghost predicate WellKept(s: Stores) {
    && (forall id :: id in s.rows ==> s.rows[id].id == id)
    && (forall d :: d in s.docs ==> Home(s.types, d.kind).Some?)
  }

  function CoordsOf(del: Event): seq<Coord> {
    if del.kind != KIND_DELETION then [] else SameAuthorCoords(del.pubkey, del.tags)
  }

  /** The tombstones that could be written. */
  function MarkSome(g: Gate, coords: seq<Coord>, until: int, f: Faults): Gate {
    if coords == [] then g
    else
      var before, last := MarkSome(g, coords[..|coords| - 1], until, f), CoordString(coords[|coords| - 1]);
      if last in f.tombstone then before else before.MarkCoord(last, until)
  }

  /** The tombstones of coords, and the deleted marks of ids, that could be written. */
  function Recorded(g: Gate, coords: seq<Coord>, until: int, ids: set<Hex32>, f: Faults): Gate {
    var marked := MarkSome(g, coords, until, f);
    marked.(deletedIds := marked.deletedIds + (ids - f.mark))
  }

  lemma {:induction false} MarkSomeKeeps(g: Gate, coords: seq<Coord>, until: int, f: Faults, ids: set<Hex32>)
    ensures MarkSome(g, coords, until, f).deletedIds == g.deletedIds
    ensures MarkSome(g.(deletedIds := ids), coords, until, f) == MarkSome(g, coords, until, f).(deletedIds := ids)
    decreases |coords|
  {
    hide CoordString;
    if coords != [] {
      MarkSomeKeeps(g, coords[..|coords| - 1], until, f, ids);
    }
  }

  lemma RecordedMore(g: Gate, coords: seq<Coord>, c: Coord, until: int, a: set<Hex32>, b: set<Hex32>, f: Faults)
    ensures Recorded(Recorded(g, coords, until, a, f), [c], until, b, f) == Recorded(g, coords + [c], until, a + b, f)
  {
    hide CoordString, MarkSome;
    var marked := MarkSome(g, coords, until, f);
    MarkSomeKeeps(g, coords, until, f, {});
    MarkSomeKeeps(marked, [c], until, f, marked.deletedIds + (a - f.mark));
    MarkSomeAppend(g, coords, c, until, f);
    MarkSomeAppend(marked, [], c, until, f);
    MarkSomeNone(marked, until, f);
    assert [] + [c] == [c];
    assert marked.deletedIds + (a - f.mark) + (b - f.mark) == marked.deletedIds + (a + b - f.mark);
  }

  lemma MarkSomeNone(g: Gate, until: int, f: Faults)
    ensures MarkSome(g, [], until, f) == g
  {
  }

  /** What the coordinates of part have done to the gate g and the stores s; clean when nothing counted failed. */
  ghost predicate Progress(g: Gate, s: Stores, g': Gate, s': Stores, part: seq<Coord>, all: seq<Coord>, del: Event,
                           attempted: set<Hex32>, clean: bool, f: Faults) {
    && g' == Recorded(g, part, del.createdAt, attempted, f)
    && IsAttempt(s, s', attempted, f)
    && attempted <= Hits(s, part, del)
    && (WithinLimits(s, all, del) ==> attempted == Hits(s, part, del))
    && (clean <==> IndexDeletes(s.types, attempted, f) && forall c :: c in part ==> CoordString(c) !in f.tombstone)
  }

  lemma ProgressMeans(g: Gate, s: Stores, g': Gate, s': Stores, part: seq<Coord>, all: seq<Coord>, del: Event,
                      attempted: set<Hex32>, clean: bool, f: Faults)
    requires Progress(g, s, g', s', part, all, del, attempted, clean, f)
    ensures g' == Recorded(g, part, del.createdAt, attempted, f)
    ensures IsAttempt(s, s', attempted, f) && s'.types == s.types
    ensures attempted <= Hits(s, part, del)
    ensures WithinLimits(s, all, del) ==> attempted == Hits(s, part, del)
    ensures clean <==> IndexDeletes(s.types, attempted, f) && forall c :: c in part ==> CoordString(c) !in f.tombstone
  {
  }

  lemma NothingYet(g: Gate, s: Stores, del: Event, f: Faults)
    ensures Progress(g, s, g, s, [], CoordsOf(del), del, {}, true, f)
  {
    AttemptNothing(s, f);
  }

  lemma OneMore(g0: Gate, s0: Stores, g: Gate, s: Stores, g': Gate, s': Stores, part: seq<Coord>, all: seq<Coord>,
                c: Coord, del: Event,
                tried: set<Hex32>, found: set<Hex32>, clean: bool, clean': bool, f: Faults)
    requires WellKept(s0) && c in all && Progress(g0, s0, g, s, part, all, del, tried, clean, f)
    requires g' == Recorded(g, [c], del.createdAt, found, f)
    requires IsAttempt(s, s', found, f)
    requires found <= Hits(s, [c], del)
    requires |RowsSelected(s, c, del)| <= BOLT_LIMIT && |DocsSelected(s, c, del)| <= INDEX_LIMIT ==>
              found == Hits(s, [c], del)
    requires clean' <==> IndexDeletes(s.types, found, f) && CoordString(c) !in f.tombstone
    ensures Progress(g0, s0, g', s', part + [c], all, del, tried + found, clean && clean', f)
    ensures WellKept(s')
  {
    hide Recorded, IsAttempt, Hits, WithinLimits, RowsSelected, DocsSelected, CoordString, IndexDeletes;
    AttemptKeepsTypes(s0, s, tried, f);
    IndexDeletesMore(s0.types, tried, found, f);
    RecordedMore(g0, part, c, del.createdAt, tried, found, f);
    AttemptMore(s0, s, s', tried, found, f);
    AttemptKeepsIds(s0, s', tried + found, f);
    HitsStep(s0, s, part, all, c, del, tried, found, f);
  }

  lemma AttemptKeepsIds(before: Stores, after: Stores, ids: set<Hex32>, f: Faults)
    requires IsAttempt(before, after, ids, f) && WellKept(before)
    ensures WellKept(after)
  {
  }

  lemma MarkSomeAppend(g: Gate, coords: seq<Coord>, c: Coord, until: int, f: Faults)
    ensures MarkSome(g, coords + [c], until, f) ==
            if CoordString(c) in f.tombstone then MarkSome(g, coords, until, f)
            else MarkSome(g, coords, until, f).MarkCoord(CoordString(c), until)
  {
    var more := coords + [c];
    assert more[..|more| - 1] == coords;
  }

  /** after is before with these ids purged, where that did not fail. */
  ghost predicate IsAttempt(before: Stores, after: Stores, ids: set<Hex32>, f: Faults) {
    && after.rows == before.rows - (ids - f.bolt)
    && after.content == before.content - ids
    && after.types == before.types
    && after.docs == (set d | d in before.docs && (d.id !in ids || Undeletable(before.types, d, f)))
    && Elems(after.queued) == Elems(before.queued) + ids
  }

  lemma AttemptKeepsTypes(before: Stores, after: Stores, ids: set<Hex32>, f: Faults)
    requires IsAttempt(before, after, ids, f)
    ensures after.types == before.types
  {
  }

  lemma AttemptNothing(s: Stores, f: Faults)
    ensures IsAttempt(s, s, {}, f)
  {
  }

  lemma AttemptMore(s: Stores, mid: Stores, after: Stores, a: set<Hex32>, b: set<Hex32>, f: Faults)
    requires IsAttempt(s, mid, a, f) && IsAttempt(mid, after, b, f)
    ensures IsAttempt(s, after, a + b, f)
  {
    assert s.rows - (a - f.bolt) - (b - f.bolt) == s.rows - (a + b - f.bolt);
  }

  lemma AttemptOne(s: Stores, mid: Stores, after: Stores, a: set<Hex32>, id: Hex32, f: Faults)
    requires IsAttempt(s, mid, a, f) && after == PurgeOne(mid, id, f)
    ensures IsAttempt(s, after, a + {id}, f)
  {
    ElemsConcat(mid.queued, [id]);
    assert mid.rows - ({id} - f.bolt) == after.rows;
    assert IsAttempt(mid, after, {id}, f);
    AttemptMore(s, mid, after, a, {id}, f);
  }

  ghost predicate HitBy(s: Stores, c: Coord, del: Event, id: Hex32) {
    || (id in s.rows && Selected(c, del, s.rows[id]))
    || exists d :: d in s.docs && d.id == id && Selected(c, del, d)
  }

  ghost function AllIds(s: Stores): set<Hex32> {
    s.rows.Keys + set d | d in s.docs :: d.id
  }

  /** The ids of the stored and indexed events the coordinates select. */
  ghost function Hits(s: Stores, coords: seq<Coord>, del: Event): set<Hex32> {
    set id | id in AllIds(s) && exists c :: c in coords && HitBy(s, c, del, id)
  }

  ghost predicate WithinLimits(s: Stores, coords: seq<Coord>, del: Event) {
    forall c :: c in coords ==> |RowsSelected(s, c, del)| <= BOLT_LIMIT && |DocsSelected(s, c, del)| <= INDEX_LIMIT
  }

  lemma HitsOfOne(s: Stores, c: Coord, del: Event)
    requires WellKept(s)
    ensures Hits(s, [c], del) ==
            (set e | e in RowsSelected(s, c, del) :: e.id) + (set e | e in DocsSelected(s, c, del) :: e.id)
  {
    hide Selected;
    assert c in [c];
    forall id | HitBy(s, c, del, id)
      ensures id in (set e | e in RowsSelected(s, c, del) :: e.id) + (set e | e in DocsSelected(s, c, del) :: e.id)
    {
      if id in s.rows && Selected(c, del, s.rows[id]) {
        assert s.rows[id] in RowsSelected(s, c, del);
      } else {
        var d :| d in s.docs && d.id == id && Selected(c, del, d);
        assert d in DocsSelected(s, c, del);
      }
    }
  }

  /** One more coordinate, looked up in what the attempts before it left. */
  lemma HitsStep(s: Stores, mid: Stores, coords: seq<Coord>, all: seq<Coord>, c: Coord, del: Event, tried: set<Hex32>,
                 found: set<Hex32>, f: Faults)
    requires WellKept(s) && IsAttempt(s, mid, tried, f) && c in all
    requires tried <= Hits(s, coords, del)
    requires WithinLimits(s, all, del) ==> tried == Hits(s, coords, del)
    requires found <= Hits(mid, [c], del)
    requires |RowsSelected(mid, c, del)| <= BOLT_LIMIT && |DocsSelected(mid, c, del)| <= INDEX_LIMIT ==>
              found == Hits(mid, [c], del)
    ensures tried + found <= Hits(s, coords + [c], del)
    ensures WithinLimits(s, all, del) ==> tried + found == Hits(s, coords + [c], del)
  {
    hide Selected, HitBy, IsAttempt;
    assert forall k :: k in coords + [c] <==> k in coords || k == c;
    assert c in [c];
    forall id | id in Hits(mid, [c], del) ensures id in Hits(s, [c], del) {
      WasThere(s, mid, c, del, tried, f, id);
    }
    if WithinLimits(s, all, del) {
      FewerSelected(s, mid, c, del, tried, f);
      forall id | id in Hits(s, [c], del) && id !in tried ensures id in Hits(mid, [c], del) {
        StillThere(s, mid, c, del, tried, f, id);
      }
    }
  }

  lemma FewerSelected(s: Stores, mid: Stores, c: Coord, del: Event, tried: set<Hex32>, f: Faults)
    requires IsAttempt(s, mid, tried, f)
    ensures |RowsSelected(mid, c, del)| <= |RowsSelected(s, c, del)| &&
            |DocsSelected(mid, c, del)| <= |DocsSelected(s, c, del)|
  {
    hide Selected;
    SubsetSize(RowsSelected(mid, c, del), RowsSelected(s, c, del));
    SubsetSize(DocsSelected(mid, c, del), DocsSelected(s, c, del));
  }

  lemma WasThere(s: Stores, mid: Stores, c: Coord, del: Event, tried: set<Hex32>, f: Faults, id: Hex32)
    requires IsAttempt(s, mid, tried, f) && id in Hits(mid, [c], del)
    ensures id in Hits(s, [c], del)
  {
    hide Selected;
    assert HitBy(mid, c, del, id);
    assert HitBy(s, c, del, id);
  }

  lemma StillThere(s: Stores, mid: Stores, c: Coord, del: Event, tried: set<Hex32>, f: Faults, id: Hex32)
    requires IsAttempt(s, mid, tried, f) && id in Hits(s, [c], del) && id !in tried
    ensures id in Hits(mid, [c], del)
  {
    hide Selected;
    assert HitBy(s, c, del, id);
    if id in s.rows && Selected(c, del, s.rows[id]) {
      assert id in mid.rows;
    } else {
      var d :| d in s.docs && d.id == id && Selected(c, del, d);
      assert d in mid.docs;
    }
    assert HitBy(mid, c, del, id);
    assert c in [c];
  }

  // ----- What a coordinate deletion removes -----

  predicate CarriesD(ev: Event) {
    First(ev.tags, "d").Some?
  }

  /** Looked up by the d filter, or by kind and author alone. */
  predicate Findable(ev: Event) {
    IsAddressable(ev.kind) ==> CarriesD(ev)
  }

  lemma {:induction false} FirstIsSome(tags: seq<Tag>, name: string)
    ensures First(tags, name).Some? ==>
              exists tag :: tag in tags && |tag| >= 2 && tag[0] == name && tag[1] == First(tags, name).value
    ensures (exists tag :: tag in tags && |tag| >= 2 && tag[0] == name) ==> First(tags, name).Some?
    decreases |tags|
  {
    if tags != [] {
      FirstIsSome(tags[1..], name);
      assert tags == [tags[0]] + tags[1..];
    }
  }

  /** The lookups find exactly the findable versions of the coordinate up to the time of the request. */
  lemma SelectedMeans(c: Coord, del: Event, ev: Event)
    requires WellFormed(c)
    ensures Selected(c, del, ev) <==> EventCoord(ev) == Some(c) && ev.createdAt <= del.createdAt && Findable(ev)
  {
    FirstIsSome(ev.tags, "d");
  }

  lemma HitMeans(s: Stores, del: Event, ev: Event)
    requires del.kind == KIND_DELETION
    ensures (exists c :: c in CoordsOf(del) && Selected(c, del, ev)) <==> AuthorDeleted(del, ev) && Findable(ev)
  {
    hide Selected, Findable, EventCoord, ParseCoord, WellFormed, SameAuthorCoords;
    TargetsWellFormed(del.pubkey, del.tags);
    forall c | c in CoordsOf(del)
      ensures Selected(c, del, ev) <==> EventCoord(ev) == Some(c) && ev.createdAt <= del.createdAt && Findable(ev)
    {
      SelectedMeans(c, del, ev);
    }
    EventCoordWellFormed(ev);
    if EventCoord(ev).Some? {
      TargetsAreNamed(del.pubkey, del.tags, EventCoord(ev).value);
    }
  }

  /** Rows and documents with one id stand for one event. */
  ghost predicate OneEventPerId(s: Stores) {
    && WellKept(s) && (forall d :: d in s.docs && d.id in s.rows ==> s.rows[d.id] == d)
    && (forall d, e :: d in s.docs && e in s.docs && d.id == e.id ==> d == e)
  }

  /**
   A request applied in full, within the lookup limits, whatever fails: Bolt loses exactly the versions its
   author asked for, at or before its time, that the lookup finds and whose own delete in Bolt does not fail;
   every other row stays as it is.
   */
  lemma ExactCoordinatePurge(s: Stores, after: Stores, del: Event, f: Faults, id: Hex32)
    requires del.kind == KIND_DELETION && OneEventPerId(s) && IsAttempt(s, after, Hits(s, CoordsOf(del), del), f)
    ensures id in after.rows <==>
            id in s.rows && (!(AuthorDeleted(del, s.rows[id]) && Findable(s.rows[id])) || id in f.bolt)
    ensures id in after.rows ==> after.rows[id] == s.rows[id]
  {
    hide Selected, AuthorDeleted, Findable, CoordsOf;
    var coords := CoordsOf(del);
    if id in s.rows {
      HitMeans(s, del, s.rows[id]);
      assert id in Hits(s, coords, del) <==> exists c :: c in coords && HitBy(s, c, del, id);
      forall c ensures HitBy(s, c, del, id) <==> Selected(c, del, s.rows[id]) {
      }
    }
  }

  /**
   The index loses exactly the same versions, but for those whose own collection fails to delete them; all of them
   when no error was counted.
   */
  lemma ExactIndexPurge(s: Stores, after: Stores, del: Event, f: Faults, d: Event)
    requires del.kind == KIND_DELETION && OneEventPerId(s) && IsAttempt(s, after, Hits(s, CoordsOf(del), del), f)
    ensures d in after.docs <==> d in s.docs && (!(AuthorDeleted(del, d) && Findable(d)) || Undeletable(s.types, d, f))
    ensures IndexDeletes(s.types, Hits(s, CoordsOf(del), del), f) ==>
              (d in after.docs <==> d in s.docs && !(AuthorDeleted(del, d) && Findable(d)))
  {
    hide Selected, AuthorDeleted, Findable, CoordsOf;
    var coords := CoordsOf(del);
    if d in s.docs {
      HomeInRange(s.types, d.kind);
      HitMeans(s, del, d);
      assert d.id in Hits(s, coords, del) <==> exists c :: c in coords && HitBy(s, c, del, d.id);
      forall c ensures HitBy(s, c, del, d.id) <==> Selected(c, del, d) {
      }
    }
  }

  /**
   A version the request names survives it in Bolt exactly when it is addressable and has no d tag, so that the
   d filter cannot find it, or when its own delete in Bolt failed, which no count shows. An event that passed
   validation survives in the second case only. The tombstone blocks it all the same.
   */
  lemma NamedVersionsThatStay(s: Stores, after: Stores, del: Event, f: Faults, id: Hex32, g: Gate)
    requires del.kind == KIND_DELETION && OneEventPerId(s) && IsAttempt(s, after, Hits(s, CoordsOf(del), del), f)
    requires id in s.rows && AuthorDeleted(del, s.rows[id])
    ensures id in after.rows <==>
            (IsAddressable(s.rows[id].kind) && First(s.rows[id].tags, "d") == None) || id in f.bolt
    ensures HasRequiredD(s.rows[id]) ==> (id in after.rows <==> id in f.bolt)
    ensures Apply(g, ApplyDeletion(del)).Blocked(s.rows[id])
  {
    hide Gate.Blocked, Apply, AuthorDeleted;
    ExactCoordinatePurge(s, after, del, f, id);
    DeletionBlocks(g, del, s.rows[id]);
  }

  /** One such version, without a d tag, and the request that names it. Validation would refuse the event. */
  lemma AnUntaggedVersion(id: Hex32, author: Hex32)
    ensures var ev := Event(id, author, KIND_AMB, 10, []);
            var del := Event(id, author, KIND_DELETION, 20, [["a", CoordString(Coord(KIND_AMB, author, ""))]]);
            AuthorDeleted(del, ev) && !Findable(ev) && !HasRequiredD(ev)
  {
    hide CoordString, ParseCoord;
    var ev := Event(id, author, KIND_AMB, 10, []);
    var del := Event(id, author, KIND_DELETION, 20, [["a", CoordString(Coord(KIND_AMB, author, ""))]]);
    TagNamesEvent(del, ev);
  }

  /**
   So a request can be applied without a counted error and leave a row it names, valid or not: the one whose
   delete in Bolt fails.
   */
  lemma UncountedBoltFailure(s: Stores, after: Stores, del: Event, id: Hex32)
    requires del.kind == KIND_DELETION && OneEventPerId(s) && id in s.rows && AuthorDeleted(del, s.rows[id])
    requires IsAttempt(s, after, Hits(s, CoordsOf(del), del), Faults({}, {}, {id}, {}))
    ensures var f := Faults({}, {}, {id}, {});
            && IndexDeletes(s.types, Hits(s, CoordsOf(del), del), f) &&
               (forall c :: c in CoordsOf(del) ==> CoordString(c) !in f.tombstone)
            && id in after.rows
            && forall other :: other in after.rows && other != id ==>
                 !(AuthorDeleted(del, s.rows[other]) && Findable(s.rows[other]))
  {
    hide AuthorDeleted, Findable, CoordsOf, Hits, CoordString, IsAttempt;
    var f := Faults({}, {}, {id}, {});
    forall other ensures other in after.rows ==>
              other in s.rows && (!(AuthorDeleted(del, s.rows[other]) && Findable(s.rows[other])) || other in f.bolt) {
      ExactCoordinatePurge(s, after, del, f, other);
    }
    ExactCoordinatePurge(s, after, del, f, id);
  }
}
