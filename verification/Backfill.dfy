/** The one-shot replay of stored deletion requests (coord_tombstone_backfill.go), over aborts and restarts. */
module Backfill {
  import opened Wrappers
  import opened Sequences
  import opened Text
  import opened Nostr
  import opened Gate
  import opened Purge

  const MARKER := "migration:coord_tombstones_v1"
  const UINT32 := 0x1_0000_0000

  ghost function Requests(s: Stores): set<Event> {
    set id | id in s.rows && s.rows[id].kind == KIND_DELETION :: s.rows[id]
  }

  // ----- What runs do to tombstones, rows and documents -----

  /** Some request among dels names the coordinate string k and was made at t. */
  ghost predicate Named(dels: set<Event>, k: string, t: int) {
    exists del, c :: del in dels && c in CoordsOf(del) && CoordString(c) == k && del.createdAt == t
  }

  ghost predicate HitByAny(s: Stores, dels: set<Event>, id: Hex32) {
    exists del :: del in dels && id in Hits(s, CoordsOf(del), del)
  }

  /** No tombstone is lost or lowered, and every new one is the time of a request that names it. */
  ghost predicate TombstonesGrow(g: Gate, g': Gate, dels: set<Event>) {
    && (forall k :: k in g.tombstones ==> k in g'.tombstones && g'.tombstones[k] >= g.tombstones[k])
    && (forall k :: k in g'.tombstones ==>
          (k in g.tombstones && g'.tombstones[k] == g.tombstones[k]) || Named(dels, k, g'.tombstones[k]))
  }

  /** Only what the requests select is gone. */
  ghost predicate StoresShrink(s: Stores, s': Stores, dels: set<Event>) {
    && (forall id :: id in s'.rows ==> id in s.rows && s'.rows[id] == s.rows[id])
    && (forall id :: id in s.rows && id !in s'.rows ==> HitByAny(s, dels, id))
    && s'.types == s.types && s'.docs <= s.docs
    && (forall d :: d in s.docs && d !in s'.docs ==> HitByAny(s, dels, d.id))
  }

  /** What an aborted or failing run may have done. */
  ghost predicate Partial(g: Gate, s: Stores, g': Gate, s': Stores, dels: set<Event>) {
    TombstonesGrow(g, g', dels) && StoresShrink(s, s', dels)
  }

  /** Every coordinate a request names is tombstoned up to its time, or further. */
  ghost predicate AllTombstoned(g: Gate, dels: set<Event>) {
    forall k, t :: Named(dels, k, t) ==> k in g.tombstones && g.tombstones[k] >= t
  }

  ghost predicate AllGone(s: Stores, s': Stores, dels: set<Event>) {
    && (forall id :: id in s'.rows ==> !HitByAny(s, dels, id))
    && (forall d :: d in s'.docs ==> !HitByAny(s, dels, d.id))
  }

  /** What a run does that nothing interrupts. */
  ghost predicate Full(g: Gate, s: Stores, g': Gate, s': Stores, dels: set<Event>) {
    Partial(g, s, g', s', dels) && AllTombstoned(g', dels) && AllGone(s, s', dels)
  }

  ghost predicate Limits(s: Stores, dels: set<Event>) {
    forall del :: del in dels ==> WithinLimits(s, CoordsOf(del), del)
  }

  /** What the run meets: failing reads, the counted and the drained requests, store failures, cancellation. */
  datatype Environment = Environment(
    force: bool,
    markerReadFails: bool,
    count: Result<nat>,
    drained: seq<Event>,
    faults: nat -> Faults,
    /** cancelled(i, 0) is asked before request i, cancelled(i, j + 1) before its coordinate j. */
    cancelled: (nat, nat) -> bool,
    markerWriteFails: bool)

  /** A context that is over stays over. */
  ghost predicate StaysCancelled(cancelled: (nat, nat) -> bool) {
    forall i, j, k, l :: cancelled(i, j) && (i < k || (i == k && j <= l)) ==> cancelled(k, l)
  }

  /** The drain yields stored requests, each once, perhaps not all; a count that succeeds is right. */
  ghost predicate Honest(env: Environment, s: Stores) {
    && NoDup(env.drained) && Elems(env.drained) <= Requests(s)
    && (env.count.Ok? ==> env.count.value == |Requests(s)|)
    && |Requests(s)| < UINT32
    && StaysCancelled(env.cancelled)
  }

  /** No delete in Bolt fails. It is the one failure a run does not count. */
  ghost predicate BoltDeletes(env: Environment) {
    forall i :: env.faults(i).bolt == {}
  }

  /**
   One run with the gate and the stores to itself; TombstonedBesideTraffic is about one beside live traffic. The
   marker is set only after every stored request has all its same-author coordinates tombstoned. Any
   outcome leaves a partial effect; a run that sets the marker leaves the full one, if no delete in Bolt failed.
   */
  method BackfillCoordTombstones(purger: EventPurger, mgmt: ManagementStore, env: Environment) returns (r: Result<bool>)
    requires purger.mgmt == mgmt && purger as object != mgmt
    requires OneEventPerId(purger.stores) && Honest(env, purger.stores)
    modifies purger, mgmt`deletedEvents, mgmt`deletedCoords, mgmt`migrations
    ensures mgmt.migrations == if r == Ok(true) then old(mgmt.migrations) + {MARKER} else old(mgmt.migrations)
    ensures r == Ok(false) ==> MARKER in mgmt.migrations
    ensures Partial(old(mgmt.View()), old(purger.stores), mgmt.View(), purger.stores, Requests(old(purger.stores)))
    ensures r == Ok(true) ==> AllTombstoned(mgmt.View(), Requests(old(purger.stores)))
    ensures r == Ok(true) && BoltDeletes(env) && Limits(old(purger.stores), Requests(old(purger.stores))) ==>
              Full(old(mgmt.View()), old(purger.stores), mgmt.View(), purger.stores, Requests(old(purger.stores)))
  {
    hide Partial, AllTombstoned, AllGone, Limits, RunState, OneEventPerId, Full, WellKept;
    ghost var g0, s0 := mgmt.View(), purger.stores;
    NoEffect(g0, s0, Requests(s0), BoltDeletes(env));
    if !env.force {
      if env.markerReadFails { return Err("check marker"); }
      if MARKER in mgmt.migrations { return Ok(false); }
    }
    if env.count.Err? { return Err("count kind-5 events"); }
    var dels := env.drained;
    if |dels| % UINT32 != env.count.value { return Err("drained fewer than counted"); }
    DrainedAll(s0, dels);
    WellKeptOf(s0);
    var errs, cancelled;
    ghost var stopped, few;
    errs, cancelled, stopped, few := ReplayAll(purger, mgmt, env);
    RunStateMeans(g0, s0, mgmt.View(), purger.stores, few, Requests(s0), stopped, errs == 0, BoltDeletes(env));
    if cancelled { return Err("cancelled"); }
    if errs > 0 { return Err("tombstone or purge errors"); }
    if env.cancelled(|dels|, 0) { return Err("cancelled"); }
    if env.markerWriteFails { return Err("record marker"); }
    mgmt.migrations := mgmt.migrations + {MARKER};
    return Ok(true);
  }

  /** The drained requests one by one, until the context is over; few are those it got to. */
  method ReplayAll(purger: EventPurger, mgmt: ManagementStore, env: Environment)
    returns (errs: nat, cancelled: bool, ghost stopped: bool, ghost few: set<Event>)
    requires purger.mgmt == mgmt && purger as object != mgmt
    requires OneEventPerId(purger.stores) && WellKept(purger.stores) && Elems(env.drained) == Requests(purger.stores)
    requires RunState(mgmt.View(), purger.stores, mgmt.View(), purger.stores, {}, Requests(purger.stores), false,
                      true, BoltDeletes(env))
    requires StaysCancelled(env.cancelled)
    modifies purger, mgmt`deletedEvents, mgmt`deletedCoords
    ensures RunState(old(mgmt.View()), old(purger.stores), mgmt.View(), purger.stores, few,
                     Requests(old(purger.stores)), stopped, errs == 0, BoltDeletes(env))
    ensures !cancelled ==> few == Requests(old(purger.stores))
    ensures stopped ==> env.cancelled(|env.drained|, 0)
  {
    hide RunState, OneEventPerId, Requests, Partial, AllTombstoned, AllGone, BoltDeletes, WithinLimits, WellKept;
    var dels := env.drained;
    ghost var g0, s0 := mgmt.View(), purger.stores;
    errs, cancelled, stopped, few := 0, false, false, {};
    assert Elems(dels[..0]) == {};
    for i := 0 to |dels|
      invariant WellKept(purger.stores) && few == Elems(dels[..i])
      invariant RunState(g0, s0, mgmt.View(), purger.stores, few, Requests(s0), stopped, errs == 0, BoltDeletes(env))
      invariant stopped ==> env.cancelled(i, 0)
    {
      if env.cancelled(i, 0) { return errs, true, stopped, few; }
      ghost var g, s := mgmt.View(), purger.stores;
      assert dels[..i + 1] == dels[..i] + [dels[i]] && dels[i] in Elems(dels);
      ElemsConcat(dels[..i], [dels[i]]);
      assert Elems([dels[i]]) == {dels[i]};
      var e;
      ghost var complete;
      e, complete := Replay(purger, mgmt, dels[i], env.faults(i), (j: nat) => env.cancelled(i, j + 1));
      RunStep(g0, s0, g, s, mgmt.View(), purger.stores, few, dels[i], Requests(s0), stopped, errs == 0, env, i,
              complete, e == 0);
      stopped := stopped || !complete;
      errs := errs + e;
      few := few + {dels[i]};
    }
    assert dels[..|dels|] == dels;
  }

  /** Where a run stands after the requests of few. */
  ghost predicate RunState(g0: Gate, s0: Stores, g: Gate, s: Stores, few: set<Event>, dels: set<Event>, stopped: bool,
                           clean: bool, bolt: bool) {
    && Partial(g0, s0, g, s, dels)
    && (!stopped && clean ==> AllTombstoned(g, few))
    && (!stopped && clean && bolt && Limits(s0, dels) ==> AllGone(s0, s, few))
  }

  lemma RunStateMeans(g0: Gate, s0: Stores, g: Gate, s: Stores, few: set<Event>, dels: set<Event>, stopped: bool,
                      clean: bool, bolt: bool)
    requires RunState(g0, s0, g, s, few, dels, stopped, clean, bolt)
    ensures Partial(g0, s0, g, s, dels)
    ensures !stopped && clean ==> AllTombstoned(g, few)
    ensures !stopped && clean && bolt && Limits(s0, dels) && few == dels ==> Full(g0, s0, g, s, dels)
  {
    hide Partial, AllTombstoned, AllGone, Limits;
  }

  lemma WellKeptOf(s: Stores)
    requires OneEventPerId(s)
    ensures WellKept(s)
  {
  }

  lemma RunStep(g0: Gate, s0: Stores, g: Gate, s: Stores, g': Gate, s': Stores, few: set<Event>, del: Event,
                dels: set<Event>,
                stopped: bool, clean: bool, env: Environment, i: nat, complete: bool, clean': bool)
    requires OneEventPerId(s0) && del in dels
    requires RunState(g0, s0, g, s, few, dels, stopped, clean, BoltDeletes(env))
    requires Partial(g, s, g', s', {del})
    requires complete && clean' ==> AllTombstoned(g', {del})
    requires complete && clean' && env.faults(i).bolt == {} && WithinLimits(s, CoordsOf(del), del) ==>
              AllGone(s, s', {del})
    ensures RunState(g0, s0, g', s', few + {del}, dels, stopped || !complete, clean && clean', BoltDeletes(env))
  {
    hide Partial, AllTombstoned, AllGone, Limits, WithinLimits, OneEventPerId;
    assert {del} <= dels;
    PartialTransitive(g0, s0, g, s, g', s', dels);
    if !stopped && complete {
      if clean && clean' { MoreTombstoned(g, s, g', s', few, del); }
      if clean && clean' && BoltDeletes(env) && Limits(s0, dels) {
        LimitsStay(g0, s0, g, s, dels, del);
        MoreGone(g0, s0, g, s, g', s', few, del, dels);
      }
    }
  }

  /** One stored request through the live path. */
  method Replay(purger: EventPurger, mgmt: ManagementStore, del: Event, f: Faults, done: nat -> bool)
    returns (errs: nat, ghost complete: bool)
    requires purger.mgmt == mgmt && purger as object != mgmt && WellKept(purger.stores)
    modifies purger, mgmt`deletedEvents, mgmt`deletedCoords
    ensures WellKept(purger.stores)
    ensures Partial(old(mgmt.View()), old(purger.stores), mgmt.View(), purger.stores, {del})
    ensures !complete ==> exists j :: done(j)
    ensures complete && errs == 0 ==> AllTombstoned(mgmt.View(), {del})
    ensures complete && errs == 0 && f.bolt == {} && WithinLimits(old(purger.stores), CoordsOf(del), del) ==>
              AllGone(old(purger.stores), purger.stores, {del})
  {
    hide Partial, AllTombstoned, AllGone, WithinLimits, Recorded, IsAttempt, Hits, WellKept;
    ghost var g, s := mgmt.View(), purger.stores;
    var tombstoned, purged;
    ghost var processed, attempted;
    tombstoned, purged, errs, processed, attempted := purger.ApplyCoordDeletions(del, f, done);
    complete := processed == |CoordsOf(del)|;
    AttemptKeepsIds(s, purger.stores, attempted, f);
    AttemptKeepsTypes(s, purger.stores, attempted, f);
    ReplayEffect(g, s, mgmt.View(), purger.stores, del, processed, attempted, f);
    if complete {
      assert CoordsOf(del)[..processed] == CoordsOf(del);
    }
  }

  lemma NoEffect(g: Gate, s: Stores, dels: set<Event>, bolt: bool)
    ensures Partial(g, s, g, s, dels)
    ensures RunState(g, s, g, s, {}, dels, false, true, bolt)
  {
  }

  lemma DrainedAll(s: Stores, dels: seq<Event>)
    requires NoDup(dels) && Elems(dels) <= Requests(s) && |dels| % UINT32 == |Requests(s)| < UINT32
    ensures Elems(dels) == Requests(s)
  {
    NoDupCardinality(dels);
    SubsetSize(Elems(dels), Requests(s));
  }

  // ----- One request -----

  lemma {:induction false} MarkSomeTombstones(g: Gate, coords: seq<Coord>, until: int, f: Faults)
    ensures var t := MarkSome(g, coords, until, f).tombstones;
            && (forall k :: k in g.tombstones ==> k in t && t[k] >= g.tombstones[k])
            && (forall k :: k in t ==>
                  (k in g.tombstones && t[k] == g.tombstones[k]) ||
                  (t[k] == until && exists c :: c in coords && CoordString(c) == k))
            && (forall c :: c in coords && CoordString(c) !in f.tombstone ==>
                  CoordString(c) in t && t[CoordString(c)] >= until)
    decreases |coords|
  {
    hide CoordString;
    if coords != [] {
      var init, last := coords[..|coords| - 1], coords[|coords| - 1];
      assert coords == init + [last];
      MarkSomeTombstones(g, init, until, f);
    }
  }

  lemma ReplayEffect(g: Gate, s: Stores, g': Gate, s': Stores, del: Event, processed: nat, attempted: set<Hex32>,
                     f: Faults)
    requires WellKept(s) && processed <= |CoordsOf(del)|
    requires g' == Recorded(g, CoordsOf(del)[..processed], del.createdAt, attempted, f)
    requires IsAttempt(s, s', attempted, f) && attempted <= Hits(s, CoordsOf(del)[..processed], del)
    ensures Partial(g, s, g', s', {del})
    ensures processed == |CoordsOf(del)| ==>
              (forall c :: c in CoordsOf(del)[..processed] ==> CoordString(c) !in f.tombstone) ==>
                AllTombstoned(g', {del})
    ensures f.bolt == {} && IndexDeletes(s.types, attempted, f) && attempted == Hits(s, CoordsOf(del), del) ==>
              AllGone(s, s', {del})
  {
    hide CoordString, CoordsOf, Hits;
    var part := CoordsOf(del)[..processed];
    MarkSomeTombstones(g, part, del.createdAt, f);
    assert forall c :: c in part ==> c in CoordsOf(del);
    assert del in {del};
    HitsOfPart(s, part, CoordsOf(del), del);
    forall k | k in g'.tombstones && !(k in g.tombstones && g'.tombstones[k] == g.tombstones[k])
      ensures Named({del}, k, g'.tombstones[k])
    {
      var c :| c in part && CoordString(c) == k;
    }
    forall id ensures HitByAny(s, {del}, id) <==> id in Hits(s, CoordsOf(del), del) {
    }
    if processed == |CoordsOf(del)| {
      assert part == CoordsOf(del);
    }
    DeletableAll(s, attempted, f);
  }

  /** What every collection can delete nothing keeps. */
  lemma DeletableAll(s: Stores, ids: set<Hex32>, f: Faults)
    requires WellKept(s)
    ensures IndexDeletes(s.types, ids, f) ==> forall d :: d in s.docs && d.id in ids ==> !Undeletable(s.types, d, f)
  {
    forall d | d in s.docs ensures Home(s.types, d.kind).value < |s.types| {
      HomeInRange(s.types, d.kind);
    }
  }

  lemma HitsOfPart(s: Stores, part: seq<Coord>, all: seq<Coord>, del: Event)
    requires forall c :: c in part ==> c in all
    ensures Hits(s, part, del) <= Hits(s, all, del)
  {
    hide HitBy;
  }

  // ----- Putting requests and runs together -----

  lemma HitsShrink(s: Stores, s': Stores, coords: seq<Coord>, del: Event, id: Hex32)
    requires forall id :: id in s'.rows ==> id in s.rows && s'.rows[id] == s.rows[id]
    requires s'.docs <= s.docs
    ensures id in Hits(s', coords, del) ==> id in Hits(s, coords, del)
  {
    hide Selected;
    forall c | HitBy(s', c, del, id) ensures HitBy(s, c, del, id) {
    }
  }

  lemma HitByAnyShrinks(s: Stores, s': Stores, few: set<Event>, dels: set<Event>, id: Hex32)
    requires forall id :: id in s'.rows ==> id in s.rows && s'.rows[id] == s.rows[id]
    requires s'.docs <= s.docs && few <= dels
    ensures HitByAny(s', few, id) ==> HitByAny(s, dels, id)
  {
    hide Hits;
    if HitByAny(s', few, id) {
      var del :| del in few && id in Hits(s', CoordsOf(del), del);
      HitsShrink(s, s', CoordsOf(del), del, id);
    }
  }

  lemma NamedGrows(few: set<Event>, dels: set<Event>, k: string, t: int)
    requires few <= dels && Named(few, k, t)
    ensures Named(dels, k, t)
  {
    hide CoordsOf, CoordString;
  }

  lemma PartialTransitive(g0: Gate, s0: Stores, g: Gate, s: Stores, g': Gate, s': Stores, dels: set<Event>)
    requires Partial(g0, s0, g, s, dels)
    requires exists few :: few <= dels && Partial(g, s, g', s', few)
    ensures Partial(g0, s0, g', s', dels)
  {
    hide Named, HitByAny;
    var few :| few <= dels && Partial(g, s, g', s', few);
    forall k, t | Named(few, k, t) ensures Named(dels, k, t) { NamedGrows(few, dels, k, t); }
    forall id | HitByAny(s, few, id) ensures HitByAny(s0, dels, id) { HitByAnyShrinks(s0, s, few, dels, id); }
  }

  lemma MoreTombstoned(g: Gate, s: Stores, g': Gate, s': Stores, few: set<Event>, del: Event)
    requires AllTombstoned(g, few) && Partial(g, s, g', s', {del}) && AllTombstoned(g', {del})
    ensures AllTombstoned(g', few + {del})
  {
    hide StoresShrink, CoordsOf, CoordString;
    forall k, t | Named(few + {del}, k, t) ensures Named(few, k, t) || Named({del}, k, t) {
      var d, c :| d in few + {del} && c in CoordsOf(d) && CoordString(c) == k && d.createdAt == t;
      if d != del { assert d in few; }
    }
  }

  lemma LimitsStay(g0: Gate, s0: Stores, g: Gate, s: Stores, dels: set<Event>, del: Event)
    requires Limits(s0, dels) && Partial(g0, s0, g, s, dels) && del in dels
    ensures WithinLimits(s, CoordsOf(del), del)
  {
    hide Selected, HitByAny, TombstonesGrow;
    forall c | c in CoordsOf(del)
      ensures |RowsSelected(s, c, del)| <= BOLT_LIMIT && |DocsSelected(s, c, del)| <= INDEX_LIMIT
    {
      assert WithinLimits(s0, CoordsOf(del), del);
      SubsetSize(RowsSelected(s, c, del), RowsSelected(s0, c, del));
      SubsetSize(DocsSelected(s, c, del), DocsSelected(s0, c, del));
    }
  }

  /** An id that is still there is selected exactly as before. */
  lemma StillHit(s: Stores, s': Stores, del: Event, ev: Event)
    requires OneEventPerId(s)
    requires forall id :: id in s'.rows ==> id in s.rows && s'.rows[id] == s.rows[id]
    requires s'.docs <= s.docs
    requires (ev.id in s'.rows && s'.rows[ev.id] == ev) || ev in s'.docs
    ensures ev.id in Hits(s, CoordsOf(del), del) ==> ev.id in Hits(s', CoordsOf(del), del)
  {
    hide Selected, CoordsOf;
    forall c | HitBy(s, c, del, ev.id) ensures HitBy(s', c, del, ev.id) {
      assert Selected(c, del, ev);
    }
  }

  lemma StillHitByAny(s: Stores, s': Stores, few: set<Event>, ev: Event)
    requires OneEventPerId(s)
    requires forall id :: id in s'.rows ==> id in s.rows && s'.rows[id] == s.rows[id]
    requires s'.docs <= s.docs
    requires (ev.id in s'.rows && s'.rows[ev.id] == ev) || ev in s'.docs
    ensures HitByAny(s, few, ev.id) ==> HitByAny(s', few, ev.id)
  {
    hide Hits, CoordsOf;
    if HitByAny(s, few, ev.id) {
      var del :| del in few && ev.id in Hits(s, CoordsOf(del), del);
      StillHit(s, s', del, ev);
    }
  }

  lemma MoreGone(g0: Gate, s0: Stores, g: Gate, s: Stores, g': Gate, s': Stores, few: set<Event>, del: Event,
                 dels: set<Event>)
    requires OneEventPerId(s0) && Partial(g0, s0, g, s, dels) && Partial(g, s, g', s', {del})
    requires AllGone(s0, s, few) && AllGone(s, s', {del})
    ensures AllGone(s0, s', few + {del})
  {
    hide TombstonesGrow, Hits, CoordsOf;
    forall id ensures HitByAny(s0, few + {del}, id) ==> HitByAny(s0, few, id) || HitByAny(s0, {del}, id) {
      if HitByAny(s0, few + {del}, id) {
        var d :| d in few + {del} && id in Hits(s0, CoordsOf(d), d);
        if d != del { assert d in few; }
      }
    }
    forall id | id in s'.rows ensures !HitByAny(s0, few + {del}, id) {
      StillHitByAny(s0, s, {del}, s.rows[id]);
    }
    forall d | d in s'.docs ensures !HitByAny(s0, few + {del}, d.id) {
      StillHitByAny(s0, s, {del}, d);
    }
  }

  // ----- Restarts -----

  lemma NoRequestIsHit(s: Stores, dels: set<Event>, id: Hex32)
    requires OneEventPerId(s) && id in s.rows && s.rows[id].kind == KIND_DELETION
    ensures !HitByAny(s, dels, id)
  {
    forall del | del in dels ensures id !in Hits(s, CoordsOf(del), del) {
      TargetsWellFormed(del.pubkey, del.tags);
      forall c | c in CoordsOf(del) ensures !HitBy(s, c, del, id) {
      }
    }
  }

  /** Runs never remove a deletion request, so a restart replays the same ones. */
  lemma RequestsStay(g: Gate, s: Stores, g': Gate, s': Stores, dels: set<Event>)
    requires OneEventPerId(s) && Partial(g, s, g', s', dels)
    ensures Requests(s') == Requests(s) && OneEventPerId(s')
  {
    hide HitByAny, TombstonesGrow;
    forall id | id in s.rows && s.rows[id].kind == KIND_DELETION ensures id in s'.rows {
      NoRequestIsHit(s, dels, id);
    }
  }

  /** A full run after a partial one is a full run from where the partial one started. */
  lemma FullAfterPartial(g0: Gate, s0: Stores, g: Gate, s: Stores, g': Gate, s': Stores, dels: set<Event>)
    requires OneEventPerId(s0) && Partial(g0, s0, g, s, dels) && Full(g, s, g', s', dels)
    ensures Full(g0, s0, g', s', dels)
  {
    hide TombstonesGrow, HitByAny, AllTombstoned;
    PartialTransitive(g0, s0, g, s, g', s', dels);
    forall id | id in s'.rows ensures !HitByAny(s0, dels, id) {
      StillHitByAny(s0, s, dels, s.rows[id]);
    }
    forall d | d in s'.docs ensures !HitByAny(s0, dels, d.id) {
      StillHitByAny(s0, s, dels, d);
    }
  }

  /** Full runs from one state agree on tombstones, rows and documents. */
  lemma FullIsUnique(g: Gate, s: Stores, g1: Gate, s1: Stores, g2: Gate, s2: Stores, dels: set<Event>)
    requires Full(g, s, g1, s1, dels) && Full(g, s, g2, s2, dels)
    ensures g1.tombstones == g2.tombstones && s1.rows == s2.rows && s1.docs == s2.docs
  {
    hide Named, HitByAny;
    assert forall k :: k in g1.tombstones <==> k in g2.tombstones;
    assert forall k :: k in g1.tombstones ==> g1.tombstones[k] == g2.tombstones[k];
    assert forall id :: id in s1.rows <==> id in s2.rows;
    assert forall d :: d in s1.docs <==> d in s2.docs;
  }

  datatype Disk = Disk(gate: Gate, stores: Stores)

  /** A chain of runs that were aborted or met failures, each started on what the one before left. */
  ghost predicate Aborted(runs: seq<Disk>) {
    forall i :: 0 <= i < |runs| - 1 ==> Partial(runs[i].gate, runs[i].stores, runs[i + 1].gate, runs[i + 1].stores,
                                                Requests(runs[i].stores))
  }

  lemma {:induction false} ChainIsPartial(runs: seq<Disk>)
    requires runs != [] && Aborted(runs) && OneEventPerId(runs[0].stores)
    ensures var first, last := runs[0], runs[|runs| - 1];
            && Partial(first.gate, first.stores, last.gate, last.stores, Requests(first.stores))
            && Requests(last.stores) == Requests(first.stores) && OneEventPerId(last.stores)
    decreases |runs|
  {
    hide Partial, OneEventPerId, Requests;
    var first, last := runs[0], runs[|runs| - 1];
    if |runs| == 1 {
      NoEffect(first.gate, first.stores, Requests(first.stores), false);
    } else {
      var init := runs[..|runs| - 1];
      ChainIsPartial(init);
      var prev := init[|init| - 1];
      assert Partial(prev.gate, prev.stores, last.gate, last.stores, Requests(runs[|runs| - 2].stores));
      PartialTransitive(first.gate, first.stores, prev.gate, prev.stores, last.gate, last.stores,
                        Requests(first.stores));
      RequestsStay(first.gate, first.stores, last.gate, last.stores, Requests(first.stores));
    }
  }

  /** Any number of aborted runs and then a full one end with the tombstones, rows and documents of one full run. */
  lemma RestartsConverge(runs: seq<Disk>, final: Disk, once: Disk)
    requires runs != [] && Aborted(runs) && OneEventPerId(runs[0].stores)
    requires Full(runs[|runs| - 1].gate, runs[|runs| - 1].stores, final.gate, final.stores,
                  Requests(runs[|runs| - 1].stores))
    requires Full(runs[0].gate, runs[0].stores, once.gate, once.stores, Requests(runs[0].stores))
    ensures final.gate.tombstones == once.gate.tombstones && final.stores.rows == once.stores.rows &&
            final.stores.docs == once.stores.docs
  {
    hide Full, Partial, OneEventPerId, Requests;
    ChainIsPartial(runs);
    var first, last := runs[0], runs[|runs| - 1];
    FullAfterPartial(first.gate, first.stores, last.gate, last.stores, final.gate, final.stores,
                     Requests(first.stores));
    FullIsUnique(first.gate, first.stores, final.gate, final.stores, once.gate, once.stores, Requests(first.stores));
  }

  // ----- Beside live traffic -----

  /** One write to the gate: a run's own tombstone, or what anybody else does. */
  datatype GateStep = Mark(coord: string, until: int) | Live(action: Action)

  function Stepped(g: Gate, step: GateStep): Gate {
    match step
    case Mark(coord, until) => g.MarkCoord(coord, until)
    case Live(action) => Apply(g, action)
  }

  function Interleaved(g: Gate, steps: seq<GateStep>): Gate {
    if steps == [] then g else Stepped(Interleaved(g, steps[..|steps| - 1]), steps[|steps| - 1])
  }

  ghost predicate Reaches(g: Gate, k: string, t: int) {
    k in g.tombstones && g.tombstones[k] >= t
  }

  lemma {:induction false} MarkAllKeeps(g: Gate, coords: seq<Coord>, until: int, k: string, t: int)
    requires Reaches(g, k, t)
    ensures Reaches(MarkAll(g, coords, until), k, t)
    decreases |coords|
  {
    hide CoordString;
    if coords != [] { MarkAllKeeps(g.MarkCoord(CoordString(coords[0]), until), coords[1..], until, k, t); }
  }

  lemma StepKeepsTombstone(g: Gate, step: GateStep, k: string, t: int)
    requires Reaches(g, k, t)
    ensures Reaches(Stepped(g, step), k, t)
  {
    hide MarkAll, SameAuthorCoords;
    if step.Live? && step.action.ApplyDeletion? {
      var del := step.action.del;
      MarkAllKeeps(g, SameAuthorCoords(del.pubkey, del.tags), del.createdAt, k, t);
    }
  }

  lemma {:induction false} MarkStays(g: Gate, steps: seq<GateStep>, k: string, t: int)
    requires Mark(k, t) in steps || Reaches(g, k, t)
    ensures Reaches(Interleaved(g, steps), k, t)
    decreases |steps|
  {
    hide Stepped;
    if steps != [] {
      var init, last := steps[..|steps| - 1], steps[|steps| - 1];
      assert steps == init + [last];
      if Mark(k, t) in init || Reaches(g, k, t) {
        MarkStays(g, init, k, t);
        StepKeepsTombstone(Interleaved(g, init), last, k, t);
      } else {
        assert Reaches(Stepped(Interleaved(g, init), last), k, t) by { MarkReaches(Interleaved(g, init), k, t); }
      }
    }
  }

  lemma MarkReaches(g: Gate, k: string, t: int)
    ensures Reaches(Stepped(g, Mark(k, t)), k, t)
  {
  }

  /**
   Whatever bans, lifts and deletions come between the tombstones of a run, and after them: once the run has written
   those of all its requests, every coordinate they name is tombstoned up to their time, and stays so.
   */
  lemma TombstonedBesideTraffic(g: Gate, steps: seq<GateStep>, dels: set<Event>)
    requires forall del, c :: del in dels && c in CoordsOf(del) ==> Mark(CoordString(c), del.createdAt) in steps
    ensures AllTombstoned(Interleaved(g, steps), dels)
  {
    hide CoordsOf, CoordString, Interleaved;
    forall k, t | Named(dels, k, t) ensures Reaches(Interleaved(g, steps), k, t) {
      var del, c :| del in dels && c in CoordsOf(del) && CoordString(c) == k && del.createdAt == t;
      assert Mark(CoordString(c), del.createdAt) in steps;
      MarkStays(g, steps, k, t);
    }
  }
}
