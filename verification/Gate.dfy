/** The "may this event exist on the relay?" gate (tombstone.go, management.go) and the history it stands for. */
module Gate {
  import opened Wrappers
  import opened Sequences
  import opened Text
  import opened Nostr

  /** Banned keys and ids, deleted ids, and for every coordinate string the newest applied deletion of it. */
  datatype Gate = Gate(bannedPubkeys: set<Hex32>, bannedIds: set<Hex32>, deletedIds: set<Hex32>,
                       tombstones: map<string, int>) {

    /** A newer or equal version of the deletion time stays. */
    function MarkCoord(coord: string, until: int): Gate {
      if coord in tombstones &&
        tombstones[coord] >= until then this else this.(tombstones := tombstones[coord := until])
    }

    predicate Tombstoned(ev: Event) {
      match EventCoord(ev)
      case None => false
      case Some(c) => CoordString(c) in tombstones && ev.createdAt <= tombstones[CoordString(c)]
    }

    /** The OK message of a refused event, or "" when it may be stored and served. */
    function BlockReason(ev: Event): string {
      if ev.pubkey in bannedPubkeys then "pubkey is banned"
      else if ev.id in bannedIds then "event is banned"
      else if ev.id in deletedIds || Tombstoned(ev) then "blocked: event was deleted by its author"
      else ""
    }

    predicate Blocked(ev: Event) {
      BlockReason(ev) != ""
    }
  }

  const OPEN := Gate({}, {}, {}, map[])

  class ManagementStore {
    var bannedPubkeys: set<Hex32>
    var bannedEvents: set<Hex32>
    var deletedEvents: set<Hex32>
    var deletedCoords: map<string, int>
    var migrations: set<string>

    function View(): Gate
      reads this
    {
      Gate(bannedPubkeys, bannedEvents, deletedEvents, deletedCoords)
    }

    constructor ()
      ensures View() == OPEN && migrations == {}
    {
      bannedPubkeys, bannedEvents, deletedEvents, deletedCoords, migrations := {}, {}, {}, map[], {};
    }

    method BanEvent(id: Hex32)
      modifies this`bannedEvents
      ensures View() == old(View()).(bannedIds := old(View()).bannedIds + {id})
    {
      bannedEvents := bannedEvents + {id};
    }

    method MarkEventDeleted(id: Hex32)
      modifies this`deletedEvents
      ensures View() == old(View()).(deletedIds := old(View()).deletedIds + {id})
    {
      deletedEvents := deletedEvents + {id};
    }

    method MarkCoordDeleted(coord: string, until: int)
      modifies this`deletedCoords
      ensures View() == old(View()).MarkCoord(coord, until)
    {
      if coord in deletedCoords && deletedCoords[coord] >= until { return; }
      deletedCoords := deletedCoords[coord := until];
    }

    method CoordDeletedUntil(coord: string) returns (until: Option<int>)
      ensures until == if coord in View().tombstones then Some(View().tombstones[coord]) else None
    {
      if coord in deletedCoords { return Some(deletedCoords[coord]); }
      return None;
    }

    method BlockReason(ev: Event) returns (reason: string)
      ensures reason == View().BlockReason(ev)
    {
      hide CoordString;
      var coord := EventCoord(ev);
      if ev.pubkey in bannedPubkeys { return "pubkey is banned"; }
      if ev.id in bannedEvents { return "event is banned"; }
      if ev.id in deletedEvents { return "blocked: event was deleted by its author"; }
      if coord.Some? {
        var until := CoordDeletedUntil(CoordString(coord.value));
        if until.Some? && ev.createdAt <= until.value { return "blocked: event was deleted by its author"; }
      }
      return "";
    }
  }

  // ----- Which coordinates a deletion request names -----

  /** The 'a' targets of a request that are coordinates of its own author. */
  function SameAuthorCoords(author: Hex32, tags: seq<Tag>): seq<Coord> {
    if tags == [] then []
    else TargetOf(author, tags[0]) + SameAuthorCoords(author, tags[1..])
  }

  function TargetOf(author: Hex32, tag: Tag): seq<Coord> {
    if |tag| < 2 || tag[0] != "a" then []
    else
      match ParseCoord(tag[1])
      case Some(c) => if c.pubkey == author then [c] else []
      case None => []
  }

  method ComputeSameAuthorCoords(del: Event) returns (out: seq<Coord>)
    ensures out == SameAuthorCoords(del.pubkey, del.tags)
  {
    hide TargetOf;
    out := [];
    for i := 0 to |del.tags|
      invariant out + SameAuthorCoords(del.pubkey, del.tags[i..]) == SameAuthorCoords(del.pubkey, del.tags)
    {
      assert del.tags[i..][1..] == del.tags[i + 1..];
      var tag := del.tags[i];
      out := out + TargetOf(del.pubkey, tag);
    }
    assert del.tags[|del.tags|..] == [];
  }

  ghost predicate NamesCoord(del: Event, c: Coord) {
    exists tag :: tag in del.tags && |tag| >= 2 && tag[0] == "a" && ParseCoord(tag[1]) == Some(c)
  }

  lemma {:induction false} TargetsAreNamed(author: Hex32, tags: seq<Tag>, c: Coord)
    ensures c in SameAuthorCoords(author, tags) <==>
            c.pubkey == author &&
            exists tag :: tag in tags && |tag| >= 2 && tag[0] == "a" && ParseCoord(tag[1]) == Some(c)
    decreases |tags|
  {
    hide ParseCoord;
    if tags != [] {
      TargetsAreNamed(author, tags[1..], c);
      assert tags == [tags[0]] + tags[1..];
    }
  }

  lemma {:induction false} TargetsWellFormed(author: Hex32, tags: seq<Tag>)
    ensures forall c :: c in SameAuthorCoords(author, tags) ==> WellFormed(c) && c.pubkey == author
    decreases |tags|
  {
    hide ParseCoord, WellFormed;
    if tags != [] {
      TargetsWellFormed(author, tags[1..]);
      if |tags[0]| >= 2 { ParsedWellFormed(tags[0][1]); }
    }
  }

  /** The tombstones of one request. */
  function MarkAll(g: Gate, coords: seq<Coord>, until: int): Gate
    decreases |coords|
  {
    if coords == [] then g else MarkAll(g.MarkCoord(CoordString(coords[0]), until), coords[1..], until)
  }

  // ----- What the gate remembers -----

  datatype Action =
    | BanPubkey(pubkey: Hex32)
    | AllowPubkey(pubkey: Hex32)
    | BanEvent(id: Hex32)
    | AllowEvent(id: Hex32)
    | DeleteId(id: Hex32)
    | ApplyDeletion(del: Event)

  function Apply(g: Gate, a: Action): Gate {
    match a
    case BanPubkey(pk) => g.(bannedPubkeys := g.bannedPubkeys + {pk})
    case AllowPubkey(pk) => g.(bannedPubkeys := g.bannedPubkeys - {pk})
    case BanEvent(id) => g.(bannedIds := g.bannedIds + {id})
    case AllowEvent(id) => g.(bannedIds := g.bannedIds - {id})
    case DeleteId(id) => g.(deletedIds := g.deletedIds + {id})
    case ApplyDeletion(del) => if del.kind != KIND_DELETION then g else MarkAll(g,
          SameAuthorCoords(del.pubkey, del.tags), del.createdAt)
  }

  function Run(history: seq<Action>): Gate {
    if history == [] then OPEN else Apply(Run(history[..|history| - 1]), history[|history| - 1])
  }

  /** Turned on in the history and not turned off since. */
  ghost predicate InForce(history: seq<Action>, on: Action, off: Action) {
    exists i :: 0 <= i < |history| && history[i] == on && forall j :: i < j < |history| ==> history[j] != off
  }

  /** The author of ev asked, by its coordinate, for all its versions up to a time not before this one. */
  ghost predicate AuthorDeleted(del: Event, ev: Event) {
    del.kind == KIND_DELETION && del.pubkey == ev.pubkey && del.createdAt >= ev.createdAt &&
    EventCoord(ev).Some? && NamesCoord(del, EventCoord(ev).value)
  }

  ghost predicate ShouldBlock(history: seq<Action>, ev: Event) {
    || InForce(history, BanPubkey(ev.pubkey), AllowPubkey(ev.pubkey))
    || InForce(history, BanEvent(ev.id), AllowEvent(ev.id))
    || DeleteId(ev.id) in history
    || exists del :: ApplyDeletion(del) in history && AuthorDeleted(del, ev)
  }

  lemma {:induction false} MarkAllMeans(g: Gate, coords: seq<Coord>, until: int, ev: Event)
    requires forall c :: c in coords ==> WellFormed(c)
    ensures var h := MarkAll(g, coords, until);
            && h.bannedPubkeys == g.bannedPubkeys && h.bannedIds == g.bannedIds && h.deletedIds == g.deletedIds
            && (h.Tombstoned(ev) <==>
                  g.Tombstoned(ev) ||
                  (EventCoord(ev).Some? && EventCoord(ev).value in coords && ev.createdAt <= until))
    decreases |coords|
  {
    hide CoordString, WellFormed, EventCoord;
    if coords != [] {
      var c := coords[0];
      assert coords == [c] + coords[1..];
      MarkAllMeans(g.MarkCoord(CoordString(c), until), coords[1..], until, ev);
      EventCoordWellFormed(ev);
      if EventCoord(ev).Some? && CoordString(EventCoord(ev).value) == CoordString(c) {
        CoordStringInjective(EventCoord(ev).value, c);
      }
    }
  }

  /** A request blocks exactly the versions it names, of its own author, up to its time; for any gate before. */
  lemma DeletionBlocks(g: Gate, del: Event, ev: Event)
    ensures Apply(g, ApplyDeletion(del)).Blocked(ev) <==> g.Blocked(ev) || AuthorDeleted(del, ev)
  {
    hide EventCoord, CoordString, ParseCoord, WellFormed, MarkAll, SameAuthorCoords, Gate.Tombstoned;
    var coords := SameAuthorCoords(del.pubkey, del.tags);
    TargetsWellFormed(del.pubkey, del.tags);
    MarkAllMeans(g, coords, del.createdAt, ev);
    EventCoordWellFormed(ev);
    if EventCoord(ev).Some? {
      TargetsAreNamed(del.pubkey, del.tags, EventCoord(ev).value);
    }
  }

  /** Nobody can delete another author's events. */
  lemma ForeignRequestsDoNothing(g: Gate, del: Event, ev: Event)
    requires del.pubkey != ev.pubkey
    ensures Apply(g, ApplyDeletion(del)).Blocked(ev) <==> g.Blocked(ev)
  {
    hide Gate.Blocked, Apply;
    DeletionBlocks(g, del, ev);
  }

  /** A request that carries the coordinate of an event as its 'a' tag names it, colons in d included. */
  lemma TagNamesEvent(del: Event, ev: Event)
    requires EventCoord(ev).Some? && ["a", CoordString(EventCoord(ev).value)] in del.tags
    ensures NamesCoord(del, EventCoord(ev).value)
  {
    EventCoordWellFormed(ev);
    CoordRoundTrip(EventCoord(ev).value);
    var tag := ["a", CoordString(EventCoord(ev).value)];
    assert tag in del.tags && |tag| >= 2 && tag[0] == "a";
  }

  lemma InForceStep(history: seq<Action>, a: Action, on: Action, off: Action)
    requires on != off
    ensures InForce(history + [a], on, off) <==> a == on || (a != off && InForce(history, on, off))
  {
    var more := history + [a];
    assert forall i :: 0 <= i < |history| ==> more[i] == history[i];
    assert more[|history|] == a;
  }

  ghost predicate Parts(g: Gate, history: seq<Action>, ev: Event) {
    && (ev.pubkey in g.bannedPubkeys <==> InForce(history, BanPubkey(ev.pubkey), AllowPubkey(ev.pubkey)))
    && (ev.id in g.bannedIds <==> InForce(history, BanEvent(ev.id), AllowEvent(ev.id)))
    && (ev.id in g.deletedIds <==> DeleteId(ev.id) in history)
    && (g.Tombstoned(ev) <==> exists del :: ApplyDeletion(del) in history && AuthorDeleted(del, ev))
  }

  lemma {:induction false} RunParts(history: seq<Action>, ev: Event)
    ensures Parts(Run(history), history, ev)
    decreases |history|
  {
    if history != [] {
      var init, a := history[..|history| - 1], history[|history| - 1];
      assert history == init + [a];
      RunParts(init, ev);
      PartsStep(Run(init), init, a, ev);
    }
  }

  lemma PartsStep(g: Gate, history: seq<Action>, a: Action, ev: Event)
    requires Parts(g, history, ev)
    ensures Parts(Apply(g, a), history + [a], ev)
  {
    hide EventCoord, CoordString, ParseCoord, WellFormed, MarkAll, SameAuthorCoords, InForce, NamesCoord;
    InForceStep(history, a, BanPubkey(ev.pubkey), AllowPubkey(ev.pubkey));
    InForceStep(history, a, BanEvent(ev.id), AllowEvent(ev.id));
    assert forall b :: b in history + [a] <==> b in history || b == a;
    match a
    case ApplyDeletion(del) => TombstoneStep(g, del, ev);
    case _ =>
  }

  lemma TombstoneStep(g: Gate, del: Event, ev: Event)
    ensures var h := Apply(g, ApplyDeletion(del));
            && h.bannedPubkeys == g.bannedPubkeys && h.bannedIds == g.bannedIds && h.deletedIds == g.deletedIds
            && (h.Tombstoned(ev) <==> g.Tombstoned(ev) || AuthorDeleted(del, ev))
  {
    hide EventCoord, CoordString, ParseCoord, WellFormed, MarkAll, SameAuthorCoords, Gate.Tombstoned;
    TargetsWellFormed(del.pubkey, del.tags);
    MarkAllMeans(g, SameAuthorCoords(del.pubkey, del.tags), del.createdAt, ev);
    EventCoordWellFormed(ev);
    if EventCoord(ev).Some? {
      TargetsAreNamed(del.pubkey, del.tags, EventCoord(ev).value);
    }
  }

  /** After any history of bans, unbans, deletions and requests, exactly the events it says are blocked. */
  lemma GateIsHistory(history: seq<Action>, ev: Event)
    ensures Run(history).Blocked(ev) <==> ShouldBlock(history, ev)
  {
    hide InForce, AuthorDeleted, Gate.Tombstoned, Run;
    RunParts(history, ev);
  }

  // ----- Serving -----

  /** gateSeq: what a consumer that stops after want events gets from a query result. */
  method GateSeq(g: Gate, results: seq<Event>, want: nat) returns (served: seq<Event>)
    ensures var allowed := Filter((ev: Event) => !g.Blocked(ev), results);
            served == if |allowed| <= want then allowed else allowed[..want]
  {
    hide Gate.Blocked;
    served := [];
    ghost var p := (ev: Event) => !g.Blocked(ev);
    for i := 0 to |results|
      invariant |served| <= want
      invariant served + Filter(p, results[i..]) == Filter(p, results)
    {
      assert results[i..][1..] == results[i + 1..];
      if g.Blocked(results[i]) { continue; }
      if |served| == want { return; }
      served := served + [results[i]];
    }
    assert results[|results|..] == [];
  }

  /** No query that reads the gate after the history serves an event the history blocks. */
  lemma NothingBlockedIsServed(history: seq<Action>, results: seq<Event>, ev: Event)
    requires ev in Filter((e: Event) => !Run(history).Blocked(e), results)
    ensures ev in results && !ShouldBlock(history, ev)
  {
    hide ShouldBlock, Gate.Blocked, Run;
    FilterElems((e: Event) => !Run(history).Blocked(e), results, ev);
    GateIsHistory(history, ev);
  }
}
