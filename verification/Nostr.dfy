/** Events, kinds and coordinates as NIP-01 defines them. */
module Nostr {
  import opened Wrappers
  import opened Ordering
  import opened Text

  /** nostr.Kind is a 16-bit unsigned number. */
  type Kind = n: nat | n < 0x1_0000

  const KIND_DELETION: Kind := 5

  type Tag = seq<string>

  datatype Event = Event(id: Hex32, pubkey: Hex32, kind: Kind, createdAt: int, tags: seq<Tag>)

  predicate IsAddressable(kind: Kind) {
    30000 <= kind < 40000
  }

  predicate IsReplaceable(kind: Kind) {
    kind == 0 || kind == 3 || 10000 <= kind < 20000
  }

  /** The value of the first tag with this name and at least one value. */
  function First(tags: seq<Tag>, name: string): Option<string> {
    if tags == [] then None
    else if |tags[0]| >= 2 && tags[0][0] == name then Some(tags[0][1])
    else First(tags[1..], name)
  }

  function GetD(ev: Event): string {
    match First(ev.tags, "d")
    case Some(d) => d
    case None => ""
  }

  const KIND_AMB: Kind := 30142
  const KIND_TARGETED_PUBLICATION: Kind := 30222

  /**
   What the validators of every accepted addressable kind demand of d: a value, and of a targeted publication
   a d tag. Only events that came in another way can lack it.
   */
  predicate HasRequiredD(ev: Event) {
    IsAddressable(ev.kind) ==> if ev.kind == KIND_TARGETED_PUBLICATION then First(ev.tags,
          "d").Some? else GetD(ev) != ""
  }

  /** The version of an event that wins: newer, or at the same time the lower id. */
  predicate Newer(a: Event, b: Event) {
    a.createdAt > b.createdAt || (a.createdAt == b.createdAt && Less(a.id, b.id))
  }

  lemma NewerTransitive(a: Event, b: Event, c: Event)
    requires Newer(a, b) && Newer(b, c)
    ensures Newer(a, c)
  {
    hide Less;
    if Less(a.id, b.id) && Less(b.id, c.id) { LessTransitive(a.id, b.id, c.id); }
  }

  lemma NewerConnected(a: Event, b: Event)
    ensures Newer(a, b) || Newer(b, a) || a.id == b.id
    ensures !(Newer(a, b) && Newer(b, a))
  {
    hide Less;
    LessConnected(a.id, b.id);
    LessIrreflexive(a.id);
    if Less(a.id, b.id) && Less(b.id, a.id) { LessTransitive(a.id, b.id, a.id); }
  }

  // ----- Coordinates -----

  datatype Coord = Coord(kind: Kind, pubkey: Hex32, d: string)

  function CoordString(c: Coord): string {
    Decimal(c.kind) + ":" + c.pubkey + ":" + c.d
  }

  /** The coordinate of a replaceable or addressable event; regular events have none. */
  function EventCoord(ev: Event): Option<Coord> {
    if IsAddressable(ev.kind) then Some(Coord(ev.kind, ev.pubkey, GetD(ev)))
    else if IsReplaceable(ev.kind) then Some(Coord(ev.kind, ev.pubkey, ""))
    else None
  }

  function CoordOf(kindText: string, keyText: string, d: string): Option<Coord> {
    match (Atoi(kindText), ParseHex32(keyText))
    case (Some(n), Some(pubkey)) =>
      var kind: Kind := n % 0x1_0000;
      if n < 0 then None
      else if IsAddressable(kind) then Some(Coord(kind, pubkey, d))
      else if IsReplaceable(kind) then Some(Coord(kind, pubkey, ""))
      else None
    case _ => None
  }

  /**
   Reads `kind:pubkey:d` as purge.go reads an 'a' tag. d may hold colons; the kind wraps to 16 bits; a
   replaceable kind has no d; other kinds are refused.
   */
  function ParseCoord(s: string): Option<Coord> {
    match Cut(s, ':')
    case None => None
    case Some((kindText, rest)) =>
      match Cut(rest, ':')
      case None => None
      case Some((keyText, d)) => CoordOf(kindText, keyText, d)
  }

  predicate WellFormed(c: Coord) {
    IsAddressable(c.kind) || (IsReplaceable(c.kind) && c.d == "")
  }

  lemma CoordOfRoundTrip(c: Coord)
    requires WellFormed(c)
    ensures CoordOf(Decimal(c.kind), c.pubkey, c.d) == Some(c)
  {
    AtoiDecimal(c.kind);
    assert c.kind as int % 0x1_0000 == c.kind;
  }

  lemma CoordStringCuts(c: Coord)
    ensures Cut(CoordString(c), ':') == Some((Decimal(c.kind), c.pubkey + [':'] + c.d))
    ensures Cut(c.pubkey + [':'] + c.d, ':') == Some((c.pubkey, c.d))
  {
    assert CoordString(c) == Decimal(c.kind) + [':'] + (c.pubkey + [':'] + c.d);
    CutAt(Decimal(c.kind), ':', c.pubkey + [':'] + c.d);
    CutAt(c.pubkey, ':', c.d);
  }

  /** A coordinate reads back as itself, colons in d included. */
  lemma CoordRoundTrip(c: Coord)
    requires WellFormed(c)
    ensures ParseCoord(CoordString(c)) == Some(c)
  {
    CoordStringCuts(c);
    CoordOfRoundTrip(c);
  }

  /** Different coordinates have different strings, so tombstones never collide. */
  lemma CoordStringInjective(a: Coord, b: Coord)
    requires WellFormed(a) && WellFormed(b) && CoordString(a) == CoordString(b)
    ensures a == b
  {
    CoordRoundTrip(a);
    CoordRoundTrip(b);
  }

  lemma EventCoordWellFormed(ev: Event)
    ensures EventCoord(ev).Some? ==> WellFormed(EventCoord(ev).value) && EventCoord(ev).value.pubkey == ev.pubkey
  {
  }

  lemma ParsedWellFormed(s: string)
    ensures ParseCoord(s).Some? ==> WellFormed(ParseCoord(s).value)
  {
  }
}
