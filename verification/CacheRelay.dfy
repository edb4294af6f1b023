/**
 A relay with concordances and authors whose mappings pass every check of a source load (expand_registry.go), one
 mapping each.
 */
module CacheRelay {
  import opened Wrappers
  import opened Sequences
  import opened Ordering
  import opened Text
  import opened Nostr
  import opened Vocab
  import opened VocabParse
  import opened SourceLoading

  /** The address of the owner's concordance with this d, and its source key. */
  function ConcordanceAddress(owner: Hex32, d: string): string {
    CoordString(Coord(KIND_CONCORDANCE, owner, d))
  }

  function ConcordanceKey(owner: Hex32, d: string): string {
    "c:" + ConcordanceAddress(owner, d)
  }

  /** The keys of naddr and npub entities that can have a source. */
  ghost predicate Loadable(key: string) {
    || (exists owner: Hex32, d: string :: d != "" && key == ConcordanceKey(owner, d))
    || exists pk: Hex32 :: key == "p:" + pk
  }

  predicate Ascii(s: string) {
    forall i :: 0 <= i < |s| ==> s[i] < '\U{80}'
  }

  /** Normalisation leaves ASCII text alone. */
  ghost predicate AsciiStays(nfc: string -> string) {
    forall s: string :: Ascii(s) ==> nfc(s) == s
  }

  // ----- What the relay has -----

  function ConcordanceEvent(owner: Hex32, id: Hex32, d: string): Event {
    Event(id, owner, KIND_CONCORDANCE, 1, [["d", d], ["fromScheme", "from"], ["toScheme", "to"]])
  }

  function MemberName(codec: Codec, text: string): string {
    MappingIdentifier(codec.nfc, codec.sha, text, [text + "'"], "exactMatch")
  }

  /** A mapping of the text to the text with a prime, part of the concordance with this address. */
  function MemberEvent(author: Hex32, id: Hex32, codec: Codec, text: string, address: string): Event {
    Event(id, author, KIND_MAPPING, 1, MemberTags(MemberName(codec, text), text, address))
  }

  function MemberTags(name: string, text: string, address: string): seq<Tag> {
    [["d", name], ["relation", "exactMatch"], ["from", text], ["fromScheme", "from"],
     ["toScheme", "to"], ["to", text + "'"], ["a", address, "", "partOf"]]
  }

  function MemberOf(author: Hex32, codec: Codec, text: string, address: string): Mapping {
    Mapping(MemberName(codec, text), "exactMatch", text, [text + "'"], "from", "to", address, author, [])
  }

  /** A relay that holds the sources with these keys; text gives what each maps, ids names the events. */
  function Relay(codec: Codec, ids: string -> Hex32, held: set<string>, text: string -> string): Fetch {
    (q: Request) =>
      match q
      case ConcordanceRequest(owner, d) =>
        var key := ConcordanceKey(owner, d);
        Ok(if key in held then [ConcordanceEvent(owner, ids(key), d)] else [])
      case MemberRequest(authors, address) =>
        Ok(if authors != [] && "c:" + address in held
           then [MemberEvent(authors[0], ids(address), codec, text("c:" + address), address)] else [])
      case AuthorRequest(pk) =>
        Ok(if "p:" + pk in held then [MemberEvent(pk, ids("p:" + pk), codec, text("p:" + pk), "p:" + pk)] else [])
      case ConceptRequest(_) => Ok([])
  }

  // ----- It loads -----

  lemma LatestOfOne(ev: Event)
    ensures Latest([ev]) == [ev]
  {
    hide Less, Address, BestOf, Pick;
    LessIsStrictOrder();
    var best := map[Address(ev) := ev];
    BestOfOne(ev);
    var keys := SortedSeq(Less, best.Keys);
    assert Ascending(Less, [Address(ev)]) && Elems([Address(ev)]) == best.Keys;
    AscendingUnique(Less, keys, [Address(ev)]);
    PickOne(best, Address(ev));
  }

  lemma BestOfOne(ev: Event)
    ensures BestOf([ev]) == map[Address(ev) := ev]
  {
    assert [ev][..0] == [];
  }

  lemma PickOne(best: map<string, Event>, k: string)
    requires k in best
    ensures Pick(best, [k]) == [best[k]]
  {
    assert [k][1..] == [];
  }

  lemma ConcordanceParses(owner: Hex32, id: Hex32, d: string)
    requires d != ""
    ensures ConcordanceOf(ConcordanceEvent(owner, id, d)) ==
            Some(Concordance(ConcordanceAddress(owner, d), owner, "from", "to", [], []))
  {
    hide CoordString;
    var ev := ConcordanceEvent(owner, id, d);
    var t0, t1, t2 := ["d", d], ["fromScheme", "from"], ["toScheme", "to"];
    assert ev.tags == [t0, t1, t2] && ev.tags[1..] == [t1, t2] && [t1, t2][1..] == [t2] && [t2][1..] == [];
    assert First(ev.tags, "d") == Some(d);
    assert First(ev.tags, "fromScheme") == First([t1, t2], "fromScheme") == Some("from");
    assert First(ev.tags, "toScheme") == First([t1, t2], "toScheme") == First([t2], "toScheme") == Some("to");
    assert Select([t2], MaintainerTag) == [] && Select([t1, t2], MaintainerTag) == [] &&
           Select(ev.tags, MaintainerTag) == [];
    assert Select([t2], SchemeTag) == [] && Select([t1, t2], SchemeTag) == [] && Select(ev.tags, SchemeTag) == [];
  }

  /** What one tag adds to a selection. */
  function One(t: Tag, p: Tag -> bool): seq<string> {
    if |t| >= 2 && p(t) then [t[1]] else []
  }

  lemma SelectOne(t: Tag, rest: seq<Tag>, p: Tag -> bool)
    ensures Select([t] + rest, p) == One(t, p) + Select(rest, p)
    ensures Select([], p) == []
  {
    assert ([t] + rest)[0] == t && ([t] + rest)[1..] == rest;
  }

  lemma SelectSeven(t: seq<Tag>, p: Tag -> bool)
    requires |t| == 7
    ensures Select(t, p) == One(t[0], p) + One(t[1], p) + One(t[2], p) + One(t[3], p) + One(t[4], p) + One(t[5],
          p) + One(t[6], p)
  {
    hide Select, One;
    for i := 0 to 7
      invariant Select(t, p) == Ones(t, i, p) + Select(t[i..], p)
    {
      assert t[i..] == [t[i]] + t[i + 1..];
      SelectOne(t[i], t[i + 1..], p);
    }
    assert t[7..] == [];
    SelectOne(t[0], [], p);
    SevenOnes(t, p);
  }

  function Ones(t: seq<Tag>, n: nat, p: Tag -> bool): seq<string>
    requires n <= |t|
  {
    if n == 0 then [] else Ones(t, n - 1, p) + One(t[n - 1], p)
  }

  lemma SevenOnes(t: seq<Tag>, p: Tag -> bool)
    requires |t| == 7
    ensures Ones(t, 7, p) == One(t[0], p) + One(t[1], p) + One(t[2], p) + One(t[3], p) + One(t[4], p) + One(t[5],
          p) + One(t[6], p)
  {
    hide One;
    assert Ones(t, 1, p) == One(t[0], p);
    assert Ones(t, 3, p) == Ones(t, 1, p) + One(t[1], p) + One(t[2], p);
    assert Ones(t, 5, p) == Ones(t, 3, p) + One(t[3], p) + One(t[4], p);
  }

  lemma UniqueOfOne(nfc: string -> string, value: string)
    requires value != "" && nfc(value) == value
    ensures UniqueNFC(nfc, [value]) == [value]
  {
    assert [value][1..] == [];
    assert NonEmpty([value]) == [value];
    assert MapAll(nfc, [value]) == [value];
    assert [] + [value] == [value];
    AppendNewFresh([], [value]);
  }

  lemma NamesDiffer()
    ensures "relation" != "toScheme" && "d" != "a"
  {
    assert "relation"[0] != "toScheme"[0] && "d"[0] != "a"[0];
  }

  lemma OnlyTag(t: seq<Tag>, p: Tag -> bool, i: nat)
    requires |t| == 7 && i < 7 && |t[i]| >= 2 && forall j :: 0 <= j < 7 ==> (p(t[j]) <==> j == i)
    ensures Select(t, p) == [t[i][1]]
  {
    hide Select;
    SelectSeven(t, p);
  }

  lemma NoTag(t: seq<Tag>, p: Tag -> bool)
    requires |t| == 7 && forall j :: 0 <= j < 7 ==> !p(t[j])
    ensures Select(t, p) == []
  {
    hide Select;
    SelectSeven(t, p);
  }

  lemma MemberSingles(name: string, text: string, address: string)
    ensures var tags := MemberTags(name, text, address);
            && Single(tags, "d") == Some(name) && Single(tags, "relation") == Some("exactMatch")
            && Single(tags, "from") == Some(text) && Single(tags, "fromScheme") == Some("from")
            && Single(tags, "toScheme") == Some("to")
  {
    hide Select;
    NamesDiffer();
    var tags := MemberTags(name, text, address);
    OnlyTag(tags, Named("d"), 0);
    OnlyTag(tags, Named("relation"), 1);
    OnlyTag(tags, Named("from"), 2);
    OnlyTag(tags, Named("fromScheme"), 3);
    OnlyTag(tags, Named("toScheme"), 4);
  }

  lemma MemberLists(name: string, text: string, address: string)
    ensures var tags := MemberTags(name, text, address);
            && Select(tags, Named("to")) == [text + "'"]
            && Select(tags, PartOfTag) == [address] && Select(tags, OwnSchemeTag) == []
  {
    hide Select, HasPrefix;
    NamesDiffer();
    var tags := MemberTags(name, text, address);
    OnlyTag(tags, Named("to"), 5);
    OnlyTag(tags, PartOfTag, 6);
    NoTag(tags, OwnSchemeTag);
  }

  lemma MemberParses(author: Hex32, id: Hex32, codec: Codec, text: string, address: string)
    requires address != "" && text != "" && Ascii(text) && AsciiStays(codec.nfc)
    ensures MappingOf(codec.nfc, codec.sha, MemberEvent(author, id, codec, text, address)) ==
            Some(MemberOf(author, codec, text, address))
  {
    hide Select, Single, MappingIdentifier, UniqueNFC, MemberTags, Ascii;
    MemberSingles(MemberName(codec, text), text, address);
    MemberLists(MemberName(codec, text), text, address);
    PrimeAscii(text);
    UniqueOfOne(codec.nfc, text + "'");
    NameNotEmpty(codec, text);
    assert FirstNonEmpty([address]) == address;
  }

  lemma PrimeAscii(text: string)
    requires Ascii(text)
    ensures Ascii(text + "'")
  {
  }

  lemma NameNotEmpty(codec: Codec, text: string)
    ensures MemberName(codec, text) != ""
  {
    hide CanonicalSet;
  }

  lemma MemberIsMember(owner: Hex32, codec: Codec, text: string, address: string)
    ensures MembersAfter(Concordance(address, owner, "from", "to", [], []), [MemberOf(owner, codec, text, address)],
                         {}) == [MemberOf(owner, codec, text, address)]
  {
    hide MappingIdentifier;
    assert [MemberOf(owner, codec, text, address)][1..] == [];
  }

  lemma OneMapping(codec: Codec, ev: Event, m: Mapping)
    requires MappingOf(codec.nfc, codec.sha, ev) == Some(m)
    ensures MappingsAmong(codec, [ev]) == [m]
  {
    hide MappingOf;
    assert [ev][1..] == [];
  }

  lemma KindText()
    ensures Decimal(KIND_CONCORDANCE) == "39741"
  {
    assert Decimal(3) == "3" && Decimal(39) == "39" && Decimal(397) == "397" && Decimal(3974) == "3974";
  }

  lemma KeyIsOwned(codec: Codec, fetch: Fetch, owner: Hex32, d: string)
    ensures SourceOf(codec, fetch, ConcordanceKey(owner, d)) ==
            OwnedConcordance(codec, fetch, ConcordanceAddress(owner, d), owner, d)
  {
    hide CoordString, ParseHex32, OwnedConcordance, Decimal, Cut;
    var address := ConcordanceAddress(owner, d);
    assert ConcordanceKey(owner, d) == "c" + [':'] + address;
    CutAt("c", ':', address);
    CoordStringCuts(Coord(KIND_CONCORDANCE, owner, d));
    KindText();
    KeyParses(owner);
  }

  lemma RelayAnswers(codec: Codec, ids: string -> Hex32, held: set<string>, text: string -> string, owner: Hex32,
                     d: string)
    requires ConcordanceKey(owner, d) in held
    ensures var address, key := ConcordanceAddress(owner, d), ConcordanceKey(owner, d);
            var relay := Relay(codec, ids, held, text);
            && relay(ConcordanceRequest(owner, d)) == Ok([ConcordanceEvent(owner, ids(key), d)])
            && relay(MemberRequest([owner], address)) ==
               Ok([MemberEvent(owner, ids(address), codec, text(key), address)])
  {
    hide ConcordanceAddress, MemberEvent;
  }

  /** Every concordance the relay holds loads, with its one member. */
  lemma Loads(codec: Codec, ids: string -> Hex32, held: set<string>, text: string -> string, owner: Hex32, d: string)
    requires AsciiStays(codec.nfc) && d != "" && ConcordanceKey(owner, d) in held
    requires text(ConcordanceKey(owner, d)) != "" && Ascii(text(ConcordanceKey(owner, d)))
    ensures SourceOf(codec, Relay(codec, ids, held, text), ConcordanceKey(owner, d)) ==
            Ok(Source([], [MemberOf(owner, codec, text(ConcordanceKey(owner, d)), ConcordanceAddress(owner, d))]))
  {
    hide CoordString, Latest, ConcordanceOf, MappingOf, MembersAfter, MappingsAmong, MappingIdentifier, SourceOf, Relay,
      ConcordanceAddress, ConcordanceKey, ConcordanceEvent, MemberEvent, MemberOf, Ascii, AsciiStays;
    var address, key := ConcordanceAddress(owner, d), ConcordanceKey(owner, d);
    KeyIsOwned(codec, Relay(codec, ids, held, text), owner, d);
    RelayAnswers(codec, ids, held, text, owner, d);
    var conc := ConcordanceEvent(owner, ids(key), d);
    var member := MemberEvent(owner, ids(address), codec, text(key), address);
    LatestOfOne(conc);
    LatestOfOne(member);
    ConcordanceParses(owner, ids(key), d);
    AddressNotEmpty(owner, d);
    MemberParses(owner, ids(address), codec, text(key), address);
    OneMapping(codec, member, MemberOf(owner, codec, text(key), address));
    MemberIsMember(owner, codec, text(key), address);
    assert [owner] + Keys([]) == [owner];
  }

  lemma KeyIsAuthor(codec: Codec, fetch: Fetch, pk: Hex32)
    ensures SourceOf(codec, fetch, "p:" + pk) == AuthorSource(codec, fetch, pk)
  {
    hide AuthorSource, Cut;
    assert "p:" + pk == "p" + [':'] + pk;
    CutAt("p", ':', pk);
  }

  lemma AuthorAnswers(codec: Codec, ids: string -> Hex32, held: set<string>, text: string -> string, pk: Hex32)
    requires "p:" + pk in held
    ensures Relay(codec, ids, held, text)(AuthorRequest(pk)) ==
            Ok([MemberEvent(pk, ids("p:" + pk), codec, text("p:" + pk), "p:" + pk)])
  {
    hide MemberEvent;
  }

  /** So does every author it holds. */
  lemma AuthorLoads(codec: Codec, ids: string -> Hex32, held: set<string>, text: string -> string, pk: Hex32)
    requires AsciiStays(codec.nfc) && "p:" + pk in held && text("p:" + pk) != "" && Ascii(text("p:" + pk))
    ensures SourceOf(codec, Relay(codec, ids, held, text), "p:" + pk) ==
            Ok(Source([], [MemberOf(pk, codec, text("p:" + pk), "p:" + pk)]))
  {
    hide Latest, MappingOf, MappingsAmong, MappingIdentifier, SourceOf, Relay, MemberEvent, MemberName, Ascii,
      AsciiStays, ParseHex32;
    var key := "p:" + pk;
    var ev, m := MemberEvent(pk, ids(key), codec, text(key), key), MemberOf(pk, codec, text(key), key);
    KeyIsAuthor(codec, Relay(codec, ids, held, text), pk);
    AuthorAnswers(codec, ids, held, text, pk);
    KeyParses(pk);
    LatestOfOne(ev);
    MemberParses(pk, ids(key), codec, text(key), key);
    OneMapping(codec, ev, m);
    assert [m][1..] == [] && SchemesOf([m]) == [];
  }

  lemma KeyParses(owner: Hex32)
    ensures ParseHex32(owner) == Some(owner)
  {
  }

  lemma AddressNotEmpty(owner: Hex32, d: string)
    ensures ConcordanceAddress(owner, d) != ""
  {
    hide Decimal;
  }

  // ----- What a relay can load -----

  ghost predicate Held(codec: Codec, fetch: Fetch, key: string, text: string) {
    exists author: Hex32, address: string ::
      SourceOf(codec, fetch, key) == Ok(Source([], [MemberOf(author, codec, text, address)]))
  }

  /** Every loadable key has, on the relay that holds it, a source with one mapping of the given text. */
  lemma LoadableLoads(codec: Codec, ids: string -> Hex32, held: set<string>, text: string -> string, key: string)
    requires AsciiStays(codec.nfc) && Loadable(key) && key in held && text(key) != "" && Ascii(text(key))
    ensures Held(codec, Relay(codec, ids, held, text), key, text(key))
  {
    hide SourceOf, Relay, MemberOf, AsciiStays, Ascii, ConcordanceKey;
    if exists pk: Hex32 :: key == "p:" + pk {
      var pk: Hex32 :| key == "p:" + pk;
      AuthorLoads(codec, ids, held, text, pk);
    } else {
      var owner: Hex32, d: string :| d != "" && key == ConcordanceKey(owner, d);
      Loads(codec, ids, held, text, owner, d);
    }
  }
}
