/** Loading one trusted source (expand_registry.go): which concepts and mappings it contributes. */
module SourceLoading {
  import opened Wrappers
  import opened Sequences
  import opened Text
  import opened Nostr
  import opened Vocab
  import opened VocabGraph
  import opened VocabParse

  /** The filters the registry sends to the relays. */
  datatype Request =
    | ConcordanceRequest(owner: Hex32, d: string)
    | MemberRequest(authors: seq<Hex32>, address: string)
    | AuthorRequest(author: Hex32)
    | ConceptRequest(schemes: seq<string>)

  type Fetch = Request -> Result<seq<Event>>

  /** Unicode normalisation and SHA-256 in hex. */
  datatype Codec = Codec(nfc: string -> string, sha: string -> string)

  datatype Source = Source(concepts: seq<Concept>, mappings: seq<Mapping>)

  ghost function MappingsAmong(codec: Codec, latest: seq<Event>): seq<Mapping> {
    if latest == [] then []
    else
      (match MappingOf(codec.nfc, codec.sha, latest[0]) case Some(m) => [m] case None => []) + MappingsAmong(codec,
            latest[1..])
  }

  ghost function ConceptsAmong(codec: Codec, latest: seq<Event>): seq<Concept> {
    if latest == [] then []
    else (match ConceptOf(codec.nfc, latest[0]) case Some(c) => [c] case None => []) + ConceptsAmong(codec, latest[1..])
  }

  function Keys(hexes: seq<string>): seq<Hex32> {
    if hexes == [] then []
    else (match ParseHex32(hexes[0]) case Some(pk) => [pk] case None => []) + Keys(hexes[1..])
  }

  function SchemesOf(ms: seq<Mapping>): seq<string> {
    if ms == [] then [] else ms[0].schemes + SchemesOf(ms[1..])
  }

  ghost function ConceptsFor(codec: Codec, fetch: Fetch, schemes: seq<string>): Result<seq<Concept>> {
    if schemes == [] then Ok([])
    else
      match fetch(ConceptRequest(schemes))
      case Err(e) => Err(e)
      case Ok(evs) =>
        var concepts := ConceptsAmong(codec, Latest(evs));
        if concepts == [] then Err("no concepts for schemes") else Ok(concepts)
  }

  ghost function ConcordanceSource(codec: Codec, fetch: Fetch, address: string): Result<Source> {
    match Cut(address, ':')
    case None => Err("not a concordance address")
    case Some((kind, rest)) =>
      match Cut(rest, ':')
      case None => Err("not a concordance address")
      case Some((key, d)) =>
        if kind != "39741" then Err("not a concordance address")
        else
          match ParseHex32(key)
          case None => Err("invalid public key")
          case Some(owner) => OwnedConcordance(codec, fetch, address, owner, d)
  }

  ghost function OwnedConcordance(codec: Codec, fetch: Fetch, address: string, owner: Hex32,
                                  d: string): Result<Source> {
    match fetch(ConcordanceRequest(owner, d))
    case Err(e) => Err(e)
    case Ok(evs) =>
      if Latest(evs) == [] then Err("concordance not found")
      else
        match ConcordanceOf(Latest(evs)[0])
        case None => Err("invalid concordance event")
        case Some(c) => ConcordanceMembers(codec, fetch, address, owner, c)
  }

  ghost function ConcordanceMembers(codec: Codec, fetch: Fetch, address: string, owner: Hex32,
                                    c: Concordance): Result<Source> {
    match fetch(MemberRequest([owner] + Keys(c.maintainers), address))
    case Err(e) => Err(e)
    case Ok(evs) =>
      var members := MembersAfter(c, MappingsAmong(codec, Latest(evs)), {});
      if members == [] then Err("concordance has no member mappings")
      else
        match ConceptsFor(codec, fetch, c.schemes)
        case Err(e) => Err(e)
        case Ok(concepts) => Ok(Source(concepts, members))
  }

  ghost function AuthorSource(codec: Codec, fetch: Fetch, hexKey: string): Result<Source> {
    match ParseHex32(hexKey)
    case None => Err("invalid public key")
    case Some(pk) =>
      match fetch(AuthorRequest(pk))
      case Err(e) => Err(e)
      case Ok(evs) =>
        var mappings := MappingsAmong(codec, Latest(evs));
        if mappings == [] then Err("author has no mappings")
        else
          match ConceptsFor(codec, fetch, AppendNew([], SchemesOf(mappings)))
          case Err(e) => Err(e)
          case Ok(concepts) => Ok(Source(concepts, mappings))
  }

  /** A key is `c:<concordance address>` or `p:<author>`. */
  ghost function SourceOf(codec: Codec, fetch: Fetch, key: string): Result<Source> {
    match Cut(key, ':')
    case Some((kind, value)) =>
      if kind == "c" then ConcordanceSource(codec, fetch, value)
      else if kind == "p" then AuthorSource(codec, fetch, value)
      else Err("unknown source")
    case None =>
      if key == "c" then ConcordanceSource(codec, fetch, "")
      else if key == "p" then AuthorSource(codec, fetch, "")
      else Err("unknown source")
  }

  // ----- The loaders -----

  method ParseMappings(codec: Codec, evs: seq<Event>) returns (out: seq<Mapping>)
    ensures out == MappingsAmong(codec, Latest(evs))
  {
    hide MappingOf, Latest;
    var latest := LatestByAddress(evs);
    out := [];
    for i := 0 to |latest|
      invariant out + MappingsAmong(codec, latest[i..]) == MappingsAmong(codec, latest)
    {
      assert latest[i..][1..] == latest[i + 1..];
      var m := ParseMapping(codec.nfc, codec.sha, latest[i]);
      if m.Some? { out := out + [m.value]; }
    }
    assert latest[|latest|..] == [];
  }

  method LoadConcepts(codec: Codec, fetch: Fetch, schemes: seq<string>) returns (r: Result<seq<Concept>>)
    ensures r == ConceptsFor(codec, fetch, schemes)
  {
    hide Latest, ConceptsAmong;
    if |schemes| == 0 { return Ok([]); }
    var evs := fetch(ConceptRequest(schemes));
    if evs.Err? { return Err(evs.message); }
    var latest := LatestByAddress(evs.value);
    var out := ParseConcepts(codec, latest);
    if |out| == 0 { return Err("no concepts for schemes"); }
    return Ok(out);
  }

  lemma ConceptsStep(codec: Codec, latest: seq<Event>, i: nat)
    requires i < |latest|
    ensures ConceptsAmong(codec, latest[i..]) ==
            (match ConceptOf(codec.nfc, latest[i]) case Some(c) => [c] case None => []) + ConceptsAmong(codec,
                  latest[i + 1..])
  {
    hide ConceptOf;
    assert latest[i..][0] == latest[i] && latest[i..][1..] == latest[i + 1..];
  }

  lemma NoConcepts(codec: Codec)
    ensures ConceptsAmong(codec, []) == []
  {
  }

  method ParseConcepts(codec: Codec, latest: seq<Event>) returns (out: seq<Concept>)
    ensures out == ConceptsAmong(codec, latest)
  {
    hide ConceptOf, ConceptsAmong;
    out := [];
    for i := 0 to |latest|
      invariant out + ConceptsAmong(codec, latest[i..]) == ConceptsAmong(codec, latest)
    {
      ConceptsStep(codec, latest, i);
      var c := ParseConcept(codec.nfc, latest[i]);
      if c.Some? { out := out + [c.value]; }
    }
    NoConcepts(codec);
    assert latest[|latest|..] == [];
  }

  method LoadConcordance(codec: Codec, fetch: Fetch, address: string) returns (r: Result<Source>)
    ensures r == ConcordanceSource(codec, fetch, address)
  {
    hide Cut, Latest, ConcordanceOf, MappingsAmong, ConceptsFor, MembersAfter, ParseHex32;
    var head := Cut(address, ':');
    if head.None? { return Err("not a concordance address"); }
    var tail := Cut(head.value.1, ':');
    if tail.None? || head.value.0 != "39741" { return Err("not a concordance address"); }
    var owner := ParseHex32(tail.value.0);
    if owner.None? { return Err("invalid public key"); }
    var evs := fetch(ConcordanceRequest(owner.value, tail.value.1));
    if evs.Err? { return Err(evs.message); }
    var latest := LatestByAddress(evs.value);
    if |latest| == 0 { return Err("concordance not found"); }
    var c := ParseConcordance(latest[0]);
    if c.None? { return Err("invalid concordance event"); }
    var authors := ParseMaintainers(owner.value, c.value.maintainers);
    var mevs := fetch(MemberRequest(authors, address));
    if mevs.Err? { return Err(mevs.message); }
    var mappings := ParseMappings(codec, mevs.value);
    var members := Members(c.value, mappings);
    if |members| == 0 { return Err("concordance has no member mappings"); }
    var concepts := LoadConcepts(codec, fetch, c.value.schemes);
    if concepts.Err? { return Err(concepts.message); }
    return Ok(Source(concepts.value, members));
  }

  method ParseMaintainers(owner: Hex32, maintainers: seq<string>) returns (authors: seq<Hex32>)
    ensures authors == [owner] + Keys(maintainers)
  {
    hide ParseHex32;
    authors := [owner];
    for i := 0 to |maintainers|
      invariant authors + Keys(maintainers[i..]) == [owner] + Keys(maintainers)
    {
      assert maintainers[i..][1..] == maintainers[i + 1..];
      var pk := ParseHex32(maintainers[i]);
      if pk.Some? { authors := authors + [pk.value]; }
    }
    assert maintainers[|maintainers|..] == [];
  }

  method LoadAuthor(codec: Codec, fetch: Fetch, hexKey: string) returns (r: Result<Source>)
    ensures r == AuthorSource(codec, fetch, hexKey)
  {
    hide Latest, MappingsAmong, ConceptsFor, ParseHex32;
    var pk := ParseHex32(hexKey);
    if pk.None? { return Err("invalid public key"); }
    var evs := fetch(AuthorRequest(pk.value));
    if evs.Err? { return Err(evs.message); }
    var mappings := ParseMappings(codec, evs.value);
    if |mappings| == 0 { return Err("author has no mappings"); }
    var schemes := CollectSchemes(mappings);
    var concepts := LoadConcepts(codec, fetch, schemes);
    if concepts.Err? { return Err(concepts.message); }
    return Ok(Source(concepts.value, mappings));
  }

  method CollectSchemes(mappings: seq<Mapping>) returns (schemes: seq<string>)
    ensures schemes == AppendNew([], SchemesOf(mappings))
  {
    schemes := [];
    var seen := {};
    for i := 0 to |mappings|
      invariant seen == Elems(schemes)
      invariant AppendNew(schemes, SchemesOf(mappings[i..])) == AppendNew([], SchemesOf(mappings))
    {
      assert mappings[i..][1..] == mappings[i + 1..];
      AppendNewConcat(schemes, mappings[i].schemes, SchemesOf(mappings[i + 1..]));
      schemes, seen := Graph.AddUnseen(schemes, seen, mappings[i].schemes);
    }
    assert mappings[|mappings|..] == [];
  }

  method Load(codec: Codec, fetch: Fetch, key: string) returns (r: Result<Source>)
    ensures r == SourceOf(codec, fetch, key)
  {
    hide ConcordanceSource, AuthorSource, Cut;
    var cut := Cut(key, ':');
    var kind, value := if cut.Some? then cut.value.0 else key, if cut.Some? then cut.value.1 else "";
    if kind == "c" {
      r := LoadConcordance(codec, fetch, value);
    } else if kind == "p" {
      r := LoadAuthor(codec, fetch, value);
    } else {
      r := Err("unknown source");
    }
  }

  // ----- Independence of the order in which events are fetched -----

  /** The same events in any order, or the same error. */
  ghost predicate SameAnswers(a: Fetch, b: Fetch) {
    forall q :: match (a(q), b(q))
                case (Ok(x), Ok(y)) => Elems(x) == Elems(y) && IdsDetermine(x)
                case (Err(x), Err(y)) => x == y
                case _ => false
  }

  lemma SameLatest(a: Fetch, b: Fetch, q: Request)
    requires SameAnswers(a, b)
    ensures a(q).Err? ==> a(q) == b(q)
    ensures a(q).Ok? ==> b(q).Ok? && Latest(a(q).value) == Latest(b(q).value)
  {
    hide Latest, IdsDetermine;
    if a(q).Ok? { LatestOrderIndependent(a(q).value, b(q).value); }
  }

  lemma SameConcepts(codec: Codec, a: Fetch, b: Fetch, schemes: seq<string>)
    requires SameAnswers(a, b)
    ensures ConceptsFor(codec, a, schemes) == ConceptsFor(codec, b, schemes)
  {
    hide Latest, SameAnswers;
    SameLatest(a, b, ConceptRequest(schemes));
  }

  lemma SameMembers(codec: Codec, a: Fetch, b: Fetch, address: string, owner: Hex32, c: Concordance)
    requires SameAnswers(a, b)
    ensures ConcordanceMembers(codec, a, address, owner, c) == ConcordanceMembers(codec, b, address, owner, c)
  {
    hide Latest, SameAnswers, MembersAfter, ConceptsFor, MappingsAmong;
    SameLatest(a, b, MemberRequest([owner] + Keys(c.maintainers), address));
    SameConcepts(codec, a, b, c.schemes);
  }

  /** A source loads the same concepts and mappings, in the same order, however the fetched events were ordered. */
  lemma SourceOrderIndependent(codec: Codec, a: Fetch, b: Fetch, key: string)
    requires SameAnswers(a, b)
    ensures SourceOf(codec, a, key) == SourceOf(codec, b, key)
  {
    forall address ensures ConcordanceSource(codec, a, address) == ConcordanceSource(codec, b, address) {
      SameConcordance(codec, a, b, address);
    }
    forall hexKey ensures AuthorSource(codec, a, hexKey) == AuthorSource(codec, b, hexKey) {
      SameAuthor(codec, a, b, hexKey);
    }
    hide ConcordanceSource, AuthorSource, Cut, SameAnswers;
  }

  lemma SameConcordance(codec: Codec, a: Fetch, b: Fetch, address: string)
    requires SameAnswers(a, b)
    ensures ConcordanceSource(codec, a, address) == ConcordanceSource(codec, b, address)
  {
    hide Latest, SameAnswers, ConcordanceMembers, ConcordanceOf, Cut, ParseHex32;
    forall owner, d
      ensures OwnedConcordance(codec, a, address, owner, d) == OwnedConcordance(codec, b, address, owner, d)
    {
      SameLatest(a, b, ConcordanceRequest(owner, d));
      forall c
        ensures ConcordanceMembers(codec, a, address, owner, c) == ConcordanceMembers(codec, b, address, owner, c)
      {
        SameMembers(codec, a, b, address, owner, c);
      }
    }
  }

  lemma SameAuthor(codec: Codec, a: Fetch, b: Fetch, hexKey: string)
    requires SameAnswers(a, b)
    ensures AuthorSource(codec, a, hexKey) == AuthorSource(codec, b, hexKey)
  {
    hide Latest, SameAnswers, MappingsAmong, ConceptsFor, ParseHex32;
    if ParseHex32(hexKey).Some? {
      var pk := ParseHex32(hexKey).value;
      SameLatest(a, b, AuthorRequest(pk));
      if a(AuthorRequest(pk)).Ok? {
        SameConcepts(codec, a, b, AppendNew([], SchemesOf(MappingsAmong(codec, Latest(a(AuthorRequest(pk)).value)))));
      }
    }
  }
}
