/**
 Reading concepts, mappings and concordances from events (vocabmap/parse.go). Unicode normalisation and
 SHA-256 are the parameters nfc and sha.
 */
module VocabParse {
  import opened Wrappers
  import opened Sequences
  import opened Ordering
  import opened Text
  import opened Nostr
  import opened Vocab

  const KIND_CONCEPT: Kind := 39738
  const KIND_MAPPING: Kind := 39740
  const KIND_CONCORDANCE: Kind := 39741
  const SKOS := "http://www.w3.org/2004/02/skos/core#"

  function Address(ev: Event): string {
    CoordString(Coord(ev.kind, ev.pubkey, GetD(ev)))
  }

  // ----- The newest event of each address -----

  /** Ids are hashes of the events they name. */
  ghost predicate IdsDetermine(evs: seq<Event>) {
    forall e, f :: e in evs && f in evs && e.id == f.id ==> e == f
  }

  function BestOf(evs: seq<Event>): map<string, Event> {
    if evs == [] then map[]
    else
      var best, ev := BestOf(evs[..|evs| - 1]), evs[|evs| - 1];
      if Address(ev) !in best || Newer(ev, best[Address(ev)]) then best[Address(ev) := ev] else best
  }

  function Pick(best: map<string, Event>, keys: seq<string>): seq<Event>
    requires forall k :: k in keys ==> k in best
  {
    if keys == [] then [] else [best[keys[0]]] + Pick(best, keys[1..])
  }

  ghost function Latest(evs: seq<Event>): seq<Event> {
    LessIsStrictOrder();
    var keys := SortedSeq(Less, BestOf(evs).Keys);
    assert forall k :: k in keys ==> k in Elems(keys);
    Pick(BestOf(evs), keys)
  }

  method LatestByAddress(evs: seq<Event>) returns (out: seq<Event>)
    ensures out == Latest(evs)
  {
    var best := map[];
    for i := 0 to |evs|
      invariant best == BestOf(evs[..i])
    {
      assert evs[..i + 1][..i] == evs[..i];
      var a := Address(evs[i]);
      if a !in best || Newer(evs[i], best[a]) {
        best := best[a := evs[i]];
      }
    }
    assert evs[..|evs|] == evs;
    var keys := KeysInSomeOrder(best.Keys);
    LessIsStrictOrder();
    SortIsSortedSeq(Less, keys);
    keys := Sort(Less, keys);
    assert forall k :: k in keys ==> k in Elems(keys);
    out := Collect(best, keys);
  }

  method Collect(best: map<string, Event>, keys: seq<string>) returns (out: seq<Event>)
    requires forall k :: k in keys ==> k in best
    ensures out == Pick(best, keys)
  {
    out := [];
    for i := 0 to |keys|
      invariant out + Pick(best, keys[i..]) == Pick(best, keys)
    {
      assert keys[i..][1..] == keys[i + 1..];
      out := out + [best[keys[i]]];
    }
  }

  /** Ranging over a Go map visits its keys in an unspecified order. */
  method KeysInSomeOrder(keys: set<string>) returns (list: seq<string>)
    ensures NoDup(list) && Elems(list) == keys
  {
    list := [];
    var todo := keys;
    while todo != {}
      invariant todo <= keys && Elems(list) == keys - todo && NoDup(list)
      decreases todo
    {
      var k :| k in todo;
      ElemsConcat(list, [k]);
      assert forall x :: x in list ==> x in Elems(list);
      list := list + [k];
      todo := todo - {k};
    }
  }

  /** best holds the events of evs that no other event of their address beats. */
  ghost predicate IsBest(evs: seq<Event>, best: map<string, Event>) {
    && (forall e :: e in evs ==> Address(e) in best)
    && (forall a :: a in best ==> best[a] in evs && Address(best[a]) == a)
    && (forall e :: e in evs ==> e == best[Address(e)] || Newer(best[Address(e)], e))
  }

  lemma {:induction false} BestIsNewest(evs: seq<Event>)
    requires IdsDetermine(evs)
    ensures IsBest(evs, BestOf(evs))
    decreases |evs|
  {
    if evs != [] {
      var init, ev := evs[..|evs| - 1], evs[|evs| - 1];
      assert evs == init + [ev];
      BestIsNewest(init);
      BestStep(init, ev, BestOf(init));
    }
  }

  lemma BestStep(init: seq<Event>, ev: Event, best: map<string, Event>)
    requires IsBest(init, best) && IdsDetermine(init + [ev])
    ensures IsBest(init + [ev], if Address(ev) !in best ||
                   Newer(ev, best[Address(ev)]) then best[Address(ev) := ev] else best)
  {
    hide Address, Newer;
    var evs := init + [ev];
    assert forall e :: e in evs <==> e in init || e == ev;
    if Address(ev) in best {
      var held := best[Address(ev)];
      NewerConnected(ev, held);
      if Newer(ev, held) {
        forall e | e in init && Newer(held, e) ensures Newer(ev, e) {
          NewerTransitive(ev, held, e);
        }
      }
    }
  }

  lemma BestOrderIndependent(a: seq<Event>, b: seq<Event>)
    requires IdsDetermine(a) && Elems(a) == Elems(b)
    ensures BestOf(a) == BestOf(b)
  {
    assert forall e :: e in a <==> e in Elems(a);
    assert forall e :: e in b <==> e in Elems(b);
    BestIsNewest(a);
    BestIsNewest(b);
    forall k | k in BestOf(a) ensures k in BestOf(b) && BestOf(a)[k] == BestOf(b)[k] {
      assert BestOf(a)[k] in b;
      assert BestOf(b)[k] in a;
      NewerConnected(BestOf(a)[k], BestOf(b)[k]);
    }
    forall k | k in BestOf(b) ensures k in BestOf(a) {
      assert BestOf(b)[k] in a;
    }
  }

  /** The result does not depend on the order, or the repetition, of the fetched events. */
  lemma LatestOrderIndependent(a: seq<Event>, b: seq<Event>)
    requires IdsDetermine(a) && Elems(a) == Elems(b)
    ensures Latest(a) == Latest(b)
  {
    BestOrderIndependent(a, b);
  }

  lemma {:induction false} PickMembers(best: map<string, Event>, keys: seq<string>, ev: Event)
    requires forall k :: k in keys ==> k in best
    ensures ev in Pick(best, keys) <==> exists k :: k in keys && best[k] == ev
    decreases |keys|
  {
    if keys != [] {
      assert keys == [keys[0]] + keys[1..];
      PickMembers(best, keys[1..], ev);
    }
  }

  /** Exactly the events that no other event of their address beats. */
  lemma LatestIsNewest(evs: seq<Event>, ev: Event)
    requires IdsDetermine(evs)
    ensures ev in Latest(evs) <==> ev in evs && forall f :: f in evs && Address(f) == Address(ev) && f != ev ==>
              Newer(ev, f)
  {
    BestIsNewest(evs);
    LessIsStrictOrder();
    var best := BestOf(evs);
    var keys := SortedSeq(Less, best.Keys);
    assert forall k :: k in keys <==> k in Elems(keys);
    PickMembers(best, keys, ev);
    if ev in evs && ev != best[Address(ev)] {
      var b := best[Address(ev)];
      assert b in evs;
      NewerConnected(ev, b);
    }
  }

  // ----- Mapping identifiers -----

  function NonEmpty(values: seq<string>): seq<string> {
    Filter((v: string) => v != "", values)
  }

  function MapAll(f: string -> string, values: seq<string>): (r: seq<string>)
    ensures |r| == |values| && forall i :: 0 <= i < |values| ==> r[i] == f(values[i])
  {
    if values == [] then [] else [f(values[0])] + MapAll(f, values[1..])
  }

  function UniqueNFC(nfc: string -> string, values: seq<string>): seq<string> {
    AppendNew([], MapAll(nfc, NonEmpty(values)))
  }

  method ComputeUniqueNFC(nfc: string -> string, values: seq<string>) returns (out: seq<string>)
    ensures out == UniqueNFC(nfc, values)
  {
    var seen := {};
    out := [];
    for i := 0 to |values|
      invariant seen == Elems(out)
      invariant AppendNew(out, MapAll(nfc, NonEmpty(values[i..]))) == UniqueNFC(nfc, values)
    {
      assert values[i..][1..] == values[i + 1..];
      if values[i] == "" { continue; }
      var v := nfc(values[i]);
      assert MapAll(nfc, NonEmpty(values[i..]))[1..] == MapAll(nfc, NonEmpty(values[i + 1..]));
      if v !in seen {
        ElemsConcat(out, [v]);
        seen := seen + {v};
        out := out + [v];
      }
    }
  }

  /** Normalised, without duplicates, sorted, joined with "|". */
  function CanonicalSet(nfc: string -> string, values: seq<string>): string {
    Join(Sort(Less, UniqueNFC(nfc, values)), "|")
  }

  function MappingIdentifier(nfc: string -> string, sha: string -> string, from: string, to: seq<string>,
                             relation: string): string {
    "mapping:" + sha(CanonicalSet(nfc, [from]) + " " + SKOS + relation + " " + CanonicalSet(nfc, to))
  }

  ghost function NormalForms(nfc: string -> string, values: seq<string>): set<string> {
    set v | v in values && v != "" :: nfc(v)
  }

  lemma UniqueNFCMembers(nfc: string -> string, values: seq<string>)
    ensures NoDup(UniqueNFC(nfc, values))
    ensures Elems(UniqueNFC(nfc, values)) == NormalForms(nfc, values)
  {
    var keep := NonEmpty(values);
    forall v ensures v in keep <==> v in values && v != "" {
      FilterElems((w: string) => w != "", values, v);
    }
    var mapped := MapAll(nfc, keep);
    AppendNewElems([], mapped);
    AppendNewNoDup([], mapped);
    forall x | x in NormalForms(nfc, values) ensures x in mapped {
      var v :| v in keep && nfc(v) == x;
      var i :| 0 <= i < |keep| && keep[i] == v;
      assert mapped[i] == x;
    }
    forall x | x in mapped ensures x in NormalForms(nfc, values) {
      var i :| 0 <= i < |mapped| && mapped[i] == x;
      assert keep[i] in keep;
    }
    assert Elems(mapped) == NormalForms(nfc, values);
  }

  /** The identifier depends only on the set of normal forms: not on order, repetition or encoding. */
  lemma IdentifierIsSameness(nfc: string -> string, sha: string -> string, from: string, a: seq<string>,
                             b: seq<string>, relation: string)
    requires NormalForms(nfc, a) == NormalForms(nfc, b)
    ensures MappingIdentifier(nfc, sha, from, a, relation) == MappingIdentifier(nfc, sha, from, b, relation)
  {
    UniqueNFCMembers(nfc, a);
    UniqueNFCMembers(nfc, b);
    LessIsStrictOrder();
    SortIsSortedSeq(Less, UniqueNFC(nfc, a));
    SortIsSortedSeq(Less, UniqueNFC(nfc, b));
  }

  // ----- Parsing -----

  /** The values of the tags p selects. */
  function Select(tags: seq<Tag>, p: Tag -> bool): seq<string> {
    if tags == [] then []
    else if |tags[0]| >= 2 && p(tags[0]) then [tags[0][1]] + Select(tags[1..], p)
    else Select(tags[1..], p)
  }

  function Named(name: string): Tag -> bool {
    (t: Tag) => t != [] && t[0] == name
  }

  /** The value of a tag that occurs exactly once. */
  function Single(tags: seq<Tag>, name: string): Option<string> {
    var values := Select(tags, Named(name));
    if |values| == 1 then Some(values[0]) else None
  }

  predicate SchemeTag(t: Tag) {
    |t| >= 2 && t[0] == "a" && HasPrefix(t[1], "39737:")
  }

  predicate PartOfTag(t: Tag) {
    |t| >= 4 && t[0] == "a" && t[3] == "partOf"
  }

  predicate OwnSchemeTag(t: Tag) {
    SchemeTag(t) && !PartOfTag(t)
  }

  predicate MaintainerTag(t: Tag) {
    |t| >= 4 && t[0] == "p" && t[3] == "maintainer"
  }

  predicate BroaderTag(t: Tag) {
    |t| >= 4 && t[0] == "a" && HasPrefix(t[1], "39738:") && t[3] == "broader"
  }

  predicate NarrowerTag(t: Tag) {
    |t| >= 4 && t[0] == "a" && HasPrefix(t[1], "39738:") && t[3] == "narrower"
  }

  function ConceptOf(nfc: string -> string, ev: Event): Option<Concept> {
    if ev.kind != KIND_CONCEPT || GetD(ev) == "" then None
    else
      var address := Address(ev);
      var named := First(ev.tags, "i");
      var id := if named.Some? && named.value != "" then nfc(named.value) else "nostr:" + address;
      Some(Concept(id, address, Select(ev.tags, SchemeTag), Select(ev.tags, BroaderTag), Select(ev.tags, NarrowerTag)))
  }

  method ParseConcept(nfc: string -> string, ev: Event) returns (c: Option<Concept>)
    ensures c == ConceptOf(nfc, ev)
  {
    if ev.kind != KIND_CONCEPT || GetD(ev) == "" { return None; }
    var id := "nostr:" + Address(ev);
    var i := First(ev.tags, "i");
    if i.Some? && i.value != "" { id := nfc(i.value); }
    var schemes, broader, narrower := ReadConceptLinks(ev.tags);
    return Some(Concept(id, Address(ev), schemes, broader, narrower));
  }

  method ReadConceptLinks(tags: seq<Tag>) returns (schemes: seq<string>, broader: seq<string>, narrower: seq<string>)
    ensures schemes == Select(tags, SchemeTag)
    ensures broader == Select(tags, BroaderTag)
    ensures narrower == Select(tags, NarrowerTag)
  {
    schemes, broader, narrower := [], [], [];
    for k := 0 to |tags|
      invariant schemes + Select(tags[k..], SchemeTag) == Select(tags, SchemeTag)
      invariant broader + Select(tags[k..], BroaderTag) == Select(tags, BroaderTag)
      invariant narrower + Select(tags[k..], NarrowerTag) == Select(tags, NarrowerTag)
    {
      var t := tags[k];
      assert tags[k..][0] == t && tags[k..][1..] == tags[k + 1..];
      if |t| < 2 || t[0] != "a" { continue; }
      var marker := if |t| >= 4 then t[3] else "";
      PrefixesDiffer(t[1]);
      if HasPrefix(t[1], "39737:") {
        schemes := schemes + [t[1]];
      } else if HasPrefix(t[1], "39738:") && marker == "broader" {
        broader := broader + [t[1]];
      } else if HasPrefix(t[1], "39738:") && marker == "narrower" {
        narrower := narrower + [t[1]];
      }
    }
    assert tags[|tags|..] == [];
  }

  lemma PrefixesDiffer(s: string)
    ensures !(HasPrefix(s, "39737:") && HasPrefix(s, "39738:"))
  {
    if HasPrefix(s, "39737:") { assert s[4] == '7'; }
  }

  predicate KnownRelation(relation: string) {
    relation in {"exactMatch", "closeMatch", "broadMatch", "narrowMatch", "relatedMatch"}
  }

  function MappingOf(nfc: string -> string, sha: string -> string, ev: Event): Option<Mapping> {
    if ev.kind != KIND_MAPPING then None
    else
      match (Single(ev.tags, "d"), Single(ev.tags, "relation"), Single(ev.tags, "from"),
             Single(ev.tags, "fromScheme"), Single(ev.tags, "toScheme"))
      case (Some(d), Some(relation), Some(from), Some(fromScheme), Some(toScheme)) =>
        var to := UniqueNFC(nfc, Select(ev.tags, Named("to")));
        if d == "" || from == "" || fromScheme == "" || toScheme == "" || !KnownRelation(relation) then None
        else if to == [] || MappingIdentifier(nfc, sha, from, to, relation) != d then None
        else
          var partOf := Select(ev.tags, PartOfTag);
          Some(Mapping(d, relation, nfc(from), to, fromScheme, toScheme, FirstNonEmpty(partOf), ev.pubkey,
                       Select(ev.tags, OwnSchemeTag)))
      case _ => None
  }

  method ParseMapping(nfc: string -> string, sha: string -> string, ev: Event) returns (r: Option<Mapping>)
    ensures r == MappingOf(nfc, sha, ev)
  {
    if ev.kind != KIND_MAPPING { return None; }
    var d, relation, from := Single(ev.tags, "d"), Single(ev.tags, "relation"), Single(ev.tags, "from");
    var fromScheme, toScheme := Single(ev.tags, "fromScheme"), Single(ev.tags, "toScheme");
    if d.None? || relation.None? || from.None? || fromScheme.None? || toScheme.None? { return None; }
    if d.value == "" || from.value == "" || fromScheme.value == "" || toScheme.value == "" ||
      !KnownRelation(relation.value) {
      return None;
    }
    var to := ComputeUniqueNFC(nfc, Select(ev.tags, Named("to")));
    if |to| == 0 || MappingIdentifier(nfc, sha, from.value, to, relation.value) != d.value { return None; }
    var partOf, schemes := ReadMappingLinks(ev.tags);
    return Some(Mapping(d.value, relation.value, nfc(from.value), to, fromScheme.value, toScheme.value, partOf,
                        ev.pubkey, schemes));
  }

  method ReadMappingLinks(tags: seq<Tag>) returns (partOf: string, schemes: seq<string>)
    ensures partOf == FirstNonEmpty(Select(tags, PartOfTag))
    ensures schemes == Select(tags, OwnSchemeTag)
  {
    partOf, schemes := "", [];
    for k := 0 to |tags|
      invariant FirstNonEmpty(Select(tags,
                                     PartOfTag)) == if partOf != "" then partOf else FirstNonEmpty(Select(tags[k..],
                                           PartOfTag))
      invariant schemes + Select(tags[k..], OwnSchemeTag) == Select(tags, OwnSchemeTag)
    {
      var t := tags[k];
      assert tags[k..][0] == t && tags[k..][1..] == tags[k + 1..];
      if |t| < 2 || t[0] != "a" { continue; }
      if |t| >= 4 && t[3] == "partOf" {
        if partOf == "" { partOf := t[1]; }
      } else if HasPrefix(t[1], "39737:") {
        schemes := schemes + [t[1]];
      }
    }
    assert tags[|tags|..] == [];
  }

  function FirstNonEmpty(values: seq<string>): string {
    if values == [] then "" else if values[0] != "" then values[0] else FirstNonEmpty(values[1..])
  }

  function ConcordanceOf(ev: Event): Option<Concordance> {
    if ev.kind != KIND_CONCORDANCE then None
    else
      match (First(ev.tags, "d"), First(ev.tags, "fromScheme"), First(ev.tags, "toScheme"))
      case (Some(d), Some(fromScheme), Some(toScheme)) =>
        if d == "" || fromScheme == "" || toScheme == "" then None
        else
          Some(Concordance(Address(ev), ev.pubkey, fromScheme, toScheme,
                           Select(ev.tags, MaintainerTag), Select(ev.tags, SchemeTag)))
      case _ => None
  }

  method ParseConcordance(ev: Event) returns (c: Option<Concordance>)
    ensures c == ConcordanceOf(ev)
  {
    if ev.kind != KIND_CONCORDANCE { return None; }
    var d, fromScheme, toScheme := First(ev.tags, "d"), First(ev.tags, "fromScheme"), First(ev.tags, "toScheme");
    if d.None? || fromScheme.None? || toScheme.None? || d.value == "" || fromScheme.value == "" ||
      toScheme.value == "" {
      return None;
    }
    var maintainers, schemes := ReadConcordanceTags(ev.tags);
    return Some(Concordance(Address(ev), ev.pubkey, fromScheme.value, toScheme.value, maintainers, schemes));
  }

  method ReadConcordanceTags(tags: seq<Tag>) returns (maintainers: seq<string>, schemes: seq<string>)
    ensures maintainers == Select(tags, MaintainerTag)
    ensures schemes == Select(tags, SchemeTag)
  {
    maintainers, schemes := [], [];
    for k := 0 to |tags|
      invariant maintainers + Select(tags[k..], MaintainerTag) == Select(tags, MaintainerTag)
      invariant schemes + Select(tags[k..], SchemeTag) == Select(tags, SchemeTag)
    {
      var t := tags[k];
      assert tags[k..][0] == t && tags[k..][1..] == tags[k + 1..];
      if |t| >= 4 && t[0] == "p" && t[3] == "maintainer" {
        maintainers := maintainers + [t[1]];
      } else if |t| >= 2 && t[0] == "a" && HasPrefix(t[1], "39737:") {
        schemes := schemes + [t[1]];
      }
    }
    assert tags[|tags|..] == [];
  }

  /**
   A mapping that passes carries the identifier of its own normalised members, so any two of them with the
   same relation, source and target set have the same d.
   */
  lemma MappingNamesItself(nfc: string -> string, sha: string -> string, ev: Event)
    requires forall s :: nfc(nfc(s)) == nfc(s)
    requires forall s :: s != "" ==> nfc(s) != ""
    ensures var m := MappingOf(nfc, sha, ev);
            m.Some? ==> m.value.to != [] && NoDup(m.value.to) &&
                        m.value.d == MappingIdentifier(nfc, sha, m.value.from, m.value.to, m.value.relation)
  {
    var m := MappingOf(nfc, sha, ev);
    if m.Some? {
      var from := Single(ev.tags, "from").value;
      UniqueNFCMembers(nfc, Select(ev.tags, Named("to")));
      UniqueNFCMembers(nfc, [from]);
      UniqueNFCMembers(nfc, [nfc(from)]);
      assert NormalForms(nfc, [from]) == {nfc(from)} by { assert from in [from]; }
      assert NormalForms(nfc, [nfc(from)]) == {nfc(from)} by { assert nfc(from) in [nfc(from)]; }
      LessIsStrictOrder();
      SortIsSortedSeq(Less, UniqueNFC(nfc, [from]));
      SortIsSortedSeq(Less, UniqueNFC(nfc, [nfc(from)]));
    }
  }

  // ----- Membership in a concordance -----

  predicate Eligible(c: Concordance, m: Mapping) {
    && m.partOf == c.address
    && (m.author == c.author || m.author in c.maintainers)
    && m.fromScheme == c.fromScheme && m.toScheme == c.toScheme
  }

  /** The eligible mappings, the first of each d. */
  function MembersAfter(c: Concordance, ms: seq<Mapping>, seen: set<string>): seq<Mapping> {
    if ms == [] then []
    else if Eligible(c, ms[0]) && ms[0].d !in seen then [ms[0]] + MembersAfter(c, ms[1..], seen + {ms[0].d})
    else MembersAfter(c, ms[1..], seen)
  }

  method Members(c: Concordance, ms: seq<Mapping>) returns (out: seq<Mapping>)
    ensures out == MembersAfter(c, ms, {})
  {
    var allowed := {c.author};
    for i := 0 to |c.maintainers|
      invariant allowed == {c.author} + Elems(c.maintainers[..i])
    {
      assert c.maintainers[..i + 1] == c.maintainers[..i] + [c.maintainers[i]];
      ElemsConcat(c.maintainers[..i], [c.maintainers[i]]);
      allowed := allowed + {c.maintainers[i]};
    }
    assert c.maintainers[..|c.maintainers|] == c.maintainers;
    var seen := {};
    out := [];
    for i := 0 to |ms|
      invariant out + MembersAfter(c, ms[i..], seen) == MembersAfter(c, ms, {})
    {
      assert ms[i..][1..] == ms[i + 1..];
      var m := ms[i];
      if m.partOf != c.address || m.author !in allowed || m.fromScheme != c.fromScheme || m.toScheme != c.toScheme ||
        m.d in seen {
        continue;
      }
      seen := seen + {m.d};
      out := out + [m];
    }
  }

  /** ms[i] is eligible and no earlier eligible mapping has its d. */
  ghost predicate FirstOfItsD(c: Concordance, ms: seq<Mapping>, i: nat) {
    i < |ms| && Eligible(c, ms[i]) && forall j :: 0 <= j < i && Eligible(c, ms[j]) ==> ms[j].d != ms[i].d
  }

  /** Members are the eligible mappings whose d no earlier eligible mapping has. */
  lemma {:induction false} MembersAreFirst(c: Concordance, ms: seq<Mapping>, seen: set<string>, m: Mapping)
    ensures m in MembersAfter(c, ms, seen) <==> m.d !in seen && exists i: nat :: FirstOfItsD(c, ms, i) && ms[i] == m
    decreases |ms|
  {
    hide Eligible;
    if ms != [] {
      var rest := ms[1..];
      var taken := Eligible(c, ms[0]) && ms[0].d !in seen;
      MembersAreFirst(c, rest, if taken then seen + {ms[0].d} else seen, m);
      assert FirstOfItsD(c, ms, 0) <==> Eligible(c, ms[0]);
      forall i: nat
        ensures FirstOfItsD(c, ms, i + 1) <==>
                FirstOfItsD(c, rest, i) && !(Eligible(c, ms[0]) && ms[0].d == rest[i].d)
      {
        FirstInRest(c, ms, i);
      }
      if i: nat :| FirstOfItsD(c, rest, i) && rest[i] == m && m.d !in seen && !(Eligible(c, ms[0]) && ms[0].d == m.d) {
        assert FirstOfItsD(c, ms, i + 1) && ms[i + 1] == m;
      }
      if i: nat :| FirstOfItsD(c, ms, i) && ms[i] == m && i > 0 {
        assert FirstOfItsD(c, ms, i - 1 + 1);
      }
    }
  }

  lemma FirstInRest(c: Concordance, ms: seq<Mapping>, i: nat)
    requires ms != []
    ensures FirstOfItsD(c, ms, i + 1) <==>
            FirstOfItsD(c, ms[1..], i) && !(Eligible(c, ms[0]) && ms[0].d == ms[1..][i].d)
  {
    hide Eligible;
    var rest := ms[1..];
    assert forall j :: 0 <= j < |rest| ==> rest[j] == ms[j + 1];
    if FirstOfItsD(c, ms, i + 1) {
      assert forall j :: 0 <= j < i && Eligible(c, rest[j]) ==> ms[j + 1].d != ms[i + 1].d;
    }
    if FirstOfItsD(c, rest, i) {
      assert forall j :: 0 < j < i + 1 ==> ms[j] == rest[j - 1];
    }
  }
}
