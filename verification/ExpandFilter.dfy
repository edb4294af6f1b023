/**
 The query rewrite of expand.go: concept filters become synthetic concepts_<n> tag filters that hold the
 expanded identifiers. Documents and filters are given a meaning, and the rewrite is proved against it.
 */
module ExpandFilter {
  import opened Wrappers
  import opened Sequences
  import opened Ordering
  import opened Text
  import opened Nostr
  import opened VocabGraph
  import opened SearchTokens

  const MAX_CONCEPT_FILTERS := 8

  function SlotKey(n: nat): string {
    "concepts_" + Decimal(n)
  }

  // ----- Tokens and keys -----

  function TrimQuotes(s: string): string {
    TrimEnd(TrimStart(s))
  }

  function TrimStart(s: string): string {
    if s != "" && s[0] == QUOTE then TrimStart(s[1..]) else s
  }

  function TrimEnd(s: string): string {
    if s != "" && s[|s| - 1] == QUOTE then TrimEnd(s[..|s| - 1]) else s
  }

  /** `field:value`; phrases are never fields, and neither part may be empty. */
  function FieldToken(tok: string): Option<(string, string)> {
    if HasPrefix(tok, [QUOTE]) then None
    else
      match Cut(tok, ':')
      case None => None
      case Some((field, rest)) => if field == "" || TrimQuotes(rest) == "" then None else Some((field,
            TrimQuotes(rest)))
  }

  function Field(tok: string): string {
    match FieldToken(tok) case Some((field, _)) => field case None => ""
  }

  function Value(tok: string): string {
    match FieldToken(tok) case Some((_, value)) => value case None => ""
  }

  function Base(field: string): string {
    field[..IndexOf(field, '.')]
  }

  predicate IsDirective(tok: string) {
    Field(tok) == "expand"
  }

  function CoreBases(): set<string> {
    {"educationalLevel", "about", "learningResourceType", "audience"}
  }

  /** `<base><sep>id` of a core field, or `ext<sep><ns><sep><facet><sep>id`. */
  predicate IsConceptKey(key: string, sep: char) {
    var parts := Split(key, sep);
    if |parts| == 2 then parts[1] == "id" && parts[0] in CoreBases()
    else |parts| == 4 && parts[0] == "ext" && parts[1] != "" && parts[2] != "" && parts[3] == "id"
  }

  // ----- What a filter means -----

  /**
   A document as the AMB collection sees it: the values a tag or a field filter compares with, its concept
   ids, and which free text it matches.
   */
  datatype Doc = Doc(tagValues: string -> set<string>, fieldValues: string -> set<string>, concepts: set<string>,
                     text: seq<string> -> bool)

  /** The `concepts` field holds every facet id of the document. */
  ghost predicate Indexed(doc: Doc) {
    && (forall name, x :: IsConceptKey(name, ':') && x in doc.tagValues(name) ==> x in doc.concepts)
    && (forall field, x :: IsConceptKey(field, '.') && x in doc.fieldValues(field) ==> x in doc.concepts)
  }

  ghost predicate IsSlot(name: string) {
    exists n: nat :: n < MAX_CONCEPT_FILTERS && name == SlotKey(n)
  }

  /** The values of one tag are alternatives; every slot reads the `concepts` field. */
  ghost predicate TagClause(doc: Doc, name: string, values: seq<string>) {
    exists x :: x in values && x in (if IsSlot(name) then doc.concepts else doc.tagValues(name))
  }

  function FreeText(tokens: seq<string>): seq<string> {
    Filter((t: string) => Field(t) == "", tokens)
  }

  /** Field filters of one base are alternatives. */
  ghost predicate FieldClause(doc: Doc, tokens: seq<string>, base: string) {
    exists u :: u in tokens && Field(u) != "" && !IsDirective(u) && Base(Field(u)) == base &&
      Value(u) in doc.fieldValues(Field(u))
  }

  ghost predicate FieldClauses(doc: Doc, tokens: seq<string>) {
    forall t :: t in tokens && Field(t) != "" && !IsDirective(t) ==> FieldClause(doc, tokens, Base(Field(t)))
  }

  ghost predicate SearchMatches(doc: Doc, tokens: seq<string>) {
    doc.text(FreeText(tokens)) && FieldClauses(doc, tokens)
  }

  datatype Query = Query(kinds: seq<Kind>, tags: map<string, seq<string>>, search: string)

  ghost predicate TagsMatch(doc: Doc, tags: map<string, seq<string>>) {
    forall name :: name in tags ==> TagClause(doc, name, tags[name])
  }

  ghost predicate Matches(doc: Doc, q: Query) {
    TagsMatch(doc, q.tags) && SearchMatches(doc, Tokens(q.search))
  }

  // ----- The rewrite as a function -----

  predicate OnlyAMB(kinds: seq<Kind>) {
    kinds != [] && forall k :: k in kinds ==> k == KIND_AMB
  }

  function Kept(tokens: seq<string>): seq<string> {
    Filter((t: string) => !IsDirective(t), tokens)
  }

  function Directives(tokens: seq<string>): seq<string> {
    if tokens == [] then []
    else (if IsDirective(tokens[0]) then [Value(tokens[0])] else []) + Directives(tokens[1..])
  }

  datatype Group = TagGroup(tag: string, values: seq<string>) | FieldGroup(field: string, values: seq<string>)

  ghost function ConceptTags(tags: map<string, seq<string>>): set<string> {
    set name | name in tags && IsConceptKey(name, ':')
  }

  function TagGroups(tags: map<string, seq<string>>, names: seq<string>): seq<Group>
    requires forall n :: n in names ==> n in tags
  {
    if names == [] then [] else [TagGroup(names[0], tags[names[0]])] + TagGroups(tags, names[1..])
  }

  /** No other field of the same base is filtered on. */
  ghost predicate SoleField(kept: seq<string>, field: string) {
    forall u :: u in kept && Field(u) != "" && Base(Field(u)) == Base(field) ==> Field(u) == field
  }

  ghost predicate Eligible(kept: seq<string>, tok: string) {
    Field(tok) != "" && IsConceptKey(Field(tok), '.') && SoleField(kept, Field(tok))
  }

  ghost function FieldNames(kept: seq<string>, part: seq<string>): seq<string> {
    if part == [] then []
    else
      var names, t := FieldNames(kept, part[..|part| - 1]), part[|part| - 1];
      if Eligible(kept, t) && Field(t) !in names then names + [Field(t)] else names
  }

  function ValuesOf(part: seq<string>, field: string): seq<string> {
    if part == [] then []
    else ValuesOf(part[..|part| - 1],
                  field) + if Field(part[|part| - 1]) == field then [Value(part[|part| - 1])] else []
  }

  function GroupsOf(part: seq<string>, names: seq<string>): seq<Group> {
    if names == [] then [] else [FieldGroup(names[0], ValuesOf(part, names[0]))] + GroupsOf(part, names[1..])
  }

  ghost function FieldGroups(kept: seq<string>, part: seq<string>): seq<Group> {
    GroupsOf(part, FieldNames(kept, part))
  }

  ghost function Groups(q: Query): seq<Group> {
    LessIsStrictOrder();
    var names := SortedSeq(Less, ConceptTags(q.tags));
    assert forall n :: n in names ==> n in Elems(names);
    var kept := Kept(Tokens(q.search));
    TagGroups(q.tags, names) + FieldGroups(kept, kept)
  }

  /** The values, then what each one's expansion adds. */
  ghost function Expanded(v: Relations, values: seq<string>, related: bool): seq<string> {
    AppendNew(AppendNew([], values), Expansions(v, values, related))
  }

  ghost function Expansions(v: Relations, values: seq<string>, related: bool): seq<string> {
    if values == [] then [] else Capped(Trace(v, values[0], related)) + Expansions(v, values[1..], related)
  }

  ghost predicate Changes(v: Relations, values: seq<string>, related: bool) {
    |Expanded(v, values, related)| > |AppendNew([], values)|
  }

  function FreeSlot(tags: map<string, seq<string>>, slot: nat): (n: nat)
    ensures slot <= n
    ensures n < MAX_CONCEPT_FILTERS ==> SlotKey(n) !in tags
    decreases MAX_CONCEPT_FILTERS - slot
  {
    if slot >= MAX_CONCEPT_FILTERS || SlotKey(slot) !in tags then slot else FreeSlot(tags, slot + 1)
  }

  /** One group moved to the slot. */
  function Moved(tags: map<string, seq<string>>, g: Group, slot: nat, expanded: seq<string>): map<string, seq<string>> {
    var with := tags[SlotKey(slot) := expanded];
    if g.TagGroup? then with - {g.tag} else with
  }

  /** The groups that get a slot. */
  ghost function Written(v: Relations, related: bool, groups: seq<Group>, tags: map<string, seq<string>>,
                         slot: nat): seq<Group> {
    if groups == [] then []
    else if !Changes(v, groups[0].values, related) then Written(v, related, groups[1..], tags, slot)
    else
      var n := FreeSlot(tags, slot);
      if n >= MAX_CONCEPT_FILTERS then []
      else [groups[0]] + Written(v, related, groups[1..],
                                 Moved(tags, groups[0], n, Expanded(v, groups[0].values, related)), n + 1)
  }

  ghost function RewrittenTags(v: Relations, related: bool, groups: seq<Group>, tags: map<string, seq<string>>,
                               slot: nat): map<string, seq<string>> {
    if groups == [] then tags
    else if !Changes(v, groups[0].values, related) then RewrittenTags(v, related, groups[1..], tags, slot)
    else
      var n := FreeSlot(tags, slot);
      if n >= MAX_CONCEPT_FILTERS then tags
      else RewrittenTags(v, related, groups[1..], Moved(tags, groups[0], n, Expanded(v, groups[0].values, related)),
                         n + 1)
  }

  ghost function DroppedFields(written: seq<Group>): set<string> {
    set g | g in written && g.FieldGroup? :: g.field
  }

  function Undropped(tokens: seq<string>, drop: set<string>): seq<string> {
    Filter((t: string) => Field(t) == "" || Field(t) !in drop, tokens)
  }

  /** The query with its `expand:` tokens taken out. */
  function Stripped(q: Query): Query {
    if Directives(Tokens(q.search)) == [] then q else q.(search := Join(Kept(Tokens(q.search)), " "))
  }

  ghost function Rewrite(q: Query, v: Relations, related: bool): Query {
    var written := Written(v, related, Groups(q), q.tags, 0);
    if written == [] then Stripped(q)
    else
      var drop := DroppedFields(written);
      Query(q.kinds, RewrittenTags(v, related, Groups(q), q.tags, 0),
            if drop == {} then Stripped(q).search else Join(Undropped(Kept(Tokens(q.search)), drop), " "))
  }
}
