/** expandConceptFilters (expand.go) step by step: loops over tokens, groups and slots, on a shared tag map. */
module ExpandQuery {
  import opened Wrappers
  import opened Sequences
  import opened Ordering
  import opened Text
  import opened Nostr
  import opened VocabGraph
  import opened SearchTokens
  import opened MappingTrust
  import opened ExpandFilter
  import VocabParse
  import ExpandMeaning

  /** nostr.TagMap: a reference, so a filter shares it with whoever passed it in. */
  class TagMap {
    var m: map<string, seq<string>>

    constructor (m: map<string, seq<string>>)
      ensures this.m == m
    {
      this.m := m;
    }
  }

  datatype QueryFilter = QueryFilter(kinds: seq<Kind>, tags: TagMap, search: string) {
    function View(): Query
      reads tags
    {
      Query(kinds, tags.m, search)
    }
  }

  /** The registry as the expander sees it: no graph when none of the trusted sources is loaded. */
  datatype GraphProvider = GraphProvider(defaults: Trust, graph: Trust -> Graph?)

  ghost function OptionsOf(decode: string -> Decoded, q: Query): Options {
    ParseAll(decode, Directives(Tokens(q.search)))
  }

  /** The graph a query is expanded with, if it is expanded at all. */
  ghost function GraphOf(decode: string -> Decoded, q: Query, reg: Option<GraphProvider>): Graph? {
    var opts := OptionsOf(decode, q);
    if reg.None? || opts.off || !OnlyAMB(q.kinds) then null else reg.value.graph(opts.Trusted(reg.value.defaults))
  }

  method ExpandConceptFilters(filter: QueryFilter, reg: Option<GraphProvider>,
                              decode: string -> Decoded) returns (out: QueryFilter)
    ensures out.tags == filter.tags || fresh(out.tags)
    ensures var g := GraphOf(decode, filter.View(), reg);
            out.View() == if g == null then Stripped(filter.View())
                          else Rewrite(filter.View(), g.View(), OptionsOf(decode, filter.View()).related)
  {
    hide Tokens, Written, RewrittenTags, DroppedFields, Undropped, Kept, Directives, Join, FieldGroups, ParseAll;
    ghost var q := filter.View();
    out := filter;
    var tokens := SearchTokens.SearchTokens(filter.search);
    var kept, opts, fieldsByBase, stripped := ReadTokens(decode, tokens);
    if stripped {
      out := out.(search := Join(kept, " "));
    }
    if reg.None? || opts.off || !OnlyAMB(filter.kinds) { return; }
    var groups := GroupTags(filter.tags.m);
    groups := GroupFields(kept, fieldsByBase, groups);
    if |groups| == 0 {
      NoGroups(q);
      assert out.View() == Stripped(q);
      return;
    }
    var g := reg.value.graph(opts.Trusted(reg.value.defaults));
    assert out.View() == Stripped(q);
    if g == null { return; }

    var tags, dropFields, written := WriteSlots(g, opts.related, groups, filter.tags.m);
    if !written { return; }
    ghost var v := g.View();
    var own := new TagMap(tags);
    assert g.View() == v;
    out := out.(tags := own);
    assert GraphOf(decode, q, reg) == g;
    assert tags == RewrittenTags(g.View(), opts.related, Groups(q), q.tags, 0);
    if dropFields != {} {
      out := out.(search := Join(Undropped(kept, dropFields), " "));
    }
  }

  lemma NoGroups(q: Query)
    requires Groups(q) == []
    ensures forall v, related :: Rewrite(q, v, related) == Stripped(q)
  {
  }

  // ----- Reading the search -----

  ghost predicate TracksFields(fieldsByBase: map<string, set<string>>, kept: seq<string>) {
    && (forall u :: u in kept && Field(u) != "" ==>
          Base(Field(u)) in fieldsByBase && Field(u) in fieldsByBase[Base(Field(u))])
    && (forall b, f :: b in fieldsByBase && f in fieldsByBase[b] ==> exists u :: Names(kept, u, b, f))
  }

  ghost predicate Names(kept: seq<string>, u: string, base: string, field: string) {
    u in kept && Field(u) == field && field != "" && Base(field) == base
  }

  lemma {:induction false} DirectivesAppend(a: seq<string>, t: string)
    ensures Directives(a + [t]) == Directives(a) + if IsDirective(t) then [Value(t)] else []
    decreases |a|
  {
    hide Field, Value;
    if a == [] {
      assert a + [t] == [t] && [t][1..] == [];
    } else {
      assert (a + [t])[1..] == a[1..] + [t];
      DirectivesAppend(a[1..], t);
    }
  }

  lemma KeptAppend(a: seq<string>, t: string)
    ensures Kept(a + [t]) == Kept(a) + if IsDirective(t) then [] else [t]
  {
    hide Field;
    FilterConcat((u: string) => !IsDirective(u), a, [t]);
    assert [t][1..] == [];
  }

  method ReadTokens(decode: string -> Decoded, tokens: seq<string>)
    returns (kept: seq<string>, opts: Options, fieldsByBase: map<string, set<string>>, stripped: bool)
    ensures kept == Kept(tokens)
    ensures opts == ParseAll(decode, Directives(tokens))
    ensures stripped <==> Directives(tokens) != []
    ensures TracksFields(fieldsByBase, kept)
  {
    hide Field, Value, Base;
    kept, opts, fieldsByBase, stripped := [], NO_OPTIONS, map[], false;
    for i := 0 to |tokens|
      invariant kept == Kept(tokens[..i])
      invariant opts == ParseAll(decode, Directives(tokens[..i]))
      invariant stripped <==> Directives(tokens[..i]) != []
      invariant TracksFields(fieldsByBase, kept)
    {
      var raw := tokens[i];
      assert tokens[..i + 1] == tokens[..i] + [raw];
      DirectivesAppend(tokens[..i], raw);
      assert Directives(tokens[..i]) + [] == Directives(tokens[..i]);
      KeptAppend(tokens[..i], raw);
      if IsDirective(raw) {
        ParseAllAppend(decode, Directives(tokens[..i]), Value(raw));
        opts := opts.Parse(decode, Value(raw));
        stripped := true;
        continue;
      }
      fieldsByBase := TrackField(fieldsByBase, kept, raw);
      kept := kept + [raw];
    }
    assert tokens[..|tokens|] == tokens;
  }

  lemma ParseAllAppend(decode: string -> Decoded, values: seq<string>, x: string)
    ensures ParseAll(decode, values + [x]) == ParseAll(decode, values).Parse(decode, x)
  {
    var more := values + [x];
    assert more[..|more| - 1] == values && more[|more| - 1] == x;
  }

  method TrackField(fieldsByBase: map<string, set<string>>, ghost kept: seq<string>,
                    raw: string) returns (r: map<string, set<string>>)
    requires TracksFields(fieldsByBase, kept)
    ensures TracksFields(r, kept + [raw])
  {
    hide Field, Value, Base;
    r := fieldsByBase;
    ghost var more := kept + [raw];
    assert forall u :: u in more <==> u in kept || u == raw;
    if Field(raw) != "" {
      var base := Base(Field(raw));
      r := r[base := (if base in r then r[base] else {}) + {Field(raw)}];
      forall b, f | b in r && f in r[b] ensures exists u :: Names(more, u, b, f) {
        if b == base && f == Field(raw) {
          assert Names(more, raw, b, f);
        } else {
          assert b in fieldsByBase && f in fieldsByBase[b];
          var u :| Names(kept, u, b, f);
          assert Names(more, u, b, f);
        }
      }
    } else {
      forall b, f | b in r && f in r[b] ensures exists u :: Names(more, u, b, f) {
        var u :| Names(kept, u, b, f);
        assert Names(more, u, b, f);
      }
    }
  }

  lemma OneFieldOfBase(fieldsByBase: map<string, set<string>>, kept: seq<string>, t: string)
    requires TracksFields(fieldsByBase, kept) && t in kept && Field(t) != ""
    ensures Base(Field(t)) in fieldsByBase
    ensures |fieldsByBase[Base(Field(t))]| == 1 <==> SoleField(kept, Field(t))
  {
    hide Field, Value, Base;
    var f := Field(t);
    var fields := fieldsByBase[Base(f)];
    assert f in fields;
    if SoleField(kept, f) {
      forall x | x in fields ensures x == f {
        var u :| Names(kept, u, Base(f), x);
      }
      assert fields == {f};
    }
    if |fields| == 1 {
      assert |fields - {f}| == 0;
      assert forall x :: x in fields ==> x == f by {
        assert forall x :: x in fields && x != f ==> x in fields - {f};
      }
    }
  }

  // ----- Grouping -----

  method GroupTags(tags: map<string, seq<string>>) returns (groups: seq<Group>)
    ensures LessIsStrict() && (forall n :: n in SortedSeq(Less, ConceptTags(tags)) ==> n in tags)
    ensures groups == TagGroups(tags, SortedSeq(Less, ConceptTags(tags)))
  {
    hide IsConceptKey, Less;
    LessIsStrictOrder();
    var names := VocabParse.KeysInSomeOrder(set name | name in tags && IsConceptKey(name, ':'));
    assert ConceptTags(tags) == Elems(names);
    SortIsSortedSeq(Less, names);
    names := Sort(Less, names);
    assert forall n :: n in names ==> n in Elems(names);
    groups := CollectTagGroups(tags, names);
  }

  method CollectTagGroups(tags: map<string, seq<string>>, names: seq<string>) returns (groups: seq<Group>)
    requires forall n :: n in names ==> n in tags
    ensures groups == TagGroups(tags, names)
  {
    groups := [];
    for i := 0 to |names|
      invariant groups + TagGroups(tags, names[i..]) == TagGroups(tags, names)
    {
      assert names[i..][1..] == names[i + 1..];
      groups := groups + [TagGroup(names[i], tags[names[i]])];
    }
  }

  ghost predicate LessIsStrict() {
    StrictOrder(Less)
  }

  /** seenField gives each grouped field its place behind the tag groups. */
  ghost predicate Places(seenField: map<string, nat>, names: seq<string>, offset: nat) {
    && (forall i :: 0 <= i < |names| ==> names[i] in seenField && seenField[names[i]] == offset + i)
    && (forall f :: f in seenField ==> f in names)
  }

  method GroupFields(kept: seq<string>, fieldsByBase: map<string, set<string>>,
                     tagGroups: seq<Group>) returns (groups: seq<Group>)
    requires TracksFields(fieldsByBase, kept)
    ensures groups == tagGroups + FieldGroups(kept, kept)
  {
    hide Field, Value, Base, IsConceptKey, TracksFields, FieldGroups;
    groups := tagGroups;
    var seenField: map<string, nat> := map[];
    assert FieldGroups(kept, []) == [] by { NoFieldGroups(kept); }
    for i := 0 to |kept|
      invariant groups == tagGroups + FieldGroups(kept, kept[..i])
      invariant Places(seenField, FieldNames(kept, kept[..i]), |tagGroups|)
    {
      var t := kept[i];
      ghost var part := kept[..i];
      assert kept[..i + 1] == part + [t] && (part + [t])[..i] == part;
      FieldGroupsAppend(kept, part, t);
      if Field(t) == "" { continue; }
      OneFieldOfBase(fieldsByBase, kept, t);
      if !IsConceptKey(Field(t), '.') || |fieldsByBase[Base(Field(t))]| != 1 { continue; }
      ghost var names := FieldNames(kept, part);
      if Field(t) in seenField {
        var k := seenField[Field(t)];
        ghost var j :| 0 <= j < |names| && names[j] == Field(t);
        FieldGroupAt(kept, part, j);
        assert groups[k] == FieldGroups(kept, part)[j];
        groups := groups[k := FieldGroup(Field(t), groups[k].values + [Value(t)])];
        continue;
      }
      seenField := seenField[Field(t) := |groups|];
      FieldGroupsLength(kept, part);
      groups := groups + [FieldGroup(Field(t), [Value(t)])];
    }
    assert kept[..|kept|] == kept;
  }

  lemma NoFieldGroups(kept: seq<string>)
    ensures FieldGroups(kept, []) == []
  {
  }

  lemma FieldGroupsLength(kept: seq<string>, part: seq<string>)
    ensures |FieldGroups(kept, part)| == |FieldNames(kept, part)|
  {
    ExpandMeaning.GroupsOfAt(part, FieldNames(kept, part));
  }

  lemma FieldGroupAt(kept: seq<string>, part: seq<string>, j: nat)
    requires j < |FieldNames(kept, part)|
    ensures |FieldGroups(kept, part)| == |FieldNames(kept, part)|
    ensures FieldGroups(kept, part)[j] == FieldGroup(FieldNames(kept, part)[j],
                                                     ValuesOf(part, FieldNames(kept, part)[j]))
  {
    ExpandMeaning.GroupsOfAt(part, FieldNames(kept, part));
  }

  lemma {:induction false} FieldNamesDistinct(kept: seq<string>, part: seq<string>)
    ensures NoDup(FieldNames(kept, part))
    ensures forall f :: f in FieldNames(kept, part) ==> f != ""
    decreases |part|
  {
    hide Eligible, Field;
    if part != [] {
      FieldNamesDistinct(kept, part[..|part| - 1]);
      assert Eligible(kept, part[|part| - 1]) ==> Field(part[|part| - 1]) != "" by {
        EligibleHasField(kept, part[|part| - 1]);
      }
    }
  }

  lemma EligibleHasField(kept: seq<string>, t: string)
    ensures Eligible(kept, t) ==> Field(t) != ""
  {
  }

  lemma {:induction false} NoValues(kept: seq<string>, part: seq<string>, field: string)
    requires field !in FieldNames(kept, part)
    requires exists t :: Eligible(kept, t) && Field(t) == field
    ensures ValuesOf(part, field) == []
    decreases |part|
  {
    hide Field, Value, Eligible;
    if part != [] {
      var t :| Eligible(kept, t) && Field(t) == field;
      if Field(part[|part| - 1]) == field { EligibleByField(kept, t, part[|part| - 1]); }
      NoValues(kept, part[..|part| - 1], field);
    }
  }

  lemma EligibleByField(kept: seq<string>, t: string, u: string)
    requires Eligible(kept, t) && Field(t) == Field(u)
    ensures Eligible(kept, u)
  {
    hide Field, IsConceptKey, SoleField;
  }

  lemma ValuesAppend(part: seq<string>, t: string, f: string)
    ensures ValuesOf(part + [t], f) == ValuesOf(part, f) + if Field(t) == f then [Value(t)] else []
  {
    hide Field, Value;
    assert (part + [t])[..|part|] == part;
  }

  lemma NamesAppend(kept: seq<string>, part: seq<string>, t: string)
    ensures FieldNames(kept, part + [t]) ==
            if Eligible(kept, t) && Field(t) !in FieldNames(kept, part) then FieldNames(kept,
                  part) + [Field(t)] else FieldNames(kept, part)
  {
    hide Field, Eligible;
    assert (part + [t])[..|part|] == part;
  }

  /** The groups of the same names, with the values of one field changed. */
  lemma GroupsSame(part: seq<string>, more: seq<string>, names: seq<string>, f: string)
    requires NoDup(names) && forall i :: 0 <= i < |names| && names[i] != f ==>
              ValuesOf(more, names[i]) == ValuesOf(part, names[i])
    ensures var groups := GroupsOf(part, names);
            && |groups| == |names|
            && (f !in names ==> GroupsOf(more, names) == groups)
            && (forall j :: 0 <= j < |names| && names[j] == f ==>
                  GroupsOf(more, names) == groups[j := FieldGroup(f, ValuesOf(more, f))])
  {
    hide ValuesOf;
    ExpandMeaning.GroupsOfAt(part, names);
    ExpandMeaning.GroupsOfAt(more, names);
    hide GroupsOf;
    assert f !in names ==> forall i :: 0 <= i < |names| ==> names[i] != f;
    forall j | 0 <= j < |names| && names[j] == f
      ensures GroupsOf(more, names) == GroupsOf(part, names)[j := FieldGroup(f, ValuesOf(more, f))]
    {
      assert forall i :: 0 <= i < |names| && i != j ==> names[i] != f;
    }
  }

  lemma GroupsMore(part: seq<string>, names: seq<string>, f: string)
    ensures GroupsOf(part, names + [f]) == GroupsOf(part, names) + [FieldGroup(f, ValuesOf(part, f))]
  {
    hide ValuesOf;
    ExpandMeaning.GroupsOfAt(part, names);
    ExpandMeaning.GroupsOfAt(part, names + [f]);
    hide GroupsOf;
    assert GroupsOf(part, names + [f]) == GroupsOf(part, names) + [FieldGroup(f, ValuesOf(part, f))];
  }

  /** One more token starts a group, or adds a value to the group of its field, or changes nothing. */
  lemma FieldGroupsAppend(kept: seq<string>, part: seq<string>, t: string)
    ensures var names := FieldNames(kept, part);
            var groups := FieldGroups(kept, part);
            var next := FieldGroups(kept, part + [t]);
            && |groups| == |names|
            && (!Eligible(kept, t) ==> next == groups && FieldNames(kept, part + [t]) == names)
            && (Eligible(kept, t) && Field(t) !in names ==>
                  next == groups + [FieldGroup(Field(t), [Value(t)])] &&
                    FieldNames(kept, part + [t]) == names + [Field(t)])
            && (forall j :: Eligible(kept, t) && 0 <= j < |names| && names[j] == Field(t) ==>
                  next == groups[j := FieldGroup(Field(t), ValuesOf(part, Field(t)) + [Value(t)])] &&
                    FieldNames(kept, part + [t]) == names)
  {
    hide Field, Value, Eligible, FieldNames, ValuesOf, GroupsOf;
    var names := FieldNames(kept, part);
    FieldNamesDistinct(kept, part);
    NamesAppend(kept, part, t);
    forall i | 0 <= i < |names| ensures names[i] != Field(t) ==>
        ValuesOf(part + [t], names[i]) == ValuesOf(part, names[i]) {
      ValuesAppend(part, t, names[i]);
    }
    ValuesAppend(part, t, Field(t));
    GroupsSame(part, part + [t], names, Field(t));
    GroupsMore(part + [t], names, Field(t));
    if Field(t) in names {
      NamesAreEligible(kept, part, Field(t));
      var u :| Eligible(kept, u) && Field(u) == Field(t);
      EligibleByField(kept, u, t);
    } else if Eligible(kept, t) {
      NoValues(kept, part, Field(t));
      assert [] + [Value(t)] == [Value(t)];
    }
  }

  lemma {:induction false} NamesAreEligible(kept: seq<string>, part: seq<string>, f: string)
    requires f in FieldNames(kept, part)
    ensures exists u :: Eligible(kept, u) && Field(u) == f
    decreases |part|
  {
    hide Field, Eligible;
    if f in FieldNames(kept, part[..|part| - 1]) {
      NamesAreEligible(kept, part[..|part| - 1], f);
    } else {
      assert Eligible(kept, part[|part| - 1]);
    }
  }

  // ----- Expanding -----

  method ExpandValues(g: Graph, values: seq<string>, related: bool) returns (out: seq<string>, changed: bool)
    ensures out == Expanded(g.View(), values, related)
    ensures changed <==> Changes(g.View(), values, related)
  {
    hide Trace;
    var seen;
    out, seen := Graph.AddUnseen([], {}, values);
    ghost var first := out;
    ghost var v := g.View();
    changed := false;
    for i := 0 to |values|
      invariant seen == Elems(out) && first <= out
      invariant AppendNew(out, Expansions(v, values[i..], related)) == Expanded(v, values, related)
      invariant changed <==> |out| > |first|
    {
      assert values[i..][1..] == values[i + 1..];
      var ids, truncated := g.Expand(values[i], related);
      AppendNewConcat(out, ids, Expansions(v, values[i + 1..], related));
      var before := |out|;
      out, seen := Graph.AddUnseen(out, seen, ids);
      changed := changed || |out| > before;
    }
    assert values[|values|..] == [];
  }

  method WriteSlots(g: Graph, related: bool, groups: seq<Group>, given: map<string, seq<string>>)
    returns (tags: map<string, seq<string>>, dropFields: set<string>, written: bool)
    ensures tags == RewrittenTags(g.View(), related, groups, given, 0)
    ensures dropFields == DroppedFields(Written(g.View(), related, groups, given, 0))
    ensures written <==> Written(g.View(), related, groups, given, 0) != []
  {
    hide Expanded, Changes, SlotKey;
    ghost var v := g.View();
    ghost var done: seq<Group> := [];
    tags, dropFields, written := given, {}, false;
    var slot: nat := 0;
    for i := 0 to |groups|
      invariant RewrittenTags(v, related, groups[i..], tags, slot) == RewrittenTags(v, related, groups, given, 0)
      invariant done + Written(v, related, groups[i..], tags, slot) == Written(v, related, groups, given, 0)
      invariant dropFields == DroppedFields(done) && (written <==> done != [])
    {
      var gr := groups[i];
      assert groups[i..][0] == gr && groups[i..][1..] == groups[i + 1..];
      var expanded, changed := ExpandValues(g, gr.values, related);
      if !changed { continue; }
      slot := FreeSlot(tags, slot);
      if slot >= MAX_CONCEPT_FILTERS { break; }
      tags := Moved(tags, gr, slot, expanded);
      slot := slot + 1;
      written := true;
      DroppedFieldsAppend(done, gr);
      done := done + [gr];
      if gr.FieldGroup? {
        dropFields := dropFields + {gr.field};
      }
    }
  }

  lemma DroppedFieldsAppend(done: seq<Group>, g: Group)
    ensures DroppedFields(done + [g]) == DroppedFields(done) + if g.FieldGroup? then {g.field} else {}
  {
    assert forall h :: h in done + [g] <==> h in done || h == g;
  }
}
