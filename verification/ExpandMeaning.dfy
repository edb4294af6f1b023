/** The rewrite of ExpandFilter keeps every match, and exactly what a rewritten query matches. */
module ExpandMeaning {
  import opened Sequences
  import opened Ordering
  import opened Text
  import opened VocabGraph
  import opened SearchTokens
  import opened ExpandFilter

  lemma {:induction false} FilterIsSubsequence(p: string -> bool, s: seq<string>)
    ensures Subsequence(Filter(p, s), s)
    decreases |s|
  {
    if s != [] {
      FilterIsSubsequence(p, s[1..]);
      if p(s[0]) {
        assert Filter(p, s)[1..] == Filter(p, s[1..]);
      }
    }
  }

  lemma KeptMembers(tokens: seq<string>, t: string)
    ensures t in Kept(tokens) <==> t in tokens && !IsDirective(t)
  {
    FilterElems((u: string) => !IsDirective(u), tokens, t);
  }

  lemma UndroppedMembers(tokens: seq<string>, drop: set<string>, t: string)
    ensures t in Undropped(tokens, drop) <==> t in tokens && (Field(t) == "" || Field(t) !in drop)
  {
    FilterElems((u: string) => Field(u) == "" || Field(u) !in drop, tokens, t);
  }

  lemma FreeTextKept(tokens: seq<string>, drop: set<string>)
    ensures FreeText(Kept(tokens)) == FreeText(tokens)
    ensures FreeText(Undropped(tokens, drop)) == FreeText(tokens)
  {
    FilterTwice((t: string) => Field(t) == "", (t: string) => !IsDirective(t), tokens);
    FilterTwice((t: string) => Field(t) == "", (t: string) => Field(t) == "" || Field(t) !in drop, tokens);
  }

  /** Re-joined tokens that a rewrite keeps read back as those tokens. */
  lemma RejoinedReadsBack(search: string, drop: set<string>)
    ensures Tokens(Join(Kept(Tokens(search)), " ")) == Kept(Tokens(search))
    ensures Tokens(Join(Undropped(Kept(Tokens(search)), drop), " ")) == Undropped(Kept(Tokens(search)), drop)
  {
    var ts := Tokens(search);
    FilterIsSubsequence((t: string) => !IsDirective(t), ts);
    KeptTokensReadBack(search, Kept(ts));
    FilterIsSubsequence((t: string) => Field(t) == "" || Field(t) !in drop, Kept(ts));
    var join := Join(Kept(ts), " ");
    KeptTokensReadBack(join, Undropped(Kept(ts), drop));
  }

  lemma {:induction false} NoDirectives(tokens: seq<string>)
    requires Directives(tokens) == []
    ensures Kept(tokens) == tokens
    decreases |tokens|
  {
    if tokens != [] {
      NoDirectives(tokens[1..]);
      assert tokens == [tokens[0]] + tokens[1..];
    }
  }

  lemma StrippedTokens(q: Query)
    ensures Tokens(Stripped(q).search) == Kept(Tokens(q.search))
  {
    if Directives(Tokens(q.search)) == [] {
      NoDirectives(Tokens(q.search));
    } else {
      RejoinedReadsBack(q.search, {});
    }
  }

  lemma FieldClauseKept(doc: Doc, tokens: seq<string>, base: string)
    ensures FieldClause(doc, Kept(tokens), base) <==> FieldClause(doc, tokens, base)
  {
    forall t ensures t in Kept(tokens) <==> t in tokens && !IsDirective(t) { KeptMembers(tokens, t); }
  }

  /** Taking `expand:` tokens out of a search does not change what it matches. */
  lemma StrippingKeepsMeaning(doc: Doc, q: Query)
    ensures Matches(doc, Stripped(q)) <==> Matches(doc, q)
  {
    var ts := Tokens(q.search);
    StrippedTokens(q);
    FreeTextKept(ts, {});
    forall t ensures t in Kept(ts) <==> t in ts && !IsDirective(t) { KeptMembers(ts, t); }
    forall base ensures FieldClause(doc, Kept(ts), base) <==> FieldClause(doc, ts, base) {
      FieldClauseKept(doc, ts, base);
    }
  }

  // ----- Tags -----

  ghost predicate MovedTag(written: seq<Group>, name: string) {
    exists g :: g in written && g.TagGroup? && g.tag == name
  }

  ghost predicate ConceptClause(doc: Doc, values: seq<string>) {
    exists x :: x in values && x in doc.concepts
  }

  /** The tag filters that were not moved, and one clause for every moved group. */
  ghost predicate TagsMeaning(doc: Doc, tags: map<string, seq<string>>, written: seq<Group>, v: Relations,
                              related: bool) {
    && (forall name :: name in tags && !MovedTag(written, name) ==> TagClause(doc, name, tags[name]))
    && (forall g :: g in written ==> ConceptClause(doc, Expanded(v, g.values, related)))
  }

  ghost predicate Placed(groups: seq<Group>, tags: map<string, seq<string>>) {
    && (forall i :: 0 <= i < |groups| && groups[i].TagGroup? ==>
          groups[i].tag in tags && IsConceptKey(groups[i].tag, ':') && groups[i].values == tags[groups[i].tag])
    && (forall i, j :: 0 <= i < j < |groups| && groups[i].TagGroup? && groups[j].TagGroup? ==>
          groups[i].tag != groups[j].tag)
  }

  lemma SlotIsNoConceptKey(n: nat)
    ensures !IsConceptKey(SlotKey(n), ':')
  {
    var key := SlotKey(n);
    forall k | 0 <= k < |key| ensures key[k] != ':' {
      if k < 9 {
        assert key[k] == "concepts_"[k];
      } else {
        assert key[k] == Decimal(n)[k - 9] && Decimal(n)[k - 9] in Decimal(n);
      }
    }
    assert IndexOf(key, ':') == |key|;
    assert Split(key, ':') == [key];
  }

  lemma MovedPlaced(groups: seq<Group>, tags: map<string, seq<string>>, n: nat, expanded: seq<string>)
    requires groups != [] && Placed(groups, tags) && SlotKey(n) !in tags
    ensures Placed(groups[1..], Moved(tags, groups[0], n, expanded))
  {
  }

  lemma {:induction false} RewrittenTagsMean(doc: Doc, v: Relations, related: bool, groups: seq<Group>,
                                             tags: map<string, seq<string>>, slot: nat)
    requires Placed(groups, tags)
    ensures TagsMatch(doc, RewrittenTags(v, related, groups, tags, slot)) <==>
            TagsMeaning(doc, tags, Written(v, related, groups, tags, slot), v, related)
    decreases |groups|
  {
    hide IsConceptKey, SlotKey, Expanded, Changes, TagsMatch, TagsMeaning;
    if groups == [] {
      NothingMoved(doc, tags, v, related);
    } else if !Changes(v, groups[0].values, related) {
      RewrittenTagsMean(doc, v, related, groups[1..], tags, slot);
    } else {
      var n := FreeSlot(tags, slot);
      if n < MAX_CONCEPT_FILTERS {
        var g, e := groups[0], Expanded(v, groups[0].values, related);
        var moved := Moved(tags, g, n, e);
        MovedPlaced(groups, tags, n, e);
        RewrittenTagsMean(doc, v, related, groups[1..], moved, n + 1);
        var rest := Written(v, related, groups[1..], moved, n + 1);
        WrittenArePlaced(v, related, groups[1..], moved, n + 1);
        SlotIsNoConceptKey(n);
        OneMoreMoved(doc, tags, g, n, e, rest, v, related);
      } else {
        NothingMoved(doc, tags, v, related);
      }
    }
  }

  lemma NothingMoved(doc: Doc, tags: map<string, seq<string>>, v: Relations, related: bool)
    ensures TagsMatch(doc, tags) <==> TagsMeaning(doc, tags, [], v, related)
  {
    hide TagClause;
    assert forall name :: !MovedTag([], name);
  }

  lemma OneMoreMoved(doc: Doc, tags: map<string, seq<string>>, g: Group, n: nat, expanded: seq<string>,
                     rest: seq<Group>, v: Relations, related: bool)
    requires n < MAX_CONCEPT_FILTERS && SlotKey(n) !in tags && expanded == Expanded(v, g.values, related)
    requires g.TagGroup? ==> g.tag in tags
    requires !MovedTag(rest, SlotKey(n))
    ensures TagsMeaning(doc, Moved(tags, g, n, expanded), rest, v, related) <==>
              TagsMeaning(doc, tags, [g] + rest, v, related)
  {
    hide SlotKey, Expanded;
    var moved := Moved(tags, g, n, expanded);
    assert IsSlot(SlotKey(n));
    assert SlotKey(n) in moved && moved[SlotKey(n)] == expanded;
    assert TagClause(doc, SlotKey(n), expanded) <==> ConceptClause(doc, expanded);
    forall name ensures MovedTag([g] + rest, name) <==> MovedTag(rest, name) || (g.TagGroup? && g.tag == name) {
      assert forall h :: h in [g] + rest <==> h == g || h in rest;
    }
    forall name | name in tags && !MovedTag([g] + rest, name) ensures name in moved && moved[name] == tags[name] {
    }
    assert forall h :: h in [g] + rest <==> h == g || h in rest;
  }

  lemma {:induction false} WrittenArePlaced(v: Relations, related: bool, groups: seq<Group>,
                                            tags: map<string, seq<string>>, slot: nat)
    requires Placed(groups, tags)
    ensures forall name :: MovedTag(Written(v, related, groups, tags, slot), name) ==> IsConceptKey(name, ':')
    ensures forall g :: g in Written(v, related, groups, tags, slot) ==> g in groups
    decreases |groups|
  {
    hide IsConceptKey, SlotKey, Expanded, Changes;
    if groups == [] {
    } else if !Changes(v, groups[0].values, related) {
      WrittenArePlaced(v, related, groups[1..], tags, slot);
    } else {
      var n := FreeSlot(tags, slot);
      if n < MAX_CONCEPT_FILTERS {
        var e := Expanded(v, groups[0].values, related);
        MovedPlaced(groups, tags, n, e);
        WrittenArePlaced(v, related, groups[1..], Moved(tags, groups[0], n, e), n + 1);
      }
    }
  }

  // ----- The groups of a query -----

  lemma {:induction false} TagGroupsAt(tags: map<string, seq<string>>, names: seq<string>)
    requires forall n :: n in names ==> n in tags
    ensures |TagGroups(tags, names)| == |names|
    ensures forall i :: 0 <= i < |names| ==> TagGroups(tags, names)[i] == TagGroup(names[i], tags[names[i]])
    decreases |names|
  {
    if names != [] {
      TagGroupsAt(tags, names[1..]);
    }
  }

  lemma GroupsPlaced(q: Query)
    ensures Placed(Groups(q), q.tags)
  {
    hide IsConceptKey, Less, FieldNames, Tokens, ValuesOf, TagGroups, Kept;
    LessIsStrictOrder();
    var names := SortedSeq(Less, ConceptTags(q.tags));
    assert forall n :: n in names ==> n in Elems(names);
    AscendingNoDup(Less, names);
    TagGroupsAt(q.tags, names);
    assert forall i :: 0 <= i < |names| ==> names[i] in names;
    GroupsOfAt(Kept(Tokens(q.search)), FieldNames(Kept(Tokens(q.search)), Kept(Tokens(q.search))));
  }

  lemma {:induction false} FieldNamesMembers(kept: seq<string>, part: seq<string>, field: string)
    ensures field in FieldNames(kept, part) <==> exists t :: t in part && Eligible(kept, t) && Field(t) == field
    decreases |part|
  {
    if part != [] {
      var init, last := part[..|part| - 1], part[|part| - 1];
      assert part == init + [last];
      FieldNamesMembers(kept, init, field);
    }
  }

  lemma {:induction false} ValuesOfMembers(part: seq<string>, field: string, x: string)
    ensures x in ValuesOf(part, field) <==> exists t :: t in part && Field(t) == field && Value(t) == x
    decreases |part|
  {
    if part != [] {
      var init, last := part[..|part| - 1], part[|part| - 1];
      assert part == init + [last];
      ValuesOfMembers(init, field, x);
    }
  }

  lemma {:induction false} GroupsOfAt(part: seq<string>, names: seq<string>)
    ensures |GroupsOf(part, names)| == |names|
    ensures forall i :: 0 <= i < |names| ==> GroupsOf(part, names)[i] == FieldGroup(names[i], ValuesOf(part, names[i]))
    decreases |names|
  {
    if names != [] {
      GroupsOfAt(part, names[1..]);
    }
  }

  /** A field group comes from an eligible field of the search and holds all its values. */
  lemma FieldGroupOf(q: Query, g: Group)
    requires g in Groups(q) && g.FieldGroup?
    ensures var kept := Kept(Tokens(q.search));
            && (exists t :: t in kept && Eligible(kept, t) && Field(t) == g.field)
            && g.values == ValuesOf(kept, g.field)
  {
    LessIsStrictOrder();
    var names := SortedSeq(Less, ConceptTags(q.tags));
    assert forall n :: n in names ==> n in Elems(names);
    TagGroupsAt(q.tags, names);
    var kept := Kept(Tokens(q.search));
    assert g in FieldGroups(kept, kept);
    var i :| 0 <= i < |FieldGroups(kept, kept)| && FieldGroups(kept, kept)[i] == g;
    GroupsOfAt(kept, FieldNames(kept, kept));
    assert FieldNames(kept, kept)[i] == g.field;
    FieldNamesMembers(kept, kept, g.field);
  }

  ghost predicate SoleDrops(kept: seq<string>, drop: set<string>) {
    forall f :: f in drop ==> f != "" && SoleField(kept, f)
  }

  lemma WrittenDropsSole(q: Query, v: Relations, related: bool)
    ensures SoleDrops(Kept(Tokens(q.search)), DroppedFields(Written(v, related, Groups(q), q.tags, 0)))
  {
    var written := Written(v, related, Groups(q), q.tags, 0);
    GroupsPlaced(q);
    WrittenArePlaced(v, related, Groups(q), q.tags, 0);
    forall f | f in DroppedFields(written) ensures f != "" && SoleField(Kept(Tokens(q.search)), f) {
      var g :| g in written && g.FieldGroup? && g.field == f;
      FieldGroupOf(q, g);
    }
  }

  // ----- Search tokens -----

  /** The field clauses that stay in the search. */
  ghost predicate RemainingClauses(doc: Doc, tokens: seq<string>, drop: set<string>) {
    forall t :: t in tokens && Field(t) != "" && !IsDirective(t) && Field(t) !in drop ==>
        FieldClause(doc, tokens, Base(Field(t)))
  }

  lemma UndroppedClauses(doc: Doc, kept: seq<string>, drop: set<string>)
    requires SoleDrops(kept, drop)
    ensures FieldClauses(doc, Undropped(kept, drop)) <==> RemainingClauses(doc, kept, drop)
  {
    var rest := Undropped(kept, drop);
    forall t ensures t in rest <==> t in kept && (Field(t) == "" || Field(t) !in drop) {
      UndroppedMembers(kept, drop, t);
    }
    forall t | t in rest && Field(t) != ""
      ensures FieldClause(doc, rest, Base(Field(t))) <==> FieldClause(doc, kept, Base(Field(t)))
    {
      assert forall u :: u in kept && Field(u) != "" && Base(Field(u)) == Base(Field(t)) ==> u in rest;
    }
  }

  lemma RemainingKept(doc: Doc, tokens: seq<string>, drop: set<string>)
    ensures RemainingClauses(doc, Kept(tokens), drop) <==> RemainingClauses(doc, tokens, drop)
  {
    forall t ensures t in Kept(tokens) <==> t in tokens && !IsDirective(t) { KeptMembers(tokens, t); }
    forall base ensures FieldClause(doc, Kept(tokens), base) <==> FieldClause(doc, tokens, base) {
      FieldClauseKept(doc, tokens, base);
    }
  }

  /** What a rewritten query's search matches. */
  lemma RewrittenSearch(doc: Doc, q: Query, v: Relations, related: bool)
    ensures var ts := Tokens(q.search);
            var drop := DroppedFields(Written(v, related, Groups(q), q.tags, 0));
            SearchMatches(doc, Tokens(Rewrite(q, v, related).search)) <==>
                doc.text(FreeText(ts)) && RemainingClauses(doc, ts, drop)
  {
    hide Tokens, Groups, Written, RewrittenTags, FreeText, Kept, Undropped, SoleDrops, Join, Stripped, FieldClause,
        FieldToken;
    var ts := Tokens(q.search);
    var written := Written(v, related, Groups(q), q.tags, 0);
    var drop := DroppedFields(written);
    StrippedTokens(q);
    RejoinedReadsBack(q.search, drop);
    FreeTextKept(ts, {});
    FreeTextKept(Kept(ts), drop);
    RemainingKept(doc, ts, drop);
    WrittenDropsSole(q, v, related);
    UndroppedClauses(doc, Kept(ts), drop);
    assert FieldClauses(doc, Kept(ts)) <==> RemainingClauses(doc, Kept(ts), {});
    RemainingKept(doc, ts, {});
    if drop == {} {
      assert Tokens(Rewrite(q, v, related).search) == Kept(ts);
    } else {
      assert Tokens(Rewrite(q, v, related).search) == Undropped(Kept(ts), drop);
    }
  }

  // ----- The theorems -----

  /**
   Exactly what a rewritten query matches: the clauses that were left alone, and for every rewritten group,
   separately, some identifier of its expansion.
   */
  lemma RewriteMeaning(doc: Doc, q: Query, v: Relations, related: bool)
    ensures var written := Written(v, related, Groups(q), q.tags, 0);
            var ts := Tokens(q.search);
            Matches(doc, Rewrite(q, v, related)) <==>
            && TagsMeaning(doc, q.tags, written, v, related)
            && doc.text(FreeText(ts))
            && RemainingClauses(doc, ts, DroppedFields(written))
  {
    GroupsPlaced(q);
    RewrittenTagsMean(doc, v, related, Groups(q), q.tags, 0);
    RewrittenSearch(doc, q, v, related);
    var written := Written(v, related, Groups(q), q.tags, 0);
    if written == [] {
      assert forall name :: !MovedTag(written, name);
    }
  }

  lemma MatchedGroup(doc: Doc, q: Query, g: Group, v: Relations, related: bool)
    requires Matches(doc, q) && Indexed(doc) && g in Groups(q)
    ensures ConceptClause(doc, Expanded(v, g.values, related))
  {
    hide IsConceptKey, SlotKey, Tokens, Trace, FieldToken;
    if g.TagGroup? {
      GroupsPlaced(q);
      assert g.tag in q.tags && IsConceptKey(g.tag, ':') && g.values == q.tags[g.tag];
      forall n: nat | n < MAX_CONCEPT_FILTERS ensures g.tag != SlotKey(n) { SlotIsNoConceptKey(n); }
      assert TagClause(doc, g.tag, g.values);
      var x :| x in g.values && x in doc.tagValues(g.tag);
      ValuesExpand(v, g.values, related, x);
    } else {
      var ts := Tokens(q.search);
      var kept := Kept(ts);
      FieldGroupOf(q, g);
      var t :| t in kept && Eligible(kept, t) && Field(t) == g.field;
      KeptMembers(ts, t);
      assert FieldClause(doc, ts, Base(Field(t)));
      var u :| u in ts && Field(u) != "" && !IsDirective(u) && Base(Field(u)) == Base(g.field) &&
        Value(u) in doc.fieldValues(Field(u));
      KeptMembers(ts, u);
      assert Field(u) == g.field;
      ValuesOfMembers(kept, g.field, Value(u));
      ValuesExpand(v, g.values, related, Value(u));
    }
  }

  lemma ValuesExpand(v: Relations, values: seq<string>, related: bool, x: string)
    requires x in values
    ensures x in Expanded(v, values, related)
  {
    AppendNewMember([], values, x);
    AppendNewMember(AppendNew([], values), Expansions(v, values, related), x);
  }

  /** Expansion never narrows: a document that matches the query matches the rewritten query. */
  lemma ExpansionNeverNarrows(doc: Doc, q: Query, v: Relations, related: bool)
    requires Indexed(doc) && Matches(doc, q)
    ensures Matches(doc, Rewrite(q, v, related))
  {
    var written := Written(v, related, Groups(q), q.tags, 0);
    GroupsPlaced(q);
    WrittenArePlaced(v, related, Groups(q), q.tags, 0);
    forall g | g in written ensures ConceptClause(doc, Expanded(v, g.values, related)) {
      MatchedGroup(doc, q, g, v, related);
    }
    RewriteMeaning(doc, q, v, related);
  }

  /** The slots the written groups get, in order. */
  ghost function Slots(v: Relations, related: bool, groups: seq<Group>, tags: map<string, seq<string>>,
                       slot: nat): seq<nat> {
    if groups == [] then []
    else if !Changes(v, groups[0].values, related) then Slots(v, related, groups[1..], tags, slot)
    else
      var n := FreeSlot(tags, slot);
      if n >= MAX_CONCEPT_FILTERS then []
      else [n] + Slots(v, related, groups[1..], Moved(tags, groups[0], n, Expanded(v, groups[0].values, related)),
                       n + 1)
  }

  lemma SlotKeyInjective(m: nat, n: nat)
    requires SlotKey(m) == SlotKey(n)
    ensures m == n
  {
    assert SlotKey(m)[9..] == Decimal(m) && SlotKey(n)[9..] == Decimal(n);
    DecimalRoundTrip(m);
    DecimalRoundTrip(n);
  }

  /** Slots of their own, from slot up, that tags did not use; each with what its group expands to; the rest kept. */
  ghost predicate OwnSlots(slots: seq<nat>, values: seq<seq<string>>, tags: map<string, seq<string>>,
                           out: map<string, seq<string>>, slot: nat) {
    && |slots| == |values| && (forall i :: 0 <= i < |slots| ==> slot <= slots[i] < MAX_CONCEPT_FILTERS)
    && (forall i, j :: 0 <= i < j < |slots| ==> slots[i] < slots[j])
    && (forall i :: 0 <= i < |slots| ==> SlotKey(slots[i]) !in tags && SlotKey(slots[i]) in out)
    && (forall i :: 0 <= i < |slots| ==> out[SlotKey(slots[i])] == values[i])
    && (forall n: nat :: n < slot && SlotKey(n) in tags ==> SlotKey(n) in out && out[SlotKey(n)] == tags[SlotKey(n)])
  }

  ghost function WrittenValues(v: Relations, related: bool, written: seq<Group>): seq<seq<string>> {
    seq(|written|, i requires 0 <= i < |written| => Expanded(v, written[i].values, related))
  }

  /** One more slot in front. */
  lemma OwnSlotsStep(rest: seq<nat>, values: seq<seq<string>>, tags: map<string, seq<string>>,
                     moved: map<string, seq<string>>,
                     out: map<string, seq<string>>, slot: nat, n: nat, e: seq<string>)
    requires OwnSlots(rest, values, moved, out, n + 1) && slot <= n < MAX_CONCEPT_FILTERS
    requires SlotKey(n) !in tags && SlotKey(n) in moved && moved[SlotKey(n)] == e
    requires forall m: nat :: m != n ==> (SlotKey(m) in tags <==> SlotKey(m) in moved)
    requires forall m: nat :: m != n && SlotKey(m) in tags ==> moved[SlotKey(m)] == tags[SlotKey(m)]
    ensures OwnSlots([n] + rest, [e] + values, tags, out, slot)
  {
    hide SlotKey;
    assert forall i :: 0 <= i < |rest| ==> rest[i] != n;
  }

  lemma MovedSlots(groups: seq<Group>, tags: map<string, seq<string>>, n: nat, e: seq<string>)
    requires Placed(groups, tags) && groups != []
    ensures var moved := Moved(tags, groups[0], n, e);
            && SlotKey(n) in moved && moved[SlotKey(n)] == e
            && (forall m: nat :: m != n ==> (SlotKey(m) in tags <==> SlotKey(m) in moved))
            && (forall m: nat :: m != n && SlotKey(m) in tags ==> moved[SlotKey(m)] == tags[SlotKey(m)])
  {
    hide IsConceptKey, SlotKey;
    SlotIsNoConceptKey(n);
    forall m: nat | m != n ensures SlotKey(m) != SlotKey(n) && !IsConceptKey(SlotKey(m), ':') {
      SlotIsNoConceptKey(m);
      if SlotKey(m) == SlotKey(n) { SlotKeyInjective(m, n); }
    }
  }

  /** How the slots, the written groups and the tags of groups come from those of the groups after the first. */
  lemma SlotsUnfold(v: Relations, related: bool, groups: seq<Group>, tags: map<string, seq<string>>, slot: nat)
    requires groups != []
    ensures var rest := groups[1..];
            var e := Expanded(v, groups[0].values, related);
            var n := FreeSlot(tags, slot);
            var moved := Moved(tags, groups[0], n, e);
            var slots := Slots(v, related, groups, tags, slot);
            var values := WrittenValues(v, related, Written(v, related, groups, tags, slot));
            var out := RewrittenTags(v, related, groups, tags, slot);
            if !Changes(v, groups[0].values, related) then
              && slots == Slots(v, related, rest, tags, slot)
              && values == WrittenValues(v, related, Written(v, related, rest, tags, slot))
              && out == RewrittenTags(v, related, rest, tags, slot)
            else if n >= MAX_CONCEPT_FILTERS then slots == [] && values == [] && out == tags
            else
              && slots == [n] + Slots(v, related, rest, moved, n + 1)
              && values == [e] + WrittenValues(v, related, Written(v, related, rest, moved, n + 1))
              && out == RewrittenTags(v, related, rest, moved, n + 1)
  {
    hide IsConceptKey, SlotKey, Expanded, Changes, FreeSlot, Moved;
  }

  /** Every written group has a slot of its own that the query did not use, below MAX_CONCEPT_FILTERS. */
  lemma {:induction false} OwnFreshSlots(v: Relations, related: bool, groups: seq<Group>,
                                         tags: map<string, seq<string>>, slot: nat)
    requires Placed(groups, tags)
    ensures OwnSlots(Slots(v, related, groups, tags, slot),
                     WrittenValues(v, related, Written(v, related, groups, tags, slot)),
                     tags, RewrittenTags(v, related, groups, tags, slot), slot)
    decreases |groups|
  {
    hide IsConceptKey, SlotKey, Expanded, Changes, OwnSlots, Moved, Slots, Written, RewrittenTags, WrittenValues,
        Placed, FreeSlot;
    NoSlots(v, related, tags, slot);
    if groups != [] {
      SlotsUnfold(v, related, groups, tags, slot);
      var n := FreeSlot(tags, slot);
      if !Changes(v, groups[0].values, related) {
        PlacedTail(groups, tags);
        OwnFreshSlots(v, related, groups[1..], tags, slot);
      } else if n < MAX_CONCEPT_FILTERS {
        var e := Expanded(v, groups[0].values, related);
        var moved := Moved(tags, groups[0], n, e);
        MovedPlaced(groups, tags, n, e);
        MovedSlots(groups, tags, n, e);
        OwnFreshSlots(v, related, groups[1..], moved, n + 1);
        OwnSlotsStep(Slots(v, related, groups[1..], moved, n + 1),
                     WrittenValues(v, related, Written(v, related, groups[1..], moved, n + 1)),
                     tags, moved, RewrittenTags(v, related, groups[1..], moved, n + 1), slot, n, e);
      }
    }
  }

  lemma PlacedTail(groups: seq<Group>, tags: map<string, seq<string>>)
    requires Placed(groups, tags) && groups != []
    ensures Placed(groups[1..], tags)
  {
    hide IsConceptKey;
  }

  lemma NoSlots(v: Relations, related: bool, tags: map<string, seq<string>>, slot: nat)
    ensures OwnSlots([], [], tags, tags, slot)
    ensures Slots(v, related, [], tags, slot) == [] &&
            WrittenValues(v, related, Written(v, related, [], tags, slot)) == []
    ensures RewrittenTags(v, related, [], tags, slot) == tags
  {
  }
}
