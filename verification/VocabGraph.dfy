/**
 The graph of trusted concept relations (vocabmap/graph.go): which edges a set of concepts and mappings
 yields, and what a filter on one identifier expands to.
 */
module VocabGraph {
  import opened Sequences
  import opened Ordering
  import opened Vocab

  const MAX_DEPTH := 4
  const MAX_RESULTS := 200

  type Links = map<string, seq<string>>

  datatype Rel = Exact | Close | Related | Narrower

  datatype Edge = Edge(rel: Rel, from: string, to: string)

  /** What a Graph holds, as a value. */
  datatype Relations = Relations(exact: Links, close: Links, related: Links, narrower: Links) {
    function Of(rel: Rel): Links {
      match rel
      case Exact => exact
      case Close => close
      case Related => related
      case Narrower => narrower
    }
  }

  /** Reading an absent key of a Go map of slices gives the empty slice. */
  function Succ(links: Links, x: string): seq<string> {
    if x in links then links[x] else []
  }

  // ----- Which edges there are -----

  /** Of two concepts with one address the later one names it. */
  function IdByAddress(concepts: seq<Concept>): map<string, string> {
    if concepts == [] then map[]
    else
      var last := concepts[|concepts| - 1];
      IdByAddress(concepts[..|concepts| - 1])[last.address := last.id]
  }

  function Resolve(ids: map<string, string>, address: string): string {
    if address in ids then ids[address] else "nostr:" + address
  }

  predicate OneToOne(m: Mapping) {
    |m.to| == 1
  }

  /** A trusted 1:1 broad, narrow or related mapping between a and b, in either direction. */
  ghost predicate Conflict(mappings: seq<Mapping>, a: string, b: string) {
    exists m :: m in mappings && OneToOne(m) && m.relation != "exactMatch" && m.relation != "closeMatch" &&
                {m.from, m.to[0]} == {a, b}
  }

  ghost function MappingEdges(m: Mapping, all: seq<Mapping>): set<Edge> {
    if !OneToOne(m) then {}
    else
      var a, b := m.from, m.to[0];
      if m.relation == "exactMatch" then (if Conflict(all, a, b) then {} else {Edge(Exact, a, b), Edge(Exact, b, a)})
      else if m.relation == "closeMatch" then {Edge(Close, a, b), Edge(Close, b, a)}
      else if m.relation == "relatedMatch" then {Edge(Related, a, b), Edge(Related, b, a)}
      else if m.relation == "broadMatch" then {Edge(Narrower, b, a)}
      else if m.relation == "narrowMatch" then {Edge(Narrower, a, b)}
      else {}
  }

  ghost function ConceptEdges(c: Concept, ids: map<string, string>): set<Edge> {
    (set b | b in c.broader :: Edge(Narrower, Resolve(ids, b), c.id)) +
    (set n | n in c.narrower :: Edge(Narrower, c.id, Resolve(ids, n)))
  }

  ghost function AllConceptEdges(concepts: seq<Concept>, ids: map<string, string>): set<Edge> {
    set c, e | c in concepts && e in ConceptEdges(c, ids) :: e
  }

  ghost function AllMappingEdges(mappings: seq<Mapping>, all: seq<Mapping>): set<Edge> {
    set m, e | m in mappings && e in MappingEdges(m, all) :: e
  }

  ghost function Proper(edges: set<Edge>): set<Edge> {
    set e | e in edges && e.from != e.to
  }

  /** The edges of the graph over concepts and mappings. */
  ghost function EdgeSet(concepts: seq<Concept>, mappings: seq<Mapping>): set<Edge> {
    Proper(AllConceptEdges(concepts, IdByAddress(concepts)) + AllMappingEdges(mappings, mappings))
  }

  // ----- Adjacency lists that represent an edge set -----

  ghost predicate Represents(v: Relations, edges: set<Edge>) {
    && (forall rel, x :: x in v.Of(rel) ==> v.Of(rel)[x] != [])
    && (forall rel, x :: NoDup(Succ(v.Of(rel), x)))
    && (forall rel, x, y :: y in Succ(v.Of(rel), x) <==> Edge(rel, x, y) in edges)
  }

  ghost predicate Sorted(v: Relations) {
    forall rel, x :: Ascending(Less, Succ(v.Of(rel), x))
  }

  ghost function Sources(edges: set<Edge>, rel: Rel): set<string> {
    set e | e in edges && e.rel == rel :: e.from
  }

  ghost function TargetsOf(edges: set<Edge>, rel: Rel, from: string): set<string> {
    set e | e in edges && e.rel == rel && e.from == from :: e.to
  }

  ghost function LinksOf(edges: set<Edge>, rel: Rel): Links {
    LessIsStrictOrder();
    map x | x in Sources(edges, rel) :: SortedSeq(Less, TargetsOf(edges, rel, x))
  }

  ghost function Tabulate(edges: set<Edge>): Relations {
    Relations(LinksOf(edges, Exact), LinksOf(edges, Close), LinksOf(edges, Related), LinksOf(edges, Narrower))
  }

  /** The value of NewGraph's result: the one sorted representation of the edges over concepts and mappings. */
  ghost function BuildGraph(concepts: seq<Concept>, mappings: seq<Mapping>): Relations {
    Tabulate(EdgeSet(concepts, mappings))
  }

  lemma TabulateRepresents(edges: set<Edge>)
    ensures Represents(Tabulate(edges), edges) && Sorted(Tabulate(edges))
  {
    hide LinksOf, Less, Succ;
    var v := Tabulate(edges);
    forall rel, x
      ensures x in v.Of(rel) ==> v.Of(rel)[x] != []
      ensures NoDup(Succ(v.Of(rel), x)) && Ascending(Less, Succ(v.Of(rel), x))
      ensures forall y :: y in Succ(v.Of(rel), x) <==> Edge(rel, x, y) in edges
    {
      TabulateList(edges, rel, x);
    }
  }

  lemma TabulateList(edges: set<Edge>, rel: Rel, x: string)
    ensures var links := LinksOf(edges, rel);
            && (x in links ==> links[x] != [])
            && NoDup(Succ(links, x)) && Ascending(Less, Succ(links, x))
            && (forall y :: y in Succ(links, x) <==> Edge(rel, x, y) in edges)
  {
    LessIsStrictOrder();
    var list := Succ(LinksOf(edges, rel), x);
    var targets := TargetsOf(edges, rel, x);
    forall y ensures y in targets <==> Edge(rel, x, y) in edges {
      if Edge(rel, x, y) in edges { assert Edge(rel, x, y).to == y; }
    }
    if x in Sources(edges, rel) {
      assert list == SortedSeq(Less, targets);
      assert forall y :: y in list <==> y in Elems(list);
      AscendingNoDup(Less, list);
      var e :| e in edges && e.rel == rel && e.from == x;
      assert e.to in targets;
    } else {
      forall y ensures Edge(rel, x, y) !in edges {
        assert Edge(rel, x, y).from == x;
      }
    }
  }

  lemma RepresentationUnique(v: Relations, w: Relations, edges: set<Edge>)
    requires Represents(v, edges) && Sorted(v) && Represents(w, edges) && Sorted(w)
    ensures v == w
  {
    LessIsStrictOrder();
    forall rel ensures v.Of(rel) == w.Of(rel) {
      var a, b := v.Of(rel), w.Of(rel);
      forall x ensures Succ(a, x) == Succ(b, x) {
        assert Elems(Succ(a, x)) == Elems(Succ(b, x));
        AscendingUnique(Less, Succ(a, x), Succ(b, x));
      }
      forall x ensures x in a <==> x in b {
        assert Succ(a, x) == Succ(b, x);
      }
      forall x | x in a ensures a[x] == b[x] {
        assert Succ(a, x) == Succ(b, x);
      }
      assert a == b;
    }
    assert v.Of(Exact) == w.Of(Exact) && v.Of(Close) == w.Of(Close);
    assert v.Of(Related) == w.Of(Related) && v.Of(Narrower) == w.Of(Narrower);
  }

  // ----- Building it -----

  class Graph {
    var exact: Links
    var close: Links
    var related: Links
    var narrower: Links
    var has: set<Edge>

    function View(): Relations
      reads this
    {
      Relations(exact, close, related, narrower)
    }

    ghost predicate Valid()
      reads this
    {
      Represents(View(), has)
    }

    constructor ()
      ensures Valid() && has == {}
    {
      exact, close, related, narrower := map[], map[], map[], map[];
      has := {};
    }

    method Link(rel: Rel, from: string, to: string)
      requires Valid()
      modifies this
      ensures Valid()
      ensures has == old(has) + Proper({Edge(rel, from, to)})
    {
      var key := Edge(rel, from, to);
      if from == to || key in has {
        assert Proper({key}) == if from == to then {} else {key};
        return;
      }
      ghost var before := View();
      has := has + {key};
      match rel {
        case Exact => exact := exact[from := Succ(exact, from) + [to]];
        case Close => close := close[from := Succ(close, from) + [to]];
        case Related => related := related[from := Succ(related, from) + [to]];
        case Narrower => narrower := narrower[from := Succ(narrower, from) + [to]];
      }
      LinkRepresents(before, View(), old(has), key);
    }

    method Both(rel: Rel, a: string, b: string)
      requires Valid()
      modifies this
      ensures Valid()
      ensures has == old(has) + Proper({Edge(rel, a, b), Edge(rel, b, a)})
    {
      Link(rel, a, b);
      Link(rel, b, a);
    }

    /** `for n in list { if !seen[n] { seen[n] = true; out = append(out, n) } }`. */
    static method AddUnseen(out: seq<string>, seen: set<string>, list: seq<string>)
      returns (out': seq<string>, seen': set<string>)
      requires seen == Elems(out)
      ensures out' == AppendNew(out, list) && seen' == Elems(out')
    {
      out', seen' := out, seen;
      for j := 0 to |list|
        invariant seen' == Elems(out')
        invariant AppendNew(out', list[j..]) == AppendNew(out, list)
      {
        assert list[j..][1..] == list[j + 1..];
        if list[j] !in seen' {
          ElemsConcat(out', [list[j]]);
          seen' := seen' + {list[j]};
          out' := out' + [list[j]];
        }
      }
      assert list[|list|..] == [];
    }

    /** The exact closure of start, in breadth-first order. */
    method ExactClosure(start: string) returns (out: seq<string>)
      ensures out == Closure(exact, start)
    {
      out := [start];
      var seen := {start};
      var i := 0;
      while i < |out|
        invariant 0 <= i <= |out|
        invariant seen == Elems(out)
        invariant CloseFrom(exact, out, i) == Closure(exact, start)
        decreases Targets(exact) - Elems(out), |out| - i
      {
        CloseStep(exact, out, i);
        out, seen := AddUnseen(out, seen, Succ(exact, out[i]));
        i := i + 1;
      }
    }

    /**
     Appends the members of list that are not in ids yet, unless that takes more than MAX_RESULTS: then
     ok is false and the walk is over.
     */
    method AddAll(ids: seq<string>, list: seq<string>, ghost full: seq<string>) returns (more: seq<string>, ok: bool)
      requires |ids| <= MAX_RESULTS
      requires AppendNew(ids, list) <= full
      ensures ok ==> more == AppendNew(ids, list) && |more| <= MAX_RESULTS
      ensures !ok ==> more == Capped(full) && |full| > MAX_RESULTS
    {
      more, ok := ids, true;
      for j := 0 to |list|
        invariant |more| <= MAX_RESULTS
        invariant AppendNew(more, list[j..]) == AppendNew(ids, list)
      {
        assert list[j..][1..] == list[j + 1..];
        if list[j] !in more {
          if |more| >= MAX_RESULTS {
            assert more + [list[j]] <= AppendNew(ids, list) <= full;
            return more, false;
          }
          more := more + [list[j]];
        }
      }
      assert list[|list|..] == [];
    }

    method AddChildren(ids: seq<string>, children: seq<string>, ghost full: seq<string>)
      returns (more: seq<string>, ok: bool)
      requires |ids| <= MAX_RESULTS
      requires AddClosures(exact, ids, children) <= full
      ensures ok ==> more == AddClosures(exact, ids, children) && |more| <= MAX_RESULTS
      ensures !ok ==> more == Capped(full) && |full| > MAX_RESULTS
    {
      hide Closure, AppendNew;
      more, ok := ids, true;
      for j := 0 to |children|
        invariant ok && |more| <= MAX_RESULTS
        invariant AddClosures(exact, more, children[j..]) == AddClosures(exact, ids, children)
      {
        assert children[j..][1..] == children[j + 1..];
        if children[j] in more { continue; }
        var closure := ExactClosure(children[j]);
        more, ok := AddAll(more, closure, full);
        if !ok { return; }
      }
      assert children[|children|..] == [];
    }

    /** One narrowing step from frontier; next holds what it added. */
    method AddLevel(ids: seq<string>, frontier: seq<string>, ghost full: seq<string>)
      returns (more: seq<string>, next: seq<string>, ok: bool)
      requires |ids| <= MAX_RESULTS
      requires AddClosures(exact, ids, Children(narrower, frontier)) <= full
      ensures ok ==> more == AddClosures(exact, ids, Children(narrower, frontier)) && |more| <= MAX_RESULTS
      ensures ok ==> more == ids + next
      ensures !ok ==> more == Capped(full) && |full| > MAX_RESULTS
    {
      more, next, ok := ids, [], true;
      for i := 0 to |frontier|
        invariant ok && |more| <= MAX_RESULTS && more == ids + next
        invariant AddClosures(exact, more, Children(narrower, frontier[i..])) ==
                  AddClosures(exact, ids, Children(narrower, frontier))
      {
        var children := Succ(narrower, frontier[i]);
        assert frontier[i..][1..] == frontier[i + 1..];
        AddClosuresConcat(exact, more, children, Children(narrower, frontier[i + 1..]));
        var before := more;
        more, ok := AddChildren(more, children, full);
        if !ok { return; }
        TailGrows(ids, next, before, more);
        next := next + more[|before|..];
      }
      assert frontier[|frontier|..] == [];
    }

    /** `for x in xs { for n in links[x] { add(n) } }`. */
    method AddNeighbours(ids: seq<string>, links: Links, xs: seq<string>, ghost full: seq<string>)
      returns (more: seq<string>, ok: bool)
      requires |ids| <= MAX_RESULTS
      requires AppendNew(ids, Children(links, xs)) <= full
      ensures ok ==> more == AppendNew(ids, Children(links, xs)) && |more| <= MAX_RESULTS
      ensures !ok ==> more == Capped(full) && |full| > MAX_RESULTS
    {
      more, ok := ids, true;
      for i := 0 to |xs|
        invariant ok && |more| <= MAX_RESULTS
        invariant AppendNew(more, Children(links, xs[i..])) == AppendNew(ids, Children(links, xs))
      {
        assert xs[i..][1..] == xs[i + 1..];
        AppendNewConcat(more, Succ(links, xs[i]), Children(links, xs[i + 1..]));
        more, ok := AddAll(more, Succ(links, xs[i]), full);
        if !ok { return; }
      }
      assert xs[|xs|..] == [];
    }

    /** Everything narrower than ids, down to MAX_DEPTH steps. */
    method AddNarrower(ids: seq<string>, ghost full: seq<string>) returns (more: seq<string>, ok: bool)
      requires |ids| <= MAX_RESULTS
      requires Levels(View(), ids, 0, MAX_DEPTH) <= full
      ensures ok ==> more == Levels(View(), ids, 0, MAX_DEPTH) && |more| <= MAX_RESULTS
      ensures !ok ==> more == Capped(full) && |full| > MAX_RESULTS
    {
      ghost var v := View();
      more, ok := ids, true;
      var frontier := ids;
      var depth := 0;
      ghost var from: nat := 0;
      while depth < MAX_DEPTH && |frontier| > 0
        invariant depth <= MAX_DEPTH && |more| <= MAX_RESULTS && ok
        invariant from <= |more| && frontier == more[from..]
        invariant Levels(v, more, from, MAX_DEPTH - depth) == Levels(v, ids, 0, MAX_DEPTH)
      {
        LevelsStep(v, more, from, MAX_DEPTH - depth);
        from := |more|;
        more, frontier, ok := AddLevel(more, frontier, full);
        if !ok { return; }
        depth := depth + 1;
      }
    }

    /**
     id followed by what a filter on id should also match, at most MAX_RESULTS identifiers; truncated
     tells whether the cap cut the result.
     */
    method Expand(id: string, withRelated: bool) returns (ids: seq<string>, truncated: bool)
      ensures ids == Capped(Trace(View(), id, withRelated))
      ensures truncated == (|Trace(View(), id, withRelated)| > MAX_RESULTS)
    {
      hide AppendNew, Levels, Children, Closure;
      ghost var full := Trace(View(), id, withRelated);
      TraceStages(View(), id, withRelated);
      var ok;
      var closure := ExactClosure(id);
      ids, ok := AddAll([], closure, full);
      if !ok { return ids, true; }
      ids, ok := AddNeighbours(ids, close, closure, full);
      if !ok { return ids, true; }
      ids, ok := AddNarrower(ids, full);
      if !ok { return ids, true; }
      if withRelated {
        ids, ok := AddNeighbours(ids, related, closure, full);
        if !ok { return ids, true; }
      }
      truncated := false;
    }
  }

  /** The graph over concepts and mappings, with sorted adjacency lists. */
  method NewGraph(concepts: seq<Concept>, mappings: seq<Mapping>) returns (g: Graph)
    ensures fresh(g) && g.Valid()
    ensures g.has == EdgeSet(concepts, mappings)
    ensures g.View() == BuildGraph(concepts, mappings)
  {
    g := new Graph();
    var ids := map[];
    for i := 0 to |concepts|
      invariant ids == IdByAddress(concepts[..i])
    {
      assert concepts[..i + 1][..i] == concepts[..i];
      ids := ids[concepts[i].address := concepts[i].id];
    }
    assert concepts[..|concepts|] == concepts;
    LinkHierarchy(g, concepts, ids);
    var nonExact := NonExactPairs(mappings);
    LinkMappings(g, mappings, nonExact);
    ProperUnion(AllConceptEdges(concepts, ids), AllMappingEdges(mappings, mappings));
    SortAll(g);
    RepresentsBuildGraph(g.View(), concepts, mappings);
  }

  lemma ProperUnion(a: set<Edge>, b: set<Edge>)
    ensures {} + Proper(a) + Proper(b) == Proper(a + b)
  {
  }

  lemma RepresentsBuildGraph(v: Relations, concepts: seq<Concept>, mappings: seq<Mapping>)
    requires Represents(v, EdgeSet(concepts, mappings)) && Sorted(v)
    ensures v == BuildGraph(concepts, mappings)
  {
    TabulateRepresents(EdgeSet(concepts, mappings));
    RepresentationUnique(v, BuildGraph(concepts, mappings), EdgeSet(concepts, mappings));
  }

  method LinkHierarchy(g: Graph, concepts: seq<Concept>, ids: map<string, string>)
    requires g.Valid()
    modifies g
    ensures g.Valid()
    ensures g.has == old(g.has) + Proper(AllConceptEdges(concepts, ids))
  {
    hide Represents, ConceptEdges;
    for i := 0 to |concepts|
      invariant g.Valid()
      invariant g.has == old(g.has) + Proper(AllConceptEdges(concepts[..i], ids))
    {
      LinkConcept(g, concepts[i], ids);
      AllConceptEdgesAppend(concepts[..i], concepts[i], ids);
      assert concepts[..i + 1] == concepts[..i] + [concepts[i]];
    }
    assert concepts[..|concepts|] == concepts;
  }

  lemma AllConceptEdgesAppend(concepts: seq<Concept>, c: Concept, ids: map<string, string>)
    ensures Proper(AllConceptEdges(concepts + [c], ids)) ==
            Proper(AllConceptEdges(concepts, ids)) + Proper(ConceptEdges(c, ids))
  {
  }

  method LinkConcept(g: Graph, c: Concept, ids: map<string, string>)
    requires g.Valid()
    modifies g
    ensures g.Valid()
    ensures g.has == old(g.has) + Proper(ConceptEdges(c, ids))
  {
    LinkBroader(g, c, ids);
    LinkNarrower(g, c, ids);
  }

  method LinkBroader(g: Graph, c: Concept, ids: map<string, string>)
    requires g.Valid()
    modifies g
    ensures g.Valid()
    ensures g.has == old(g.has) + Proper(set b | b in c.broader :: Edge(Narrower, Resolve(ids, b), c.id))
  {
    hide Resolve, Represents;
    assert Proper({}) == {};
    for j := 0 to |c.broader|
      invariant g.Valid()
      invariant g.has == old(g.has) + Proper(set b | b in c.broader[..j] :: Edge(Narrower, Resolve(ids, b), c.id))
    {
      assert c.broader[..j + 1] == c.broader[..j] + [c.broader[j]];
      g.Link(Narrower, Resolve(ids, c.broader[j]), c.id);
    }
    assert c.broader[..|c.broader|] == c.broader;
  }

  method LinkNarrower(g: Graph, c: Concept, ids: map<string, string>)
    requires g.Valid()
    modifies g
    ensures g.Valid()
    ensures g.has == old(g.has) + Proper(set n | n in c.narrower :: Edge(Narrower, c.id, Resolve(ids, n)))
  {
    hide Resolve, Represents;
    for j := 0 to |c.narrower|
      invariant g.Valid()
      invariant g.has == old(g.has) + Proper(set n | n in c.narrower[..j] :: Edge(Narrower, c.id, Resolve(ids, n)))
    {
      assert c.narrower[..j + 1] == c.narrower[..j] + [c.narrower[j]];
      g.Link(Narrower, c.id, Resolve(ids, c.narrower[j]));
    }
    assert c.narrower[..|c.narrower|] == c.narrower;
  }

  /** The pairs the conflict rule takes out of the exact relation. */
  method NonExactPairs(mappings: seq<Mapping>) returns (nonExact: set<(string, string)>)
    ensures forall a, b :: Pair(a, b) in nonExact <==> Conflict(mappings, a, b)
  {
    nonExact := {};
    for i := 0 to |mappings|
      invariant forall a, b :: Pair(a, b) in nonExact <==> Conflict(mappings[..i], a, b)
    {
      var m := mappings[i];
      ConflictAppend(mappings[..i], m);
      assert mappings[..i + 1] == mappings[..i] + [m];
      if |m.to| == 1 && m.relation != "exactMatch" && m.relation != "closeMatch" {
        forall a, b ensures Pair(a, b) == Pair(m.from, m.to[0]) <==> {m.from, m.to[0]} == {a, b} {
          PairIsUnordered(a, b, m.from, m.to[0]);
        }
        nonExact := nonExact + {Pair(m.from, m.to[0])};
      }
    }
    assert mappings[..|mappings|] == mappings;
  }

  lemma ConflictAppend(mappings: seq<Mapping>, m: Mapping)
    ensures forall a, b :: Conflict(mappings + [m], a, b) <==> 
                (Conflict(mappings, a, b) ||
                 (OneToOne(m) && m.relation != "exactMatch" && m.relation != "closeMatch" &&
                  {m.from, m.to[0]} == {a, b}))
  {
    var all := mappings + [m];
    assert forall x :: x in all <==> x in mappings || x == m;
  }

  method LinkMappings(g: Graph, mappings: seq<Mapping>, nonExact: set<(string, string)>)
    requires g.Valid()
    requires forall a, b :: Pair(a, b) in nonExact <==> Conflict(mappings, a, b)
    modifies g
    ensures g.Valid()
    ensures g.has == old(g.has) + Proper(AllMappingEdges(mappings, mappings))
  {
    hide Represents, Less;
    for i := 0 to |mappings|
      invariant g.Valid()
      invariant g.has == old(g.has) + Proper(AllMappingEdges(mappings[..i], mappings))
    {
      var m := mappings[i];
      assert mappings[..i + 1] == mappings[..i] + [m];
      AllMappingEdgesAppend(mappings[..i], m, mappings);
      if |m.to| == 1 {
        var a, b := m.from, m.to[0];
        if m.relation == "exactMatch" {
          if Pair(a, b) !in nonExact { g.Both(Exact, a, b); }
        } else if m.relation == "closeMatch" {
          g.Both(Close, a, b);
        } else if m.relation == "relatedMatch" {
          g.Both(Related, a, b);
        } else if m.relation == "broadMatch" {
          g.Link(Narrower, b, a);
        } else if m.relation == "narrowMatch" {
          g.Link(Narrower, a, b);
        }
      }
    }
    assert mappings[..|mappings|] == mappings;
  }

  lemma AllMappingEdgesAppend(mappings: seq<Mapping>, m: Mapping, all: seq<Mapping>)
    ensures Proper(AllMappingEdges(mappings + [m], all)) ==
            Proper(AllMappingEdges(mappings, all)) + Proper(MappingEdges(m, all))
  {
  }

  method SortAll(g: Graph)
    requires g.Valid()
    modifies g
    ensures g.Valid() && g.has == old(g.has) && Sorted(g.View())
  {
    hide Sort, Less, Represents, Sorted;
    ghost var before := g.View();
    g.exact := SortLists(g.exact);
    g.close := SortLists(g.close);
    g.related := SortLists(g.related);
    g.narrower := SortLists(g.narrower);
    SortingRepresents(before, g.View(), g.has);
  }

  lemma TailGrows(ids: seq<string>, next: seq<string>, before: seq<string>, after: seq<string>)
    requires before == ids + next && before <= after
    ensures after == ids + (next + after[|before|..])
  {
  }

  function Pair(a: string, b: string): (string, string) {
    if Less(a, b) then (a, b) else (b, a)
  }

  lemma PairIsUnordered(a: string, b: string, c: string, d: string)
    ensures Pair(a, b) == Pair(c, d) <==> {a, b} == {c, d}
  {
    LessIsStrictOrder();
    if {a, b} == {c, d} {
      assert a in {c, d} && b in {c, d} && c in {a, b} && d in {a, b};
    }
  }

  method SortLists(links: Links) returns (sorted: Links)
    ensures sorted.Keys == links.Keys
    ensures forall x :: x in links ==> sorted[x] == Sort(Less, links[x])
  {
    sorted := links;
    var todo := links.Keys;
    while todo != {}
      invariant todo <= links.Keys == sorted.Keys
      invariant forall x :: x in links ==> sorted[x] == if x in todo then links[x] else Sort(Less, links[x])
      decreases todo
    {
      var x :| x in todo;
      sorted := sorted[x := Sort(Less, links[x])];
      todo := todo - {x};
    }
  }

  lemma SortingRepresents(v: Relations, w: Relations, edges: set<Edge>)
    requires Represents(v, edges)
    requires forall rel :: w.Of(rel).Keys == v.Of(rel).Keys
    requires forall rel, x :: x in v.Of(rel) ==> w.Of(rel)[x] == Sort(Less, v.Of(rel)[x])
    ensures Represents(w, edges) && Sorted(w)
  {
    LessIsStrictOrder();
    forall rel, x
      ensures Ascending(Less, Succ(w.Of(rel), x)) && NoDup(Succ(w.Of(rel), x))
      ensures Elems(Succ(w.Of(rel), x)) == Elems(Succ(v.Of(rel), x))
      ensures x in w.Of(rel) ==> w.Of(rel)[x] != []
    {
      if x in v.Of(rel) {
        assert NoDup(Succ(v.Of(rel), x));
        SortAscending(Less, v.Of(rel)[x]);
        AscendingNoDup(Less, Succ(w.Of(rel), x));
      }
    }
    forall rel, x, y ensures y in Succ(w.Of(rel), x) <==> Edge(rel, x, y) in edges {
      assert y in Succ(w.Of(rel), x) <==> y in Elems(Succ(w.Of(rel), x));
      assert y in Succ(v.Of(rel), x) <==> y in Elems(Succ(v.Of(rel), x));
    }
  }

  /** Adding one missing edge at the end of its adjacency list. */
  lemma LinkRepresents(v: Relations, w: Relations, edges: set<Edge>, key: Edge)
    requires Represents(v, edges) && key !in edges
    requires forall rel :: w.Of(rel) ==
               if rel == key.rel then v.Of(rel)[key.from := Succ(v.Of(rel), key.from) + [key.to]] else v.Of(rel)
    ensures Represents(w, edges + {key})
  {
    forall rel, x
      ensures Succ(w.Of(rel), x) == Succ(v.Of(rel), x) + if rel == key.rel && x == key.from then [key.to] else []
    {
    }
  }

  // ----- The uncapped expansion, in order -----

  ghost function Targets(links: Links): set<string> {
    set x, y | x in links && y in links[x] :: y
  }

  ghost function CloseFrom(links: Links, out: seq<string>, i: nat): (r: seq<string>)
    requires i <= |out|
    ensures out <= r
    decreases Targets(links) - Elems(out), |out| - i
  {
    if i == |out| then out
    else
      CloseStep(links, out, i);
      CloseFrom(links, AppendNew(out, Succ(links, out[i])), i + 1)
  }

  lemma CloseStep(links: Links, out: seq<string>, i: nat)
    requires i < |out|
    ensures var next := AppendNew(out, Succ(links, out[i]));
            next == out || Targets(links) - Elems(next) < Targets(links) - Elems(out)
  {
    var list := Succ(links, out[i]);
    var next := AppendNew(out, list);
    AppendNewElems(out, list);
    if Elems(list) <= Elems(out) {
      assert forall x :: x in list ==> x in Elems(list);
      AppendNewKeeps(out, list);
    } else {
      var y :| y in Elems(list) && y !in Elems(out);
      assert y in Targets(links) && y in Elems(next);
      assert y in Targets(links) - Elems(out) && y !in Targets(links) - Elems(next);
    }
  }

  ghost function Closure(exact: Links, start: string): (r: seq<string>)
    ensures start in r && r[0] == start
  {
    CloseFrom(exact, [start], 0)
  }

  lemma {:induction false} CloseFromNoDup(links: Links, out: seq<string>, i: nat)
    requires i <= |out| && NoDup(out)
    ensures NoDup(CloseFrom(links, out, i))
    decreases Targets(links) - Elems(out), |out| - i
  {
    if i < |out| {
      CloseStep(links, out, i);
      AppendNewNoDup(out, Succ(links, out[i]));
      CloseFromNoDup(links, AppendNew(out, Succ(links, out[i])), i + 1);
    }
  }

  lemma ClosureNoDup(exact: Links, start: string)
    ensures NoDup(Closure(exact, start))
  {
    CloseFromNoDup(exact, [start], 0);
  }

  function Children(links: Links, xs: seq<string>): seq<string> {
    if xs == [] then [] else Succ(links, xs[0]) + Children(links, xs[1..])
  }

  lemma {:induction false} ChildrenMembers(links: Links, xs: seq<string>, y: string)
    ensures y in Children(links, xs) <==> exists x :: x in xs && y in Succ(links, x)
    decreases |xs|
  {
    if xs == [] {
    } else {
      ChildrenMembers(links, xs[1..], y);
      assert xs == [xs[0]] + xs[1..];
    }
  }

  /** Each child that is not there yet comes with its exact closure. */
  ghost function AddClosures(exact: Links, ids: seq<string>, children: seq<string>): (r: seq<string>)
    ensures ids <= r
    decreases |children|
  {
    if children == [] then ids
    else AddClosures(exact, if children[0] in ids then ids else AppendNew(ids, Closure(exact, children[0])),
                     children[1..])
  }

  lemma {:induction false} AddClosuresConcat(exact: Links, ids: seq<string>, a: seq<string>, b: seq<string>)
    ensures AddClosures(exact, ids, a + b) == AddClosures(exact, AddClosures(exact, ids, a), b)
    decreases |a|
  {
    if a == [] {
      assert a + b == b;
    } else {
      assert (a + b)[1..] == a[1..] + b;
      AddClosuresConcat(exact, if a[0] in ids then ids else AppendNew(ids, Closure(exact, a[0])), a[1..], b);
    }
  }

  /** The narrowing steps that are left, when ids[from..] is the frontier. */
  ghost function Levels(v: Relations, ids: seq<string>, from: nat, depth: nat): (r: seq<string>)
    requires from <= |ids|
    decreases depth
  {
    if depth == 0 || from == |ids| then ids
    else Levels(v, AddClosures(v.exact, ids, Children(v.narrower, ids[from..])), |ids|, depth - 1)
  }

  lemma {:induction false} LevelsExtend(v: Relations, ids: seq<string>, from: nat, depth: nat)
    requires from <= |ids|
    ensures ids <= Levels(v, ids, from, depth)
    decreases depth
  {
    if depth == 0 || from == |ids| {
    } else {
      LevelsExtend(v, AddClosures(v.exact, ids, Children(v.narrower, ids[from..])), |ids|, depth - 1);
    }
  }

  lemma LevelsStep(v: Relations, ids: seq<string>, from: nat, depth: nat)
    requires from < |ids| && depth > 0
    ensures var next := AddClosures(v.exact, ids, Children(v.narrower, ids[from..]));
            next <= Levels(v, ids, from, depth) && Levels(v, ids, from, depth) == Levels(v, next, |ids|, depth - 1)
  {
    hide AddClosures, Children;
    LevelsExtend(v, AddClosures(v.exact, ids, Children(v.narrower, ids[from..])), |ids|, depth - 1);
  }

  ghost function NearTrace(v: Relations, id: string): seq<string> {
    AppendNew(Closure(v.exact, id), Children(v.close, Closure(v.exact, id)))
  }

  ghost function NarrowTrace(v: Relations, id: string): seq<string> {
    Levels(v, NearTrace(v, id), 0, MAX_DEPTH)
  }

  /** Everything Expand would return without the cap. */
  ghost function Trace(v: Relations, id: string, withRelated: bool): seq<string> {
    if withRelated then AppendNew(NarrowTrace(v, id), Children(v.related, Closure(v.exact, id))) else NarrowTrace(v, id)
  }

  /** Each stage of the walk continues the one before. */
  lemma TraceStages(v: Relations, id: string, withRelated: bool)
    ensures AppendNew([], Closure(v.exact, id)) == Closure(v.exact, id)
    ensures Closure(v.exact, id) <= Trace(v, id, withRelated)
    ensures NearTrace(v, id) <= NarrowTrace(v, id) <= Trace(v, id, withRelated)
  {
    hide AppendNew, Levels, Children, CloseFrom, NoDup;
    LevelsExtend(v, NearTrace(v, id), 0, MAX_DEPTH);
    ClosureNoDup(v.exact, id);
    assert [] + Closure(v.exact, id) == Closure(v.exact, id);
    AppendNewFresh([], Closure(v.exact, id));
  }

  function Capped(full: seq<string>): seq<string> {
    if |full| <= MAX_RESULTS then full else full[..MAX_RESULTS]
  }
}
