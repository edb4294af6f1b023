/** What the layered walk of VocabGraph means: reachability, and independence of the input order. */
module VocabExpansion {
  import opened Sequences
  import opened Vocab
  import opened VocabGraph

  // ----- The exact closure is reachability -----

  ghost predicate Walk(links: Links, p: seq<string>) {
    p != [] && forall i :: 0 <= i < |p| - 1 ==> p[i + 1] in Succ(links, p[i])
  }

  ghost predicate WalkFromTo(links: Links, p: seq<string>, x: string, y: string) {
    Walk(links, p) && p[0] == x && p[|p| - 1] == y
  }

  /** y is x, or follows from it along exact links. */
  ghost predicate Reaches(links: Links, x: string, y: string) {
    exists p :: WalkFromTo(links, p, x, y)
  }

  lemma ReachesSelf(links: Links, x: string)
    ensures Reaches(links, x, x)
  {
    assert WalkFromTo(links, [x], x, x);
  }

  lemma ReachesStep(links: Links, x: string, y: string, z: string)
    requires Reaches(links, x, y) && z in Succ(links, y)
    ensures Reaches(links, x, z)
  {
    var p :| WalkFromTo(links, p, x, y);
    var q := p + [z];
    assert forall i :: 0 <= i < |q| - 1 ==> q[i] == p[i];
    assert WalkFromTo(links, q, x, z);
  }

  lemma ReachesTransitive(links: Links, x: string, y: string, z: string)
    requires Reaches(links, x, y) && Reaches(links, y, z)
    ensures Reaches(links, x, z)
  {
    var p :| WalkFromTo(links, p, x, y);
    var q :| WalkFromTo(links, q, y, z);
    var r := p + q[1..];
    forall i | 0 <= i < |r| - 1 ensures r[i + 1] in Succ(links, r[i]) {
      if i + 1 < |p| {
      } else {
        assert r[i + 1] == q[i + 2 - |p|] && r[i] == q[i + 1 - |p|];
      }
    }
    assert WalkFromTo(links, r, x, z);
  }

  lemma {:induction false} CloseFromSound(links: Links, x: string, out: seq<string>, i: nat)
    requires i <= |out| && forall y :: y in out ==> Reaches(links, x, y)
    ensures forall y :: y in CloseFrom(links, out, i) ==> Reaches(links, x, y)
    decreases Targets(links) - Elems(out), |out| - i
  {
    if i < |out| {
      CloseStep(links, out, i);
      var list := Succ(links, out[i]);
      forall y | y in AppendNew(out, list) ensures Reaches(links, x, y) {
        AppendNewElems(out, list);
        assert y in Elems(AppendNew(out, list));
        if y in list { ReachesStep(links, x, out[i], y); }
      }
      CloseFromSound(links, x, AppendNew(out, list), i + 1);
    }
  }

  lemma {:induction false} CloseFromClosed(links: Links, out: seq<string>, i: nat)
    requires i <= |out| && forall k, z :: 0 <= k < i && z in Succ(links, out[k]) ==> z in out
    ensures forall y, z :: y in CloseFrom(links, out, i) && z in Succ(links, y) ==> z in CloseFrom(links, out, i)
    decreases Targets(links) - Elems(out), |out| - i
  {
    if i < |out| {
      CloseStep(links, out, i);
      var list := Succ(links, out[i]);
      var next := AppendNew(out, list);
      forall k, z | 0 <= k < i + 1 && z in Succ(links, next[k]) ensures z in next {
        AppendNewElems(out, list);
        assert z in out || z in list;
        assert z in Elems(next);
      }
      CloseFromClosed(links, next, i + 1);
    }
  }

  lemma {:induction false} WalkStaysInside(links: Links, inside: seq<string>, p: seq<string>)
    requires Walk(links, p) && p[0] in inside
    requires forall y, z :: y in inside && z in Succ(links, y) ==> z in inside
    ensures p[|p| - 1] in inside
    decreases |p|
  {
    if |p| > 1 {
      WalkStaysInside(links, inside, p[1..]);
    }
  }

  /** exactClosure finds exactly what exact links reach. */
  lemma ClosureIsReachability(exact: Links, x: string, y: string)
    ensures y in Closure(exact, x) <==> Reaches(exact, x, y)
  {
    ReachesSelf(exact, x);
    CloseFromSound(exact, x, [x], 0);
    CloseFromClosed(exact, [x], 0);
    if Reaches(exact, x, y) {
      var p :| WalkFromTo(exact, p, x, y);
      WalkStaysInside(exact, Closure(exact, x), p);
    }
  }

  // ----- The expansion as a set -----

  /** In the exact closure of id, or a direct close neighbour of it. */
  ghost predicate Near(v: Relations, id: string, y: string) {
    Reaches(v.exact, id, y) || exists e :: Reaches(v.exact, id, e) && y in Succ(v.close, e)
  }

  /** c is a narrower child of something found in k steps and was not found in k steps itself. */
  ghost predicate NewChild(v: Relations, id: string, k: nat, x: string, c: string)
    decreases k, 1
  {
    Found(v, id, k, x) && c in Succ(v.narrower, x) && !Found(v, id, k, c)
  }

  /** In the exact closure of a new child of what k steps found. */
  ghost predicate FoundNext(v: Relations, id: string, k: nat, y: string)
    decreases k, 2
  {
    exists x, c :: NewChild(v, id, k, x, c) && Reaches(v.exact, c, y)
  }

  /** Found in at most k narrowing steps, each new child with its exact closure. */
  ghost predicate Found(v: Relations, id: string, k: nat, y: string)
    decreases k, 0
  {
    if k == 0 then Near(v, id, y) else Found(v, id, k - 1, y) || FoundNext(v, id, k - 1, y)
  }

  /** What a filter on id should also match, as a set. */
  ghost predicate InExpansion(v: Relations, id: string, withRelated: bool, y: string) {
    || Found(v, id, MAX_DEPTH, y)
    || (withRelated && exists e :: Reaches(v.exact, id, e) && y in Succ(v.related, e))
  }

  /** Every member of ids that is not in before came with its exact closure. */
  ghost predicate NewOnesClosed(exact: Links, before: seq<string>, ids: seq<string>) {
    forall y, z :: y in ids && y !in before && Reaches(exact, y, z) ==> z in ids
  }

  ghost predicate FromChildren(exact: Links, before: seq<string>, children: seq<string>, y: string) {
    exists c :: c in children && c !in before && Reaches(exact, c, y)
  }

  lemma {:induction false} AddClosuresMembers(exact: Links, before: seq<string>, ids: seq<string>,
                                              children: seq<string>)
    requires before <= ids && NewOnesClosed(exact, before, ids)
    ensures forall y :: y in AddClosures(exact, ids, children) <==> y in ids || FromChildren(exact, before, children, y)
    decreases |children|
  {
    if children == [] {
    } else {
      var c := children[0];
      var next := if c in ids then ids else AppendNew(ids, Closure(exact, c));
      assert children == [c] + children[1..];
      AddOneClosure(exact, before, ids, c);
      AddClosuresMembers(exact, before, next, children[1..]);
      forall y
        ensures FromChildren(exact, before, children, y) <==>
                FromChildren(exact, before, [c], y) || FromChildren(exact, before, children[1..], y)
      {
      }
    }
  }

  lemma AddOneClosure(exact: Links, before: seq<string>, ids: seq<string>, c: string)
    requires before <= ids && NewOnesClosed(exact, before, ids)
    ensures var next := if c in ids then ids else AppendNew(ids, Closure(exact, c));
            && before <= next && NewOnesClosed(exact, before, next)
            && forall y :: y in next <==> y in ids || FromChildren(exact, before, [c], y)
  {
    var next := if c in ids then ids else AppendNew(ids, Closure(exact, c));
    if c in ids {
      if c !in before { assert forall y :: Reaches(exact, c, y) ==> y in ids; }
    } else {
      AppendNewElems(ids, Closure(exact, c));
      forall y ensures y in next <==> y in ids || Reaches(exact, c, y) {
        ClosureIsReachability(exact, c, y);
        assert y in next <==> y in Elems(next);
      }
      forall y, z | y in next && y !in before && Reaches(exact, y, z) ensures z in next {
        if y !in ids { ReachesTransitive(exact, c, y, z); }
      }
    }
    assert c in [c];
  }

  lemma NewChildMeans(v: Relations, id: string, k: nat, x: string, c: string)
    ensures NewChild(v, id, k, x, c) <==> Found(v, id, k, x) && c in Succ(v.narrower, x) && !Found(v, id, k, c)
  {
  }

  ghost predicate Holds(v: Relations, id: string, k: nat, ids: seq<string>) {
    forall y :: y in ids <==> Found(v, id, k, y)
  }

  /** The children of everything before the frontier have been taken. */
  ghost predicate Behind(v: Relations, ids: seq<string>, from: nat)
    requires from <= |ids|
  {
    forall x, c :: x in ids[..from] && c in Succ(v.narrower, x) ==> c in ids
  }

  lemma FrontierChildren(v: Relations, id: string, k: nat, ids: seq<string>, from: nat, c: string)
    requires from <= |ids| && Holds(v, id, k, ids) && Behind(v, ids, from)
    ensures c in Children(v.narrower, ids[from..]) && c !in ids <==> exists x :: NewChild(v, id, k, x, c)
  {
    ChildrenMembers(v.narrower, ids[from..], c);
    assert ids == ids[..from] + ids[from..];
    if x :| NewChild(v, id, k, x, c) {
      assert x in ids && c !in ids;
      assert x in ids[from..];
    }
    if c in Children(v.narrower, ids[from..]) && c !in ids {
      var x :| x in ids[from..] && c in Succ(v.narrower, x);
      NewChildMeans(v, id, k, x, c);
    }
  }

  lemma OneLevel(v: Relations, id: string, k: nat, ids: seq<string>, from: nat)
    requires from <= |ids| && Holds(v, id, k, ids) && Behind(v, ids, from)
    ensures var next := AddClosures(v.exact, ids, Children(v.narrower, ids[from..]));
            ids <= next && Holds(v, id, k + 1, next) && Behind(v, next, |ids|)
  {
    var children := Children(v.narrower, ids[from..]);
    var next := AddClosures(v.exact, ids, children);
    AddClosuresMembers(v.exact, ids, ids, children);
    forall y ensures FromChildren(v.exact, ids, children, y) <==> FoundNext(v, id, k, y) {
      ChildrenFound(v, id, k, ids, from, y);
    }
    forall x, c | x in next[..|ids|] && c in Succ(v.narrower, x) ensures c in next {
      assert next[..|ids|] == ids;
      if c !in ids {
        assert NewChild(v, id, k, x, c);
        ReachesSelf(v.exact, c);
        assert FoundNext(v, id, k, c);
      }
    }
  }

  lemma ChildrenFound(v: Relations, id: string, k: nat, ids: seq<string>, from: nat, y: string)
    requires from <= |ids| && Holds(v, id, k, ids) && Behind(v, ids, from)
    ensures FromChildren(v.exact, ids, Children(v.narrower, ids[from..]), y) <==> FoundNext(v, id, k, y)
  {
    forall c ensures c in Children(v.narrower, ids[from..]) && c !in ids <==> exists x :: NewChild(v, id, k, x, c) {
      FrontierChildren(v, id, k, ids, from, c);
    }
  }

  /** With an empty frontier nothing more is found. */
  lemma {:induction false} FixedPoint(v: Relations, id: string, k: nat, ids: seq<string>, more: nat)
    requires Holds(v, id, k, ids) && Behind(v, ids, |ids|)
    ensures Holds(v, id, k + more, ids)
    decreases more
  {
    if more > 0 {
      var j := k + more - 1;
      FixedPoint(v, id, k, ids, more - 1);
      assert ids[..|ids|] == ids;
      forall x, c ensures !NewChild(v, id, j, x, c) {
        NewChildMeans(v, id, j, x, c);
      }
      forall y ensures Found(v, id, k + more, y) <==> y in ids {
        assert !FoundNext(v, id, j, y);
        assert Found(v, id, k + more, y) <==> Found(v, id, j, y) || FoundNext(v, id, j, y);
      }
    }
  }

  lemma {:induction false} LevelsMembers(v: Relations, id: string, k: nat, ids: seq<string>, from: nat, depth: nat)
    requires from <= |ids| && Holds(v, id, k, ids) && Behind(v, ids, from)
    ensures Holds(v, id, k + depth, Levels(v, ids, from, depth))
    decreases depth
  {
    if depth == 0 {
    } else if from == |ids| {
      FixedPoint(v, id, k, ids, depth);
    } else {
      OneLevel(v, id, k, ids, from);
      LevelsMembers(v, id, k + 1, AddClosures(v.exact, ids, Children(v.narrower, ids[from..])), |ids|, depth - 1);
    }
  }

  lemma ExactNeighbours(v: Relations, id: string, links: Links, y: string)
    ensures y in Children(links, Closure(v.exact, id)) <==> exists e :: Reaches(v.exact, id, e) && y in Succ(links, e)
  {
    ChildrenMembers(links, Closure(v.exact, id), y);
    forall e ensures e in Closure(v.exact, id) <==> Reaches(v.exact, id, e) {
      ClosureIsReachability(v.exact, id, e);
    }
  }

  lemma NearTraceIsNear(v: Relations, id: string)
    ensures Holds(v, id, 0, NearTrace(v, id))
  {
    var closure := Closure(v.exact, id);
    forall z ensures z in NearTrace(v, id) <==> Near(v, id, z) {
      ClosureIsReachability(v.exact, id, z);
      ExactNeighbours(v, id, v.close, z);
      AppendNewMember(closure, Children(v.close, closure), z);
    }
  }

  /** The uncapped walk returns exactly the expansion. */
  lemma TraceIsExpansion(v: Relations, id: string, withRelated: bool, y: string)
    ensures y in Trace(v, id, withRelated) <==> InExpansion(v, id, withRelated, y)
  {
    NearTraceIsNear(v, id);
    LevelsMembers(v, id, 0, NearTrace(v, id), 0, MAX_DEPTH);
    ExactNeighbours(v, id, v.related, y);
    AppendNewMember(NarrowTrace(v, id), Children(v.related, Closure(v.exact, id)), y);
  }

  // ----- No duplicates, the queried identifier first, a capped result is a prefix -----

  lemma {:induction false} AddClosuresNoDup(exact: Links, ids: seq<string>, children: seq<string>)
    requires NoDup(ids)
    ensures NoDup(AddClosures(exact, ids, children))
    decreases |children|
  {
    if children != [] {
      AppendNewNoDup(ids, Closure(exact, children[0]));
      AddClosuresNoDup(exact, if children[0] in ids then ids else AppendNew(ids, Closure(exact, children[0])),
                       children[1..]);
    }
  }

  lemma {:induction false} LevelsNoDup(v: Relations, ids: seq<string>, from: nat, depth: nat)
    requires from <= |ids| && NoDup(ids)
    ensures NoDup(Levels(v, ids, from, depth))
    decreases depth
  {
    hide NoDup, AddClosures, Children;
    if depth > 0 && from < |ids| {
      AddClosuresNoDup(v.exact, ids, Children(v.narrower, ids[from..]));
      LevelsNoDup(v, AddClosures(v.exact, ids, Children(v.narrower, ids[from..])), |ids|, depth - 1);
    }
  }

  lemma TraceStartsWithId(v: Relations, id: string, withRelated: bool)
    ensures NoDup(Trace(v, id, withRelated))
    ensures Trace(v, id, withRelated) != [] && Trace(v, id, withRelated)[0] == id
  {
    var closure := Closure(v.exact, id);
    ClosureNoDup(v.exact, id);
    AppendNewNoDup(closure, Children(v.close, closure));
    LevelsNoDup(v, NearTrace(v, id), 0, MAX_DEPTH);
    LevelsExtend(v, NearTrace(v, id), 0, MAX_DEPTH);
    AppendNewNoDup(NarrowTrace(v, id), Children(v.related, closure));
    assert closure <= NearTrace(v, id) <= NarrowTrace(v, id) <= Trace(v, id, withRelated);
  }

  /**
   What a capped result promises: distinct members of the expansion, the queried identifier first, and
   all of the expansion unless it has more than MAX_RESULTS members.
   */
  lemma CappedExpansion(v: Relations, id: string, withRelated: bool)
    ensures var ids := Capped(Trace(v, id, withRelated));
            && ids != [] && ids[0] == id && NoDup(ids) && |ids| <= MAX_RESULTS
            && (forall y :: y in ids ==> InExpansion(v, id, withRelated, y))
            && (|Trace(v, id, withRelated)| <= MAX_RESULTS ==> forall y :: InExpansion(v, id, withRelated, y) ==>
                  y in ids)
            && (|Trace(v, id, withRelated)| > MAX_RESULTS ==> |ids| == MAX_RESULTS)
  {
    var full := Trace(v, id, withRelated);
    TraceStartsWithId(v, id, withRelated);
    forall y ensures y in full <==> InExpansion(v, id, withRelated, y) {
      TraceIsExpansion(v, id, withRelated, y);
    }
    assert forall y :: y in Capped(full) ==> y in full;
  }

  // ----- Exact identifiers are interchangeable -----

  ghost predicate Symmetric(links: Links) {
    forall x, y :: y in Succ(links, x) ==> x in Succ(links, y)
  }

  /** NewGraph links exact, close and related identifiers both ways. */
  lemma BuiltSymmetric(concepts: seq<Concept>, mappings: seq<Mapping>, rel: Rel)
    requires rel != Narrower
    ensures Symmetric(BuildGraph(concepts, mappings).Of(rel))
  {
    var v := BuildGraph(concepts, mappings);
    TabulateRepresents(EdgeSet(concepts, mappings));
    forall x, y | y in Succ(v.Of(rel), x) ensures x in Succ(v.Of(rel), y) {
      EdgeBack(concepts, mappings, rel, x, y);
    }
  }

  lemma EdgeBack(concepts: seq<Concept>, mappings: seq<Mapping>, rel: Rel, x: string, y: string)
    requires rel != Narrower && Edge(rel, x, y) in EdgeSet(concepts, mappings)
    ensures Edge(rel, y, x) in EdgeSet(concepts, mappings)
  {
    hide Conflict, IdByAddress, Resolve;
    var e := Edge(rel, x, y);
    assert e in AllMappingEdges(mappings, mappings);
    var m :| m in mappings && e in MappingEdges(m, mappings);
    assert Edge(rel, y, x) in MappingEdges(m, mappings);
    assert Edge(rel, y, x) in AllMappingEdges(mappings, mappings);
  }

  lemma {:induction false} WalkBack(links: Links, p: seq<string>)
    requires Symmetric(links) && Walk(links, p)
    ensures Reaches(links, p[|p| - 1], p[0])
    decreases |p|
  {
    if |p| == 1 {
      ReachesSelf(links, p[0]);
    } else {
      WalkBack(links, p[1..]);
      ReachesStep(links, p[|p| - 1], p[1], p[0]);
    }
  }

  lemma ReachesSymmetric(links: Links, x: string, y: string)
    requires Symmetric(links) && Reaches(links, x, y)
    ensures Reaches(links, y, x)
  {
    var p :| WalkFromTo(links, p, x, y);
    WalkBack(links, p);
  }

  lemma {:induction false} FoundAlike(v: Relations, a: string, b: string, k: nat, y: string)
    requires forall e :: Reaches(v.exact, a, e) <==> Reaches(v.exact, b, e)
    ensures Found(v, a, k, y) <==> Found(v, b, k, y)
    decreases k
  {
    if k > 0 {
      FoundAlike(v, a, b, k - 1, y);
      var j := k - 1;
      forall x, c ensures NewChild(v, a, j, x, c) <==> NewChild(v, b, j, x, c) {
        FoundAlike(v, a, b, j, x);
        FoundAlike(v, a, b, j, c);
        NewChildMeans(v, a, j, x, c);
        NewChildMeans(v, b, j, x, c);
      }
      assert FoundNext(v, a, j, y) <==> FoundNext(v, b, j, y);
    }
  }

  /** Identifiers that exact mappings connect, in any number of steps, expand to the same set. */
  lemma ExactIdentifiersExpandAlike(concepts: seq<Concept>, mappings: seq<Mapping>, a: string, b: string,
                                    withRelated: bool, y: string)
    requires b in Closure(BuildGraph(concepts, mappings).exact, a)
    ensures var v := BuildGraph(concepts, mappings);
            y in Trace(v, a, withRelated) <==> y in Trace(v, b, withRelated)
  {
    var v := BuildGraph(concepts, mappings);
    BuiltSymmetric(concepts, mappings, Exact);
    ClosureIsReachability(v.exact, a, b);
    ReachesSymmetric(v.exact, a, b);
    forall e ensures Reaches(v.exact, a, e) <==> Reaches(v.exact, b, e) {
      if Reaches(v.exact, a, e) { ReachesTransitive(v.exact, b, a, e); }
      if Reaches(v.exact, b, e) { ReachesTransitive(v.exact, a, b, e); }
    }
    FoundAlike(v, a, b, MAX_DEPTH, y);
    TraceIsExpansion(v, a, withRelated, y);
    TraceIsExpansion(v, b, withRelated, y);
  }

  // ----- The order of concepts and mappings does not matter -----

  ghost predicate DistinctAddresses(concepts: seq<Concept>) {
    forall c, d :: c in concepts && d in concepts && c.address == d.address ==> c == d
  }

  lemma {:induction false} IdByAddressMembers(concepts: seq<Concept>, address: string)
    requires DistinctAddresses(concepts)
    ensures address in IdByAddress(concepts) <==> exists c :: c in concepts && c.address == address
    ensures forall c :: c in concepts ==> c.address in IdByAddress(concepts) && IdByAddress(concepts)[c.address] == c.id
    decreases |concepts|
  {
    if concepts != [] {
      var init, last := concepts[..|concepts| - 1], concepts[|concepts| - 1];
      assert concepts == init + [last];
      IdByAddressMembers(init, address);
    }
  }

  lemma IdByAddressOrder(a: seq<Concept>, b: seq<Concept>)
    requires DistinctAddresses(a) && Elems(a) == Elems(b)
    ensures IdByAddress(a) == IdByAddress(b)
  {
    assert forall c :: c in a <==> c in Elems(a);
    assert forall c :: c in b <==> c in Elems(b);
    forall address
      ensures address in IdByAddress(a) <==> address in IdByAddress(b)
      ensures address in IdByAddress(a) ==> IdByAddress(a)[address] == IdByAddress(b)[address]
    {
      IdByAddressMembers(a, address);
      IdByAddressMembers(b, address);
    }
  }

  /**
   The graph, and so every expansion of it with its order and its cut, depends only on which concepts and
   mappings there are.
   */
  lemma GraphOrderIndependent(cs: seq<Concept>, ds: seq<Concept>, ms: seq<Mapping>, ns: seq<Mapping>)
    requires DistinctAddresses(cs) && Elems(cs) == Elems(ds) && Elems(ms) == Elems(ns)
    ensures BuildGraph(cs, ms) == BuildGraph(ds, ns)
  {
    IdByAddressOrder(cs, ds);
    assert forall c :: c in cs <==> c in Elems(cs);
    assert forall c :: c in ds <==> c in Elems(ds);
    assert forall m :: m in ms <==> m in Elems(ms);
    assert forall m :: m in ns <==> m in Elems(ns);
    var ids := IdByAddress(cs);
    assert AllConceptEdges(cs, ids) == AllConceptEdges(ds, ids);
    forall a, b ensures Conflict(ms, a, b) <==> Conflict(ns, a, b) {
    }
    forall m ensures MappingEdges(m, ms) == MappingEdges(m, ns) {
    }
    assert AllMappingEdges(ms, ms) == AllMappingEdges(ns, ns);
  }
}
