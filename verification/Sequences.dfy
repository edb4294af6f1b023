/** Ordered, duplicate-free sequences: the shapes Go code builds with a slice and a `seen` map. */
module Sequences {

  function Elems<T>(s: seq<T>): set<T> {
    set x | x in s
  }

  lemma ElemsConcat<T>(a: seq<T>, b: seq<T>)
    ensures Elems(a + b) == Elems(a) + Elems(b)
  {
  }

  lemma {:induction false} SubsetSize<T>(a: set<T>, b: set<T>)
    requires a <= b
    ensures |a| <= |b| && (|a| == |b| ==> a == b)
    decreases a
  {
    if a != {} {
      var x :| x in a;
      SubsetSize(a - {x}, b - {x});
      assert a == (a - {x}) + {x} && b == (b - {x}) + {x};
    }
  }

  ghost predicate NoDup<T>(s: seq<T>) {
    forall i, j :: 0 <= i < j < |s| ==> s[i] != s[j]
  }

  /**
   Appends the members of xs that are not there yet, in order:
   `if !seen[x] { seen[x] = true; out = append(out, x) }`.
   */
  function AppendNew<T(==)>(out: seq<T>, xs: seq<T>): (r: seq<T>)
    ensures out <= r
    decreases |xs|
  {
    if xs == [] then out
    else AppendNew(if xs[0] in out then out else out + [xs[0]], xs[1..])
  }

  lemma {:induction false} AppendNewElems<T>(out: seq<T>, xs: seq<T>)
    ensures Elems(AppendNew(out, xs)) == Elems(out) + Elems(xs)
    decreases |xs|
  {
    if xs == [] {
    } else {
      var next := if xs[0] in out then out else out + [xs[0]];
      AppendNewElems(next, xs[1..]);
      assert xs == [xs[0]] + xs[1..];
      ElemsConcat([xs[0]], xs[1..]);
      assert Elems(next) == Elems(out) + {xs[0]};
    }
  }

  lemma AppendNewMember<T>(out: seq<T>, xs: seq<T>, y: T)
    ensures y in AppendNew(out, xs) <==> y in out || y in xs
  {
    AppendNewElems(out, xs);
    assert y in AppendNew(out, xs) <==> y in Elems(AppendNew(out, xs));
  }

  lemma {:induction false} AppendNewNoDup<T>(out: seq<T>, xs: seq<T>)
    requires NoDup(out)
    ensures NoDup(AppendNew(out, xs))
    decreases |xs|
  {
    if xs == [] {
    } else {
      AppendNewNoDup(if xs[0] in out then out else out + [xs[0]], xs[1..]);
    }
  }

  /** Nothing new, nothing appended. */
  lemma {:induction false} AppendNewKeeps<T>(out: seq<T>, xs: seq<T>)
    requires forall x :: x in xs ==> x in out
    ensures AppendNew(out, xs) == out
    decreases |xs|
  {
    if xs == [] {
    } else {
      assert xs[0] in xs;
      assert forall x :: x in xs[1..] ==> x in xs;
      AppendNewKeeps(out, xs[1..]);
    }
  }

  lemma {:induction false} AppendNewConcat<T>(out: seq<T>, a: seq<T>, b: seq<T>)
    ensures AppendNew(out, a + b) == AppendNew(AppendNew(out, a), b)
    decreases |a|
  {
    if a == [] {
      assert a + b == b;
    } else {
      assert (a + b)[1..] == a[1..] + b;
      AppendNewConcat(if a[0] in out then out else out + [a[0]], a[1..], b);
    }
  }

  /** A list of new, distinct members is appended whole. */
  lemma {:induction false} AppendNewFresh<T>(out: seq<T>, xs: seq<T>)
    requires NoDup(out + xs)
    ensures AppendNew(out, xs) == out + xs
    decreases |xs|
  {
    if xs == [] {
      assert out + xs == out;
    } else {
      var all := out + xs;
      assert all[|out|] == xs[0];
      assert forall i :: 0 <= i < |out| ==> out[i] == all[i] && all[i] != all[|out|];
      assert xs[0] !in out;
      assert (out + [xs[0]]) + xs[1..] == all;
      AppendNewFresh(out + [xs[0]], xs[1..]);
    }
  }

  /** The lists f yields for the members of xs, one after the other. */
  function FlatMap<T, U>(f: T -> seq<U>, xs: seq<T>): seq<U> {
    if xs == [] then [] else f(xs[0]) + FlatMap(f, xs[1..])
  }

  lemma {:induction false} FlatMapElems<T, U>(f: T -> seq<U>, xs: seq<T>, y: U)
    ensures y in FlatMap(f, xs) <==> exists x :: x in xs && y in f(x)
    decreases |xs|
  {
    if xs == [] {
    } else {
      FlatMapElems(f, xs[1..], y);
      assert xs == [xs[0]] + xs[1..];
      if x :| x in xs && y in f(x) {
        assert x == xs[0] || x in xs[1..];
      }
    }
  }

  /** The members that p keeps, in order. */
  function Filter<T>(p: T -> bool, s: seq<T>): (r: seq<T>)
    ensures |r| <= |s|
  {
    if s == [] then []
    else if p(s[0]) then [s[0]] + Filter(p, s[1..])
    else Filter(p, s[1..])
  }

  lemma {:induction false} FilterElems<T>(p: T -> bool, s: seq<T>, x: T)
    ensures x in Filter(p, s) <==> x in s && p(x)
    decreases |s|
  {
    if s == [] {
    } else {
      FilterElems(p, s[1..], x);
      assert s == [s[0]] + s[1..];
    }
  }

  /** Filtering by the stronger condition alone is enough. */
  lemma {:induction false} FilterTwice<T>(p: T -> bool, q: T -> bool, s: seq<T>)
    requires forall x :: x in s && p(x) ==> q(x)
    ensures Filter(p, Filter(q, s)) == Filter(p, s)
    decreases |s|
  {
    if s != [] {
      assert s[0] in s;
      assert forall x :: x in s[1..] ==> x in s;
      FilterTwice(p, q, s[1..]);
      if q(s[0]) {
        assert Filter(q, s)[1..] == Filter(q, s[1..]);
      }
    }
  }

  lemma {:induction false} FilterConcat<T>(p: T -> bool, a: seq<T>, b: seq<T>)
    ensures Filter(p, a + b) == Filter(p, a) + Filter(p, b)
    decreases |a|
  {
    if a == [] {
      assert a + b == b;
    } else {
      assert (a + b)[1..] == a[1..] + b;
      FilterConcat(p, a[1..], b);
    }
  }

  lemma NoDupCardinality<T>(s: seq<T>)
    requires NoDup(s)
    ensures |Elems(s)| == |s|
    decreases |s|
  {
    if s == [] {
      assert Elems(s) == {};
    } else {
      var t := s[..|s| - 1];
      var x := s[|s| - 1];
      assert s == t + [x];
      NoDupCardinality(t);
      assert forall i :: 0 <= i < |t| ==> t[i] == s[i] && s[i] != x;
      assert x !in t;
      assert Elems(s) == Elems(t) + {x};
    }
  }
}
