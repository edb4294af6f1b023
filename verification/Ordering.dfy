/** Strict orders and sorting; byte order of Go strings. */
module Ordering {
  import opened Sequences

  ghost predicate StrictOrder<T(!new)>(less: (T, T) -> bool) {
    && (forall x :: !less(x, x))
    && (forall x, y, z :: less(x, y) && less(y, z) ==> less(x, z))
    && (forall x, y :: less(x, y) || x == y || less(y, x))
  }

  ghost predicate Ascending<T>(less: (T, T) -> bool, s: seq<T>) {
    forall i, j :: 0 <= i < j < |s| ==> less(s[i], s[j])
  }

  function Insert<T(==)>(less: (T, T) -> bool, x: T, s: seq<T>): (r: seq<T>)
    ensures Elems(r) == Elems(s) + {x}
    ensures |r| == |s| + 1
  {
    if s == [] then [x]
    else if less(s[0], x) then
      var r := [s[0]] + Insert(less, x, s[1..]);
      assert Elems(r) == Elems(s) + {x} by {
        assert s == [s[0]] + s[1..];
        ElemsConcat([s[0]], s[1..]);
        ElemsConcat([s[0]], Insert(less, x, s[1..]));
      }
      r
    else [x] + s
  }

  /** What `sort.Strings` and `slices.SortFunc` return on distinct members: the library code is not modelled. */
  function Sort<T(==)>(less: (T, T) -> bool, s: seq<T>): (r: seq<T>)
    ensures Elems(r) == Elems(s)
    ensures |r| == |s|
  {
    if s == [] then []
    else
      assert s == [s[0]] + s[1..];
      Insert(less, s[0], Sort(less, s[1..]))
  }

  lemma {:induction false} InsertAscending<T(!new)>(less: (T, T) -> bool, x: T, s: seq<T>)
    requires StrictOrder(less) && Ascending(less, s) && x !in s
    ensures Ascending(less, Insert(less, x, s))
    decreases |s|
  {
    if s == [] {
    } else if less(s[0], x) {
      var t := Insert(less, x, s[1..]);
      InsertAscending(less, x, s[1..]);
      forall j | 0 <= j < |t| ensures less(s[0], t[j]) {
        assert t[j] in Elems(t);
        if t[j] != x {
          var k :| 0 <= k < |s[1..]| && s[1..][k] == t[j];
          assert s[k + 1] == t[j];
        }
      }
    } else {
      assert x != s[0] by { assert s[0] in s; }
      forall j | 0 <= j < |s| ensures less(x, s[j]) {
        if j > 0 { assert less(s[0], s[j]); }
      }
    }
  }

  lemma {:induction false} SortAscending<T(!new)>(less: (T, T) -> bool, s: seq<T>)
    requires StrictOrder(less) && NoDup(s)
    ensures Ascending(less, Sort(less, s))
    decreases |s|
  {
    if s == [] {
    } else {
      SortAscending(less, s[1..]);
      assert forall k :: 0 <= k < |s[1..]| ==> s[1..][k] == s[k + 1];
      assert s[0] !in s[1..];
      assert s[0] !in Elems(Sort(less, s[1..]));
      InsertAscending(less, s[0], Sort(less, s[1..]));
    }
  }

  lemma {:induction false} InsertMultiset<T>(less: (T, T) -> bool, x: T, s: seq<T>)
    ensures multiset(Insert(less, x, s)) == multiset(s) + multiset{x}
    decreases |s|
  {
    if s == [] {
    } else if less(s[0], x) {
      InsertMultiset(less, x, s[1..]);
      assert s == [s[0]] + s[1..];
    }
  }

  lemma {:induction false} SortMultiset<T>(less: (T, T) -> bool, s: seq<T>)
    ensures multiset(Sort(less, s)) == multiset(s)
    decreases |s|
  {
    if s == [] {
    } else {
      SortMultiset(less, s[1..]);
      InsertMultiset(less, s[0], Sort(less, s[1..]));
      assert s == [s[0]] + s[1..];
    }
  }

  lemma AscendingNoDup<T(!new)>(less: (T, T) -> bool, s: seq<T>)
    requires StrictOrder(less) && Ascending(less, s)
    ensures NoDup(s)
  {
  }

  /** Two ascending lists with the same members are the same list. */
  lemma {:induction false} AscendingUnique<T(!new)>(less: (T, T) -> bool, a: seq<T>, b: seq<T>)
    requires StrictOrder(less) && Ascending(less, a) && Ascending(less, b)
    requires Elems(a) == Elems(b)
    ensures a == b
    decreases |a|
  {
    if a == [] {
      assert forall j :: 0 <= j < |b| ==> b[j] in Elems(b);
    } else {
      assert a[0] in Elems(a);
      assert b != [];
      assert b[0] in Elems(b);
      HeadIsLeast(less, a);
      HeadIsLeast(less, b);
      assert a[0] == b[0];
      TailElems(less, a);
      TailElems(less, b);
      AscendingUnique(less, a[1..], b[1..]);
      assert a == [a[0]] + a[1..] == [b[0]] + b[1..] == b;
    }
  }

  lemma HeadIsLeast<T(!new)>(less: (T, T) -> bool, s: seq<T>)
    requires Ascending(less, s) && s != []
    ensures forall x :: x in Elems(s) ==> x == s[0] || less(s[0], x)
  {
  }

  lemma TailElems<T(!new)>(less: (T, T) -> bool, s: seq<T>)
    requires StrictOrder(less) && Ascending(less, s) && s != []
    ensures Elems(s[1..]) == Elems(s) - {s[0]}
  {
    assert s == [s[0]] + s[1..];
    assert forall k :: 0 <= k < |s[1..]| ==> less(s[0], s[1..][k]);
    assert s[0] !in s[1..];
  }

  /** The one ascending list of the members of s. */
  ghost function SortedSeq<T(!new)>(less: (T, T) -> bool, s: set<T>): (r: seq<T>)
    requires StrictOrder(less)
    ensures Ascending(less, r) && Elems(r) == s
  {
    if s == {} then []
    else
      var x :| x in s;
      var rest := SortedSeq(less, s - {x});
      assert x !in Elems(rest);
      InsertAscending(less, x, rest);
      Insert(less, x, rest)
  }

  lemma SortIsSortedSeq<T(!new)>(less: (T, T) -> bool, s: seq<T>)
    requires StrictOrder(less) && NoDup(s)
    ensures Sort(less, s) == SortedSeq(less, Elems(s))
  {
    SortAscending(less, s);
    AscendingUnique(less, Sort(less, s), SortedSeq(less, Elems(s)));
  }

  /** Go's `<` on strings: byte order. Each char stands for one byte. */
  predicate Less(a: string, b: string) {
    b != [] && (a == [] || a[0] < b[0] || (a[0] == b[0] && Less(a[1..], b[1..])))
  }

  lemma {:induction false} LessTransitive(a: string, b: string, c: string)
    requires Less(a, b) && Less(b, c)
    ensures Less(a, c)
    decreases |a|
  {
    if a != [] && a[0] == b[0] && b[0] == c[0] {
      LessTransitive(a[1..], b[1..], c[1..]);
    }
  }

  lemma {:induction false} LessConnected(a: string, b: string)
    ensures Less(a, b) || a == b || Less(b, a)
    decreases |a|
  {
    if a != [] && b != [] && a[0] == b[0] {
      LessConnected(a[1..], b[1..]);
      assert a == [a[0]] + a[1..] && b == [b[0]] + b[1..];
    }
  }

  lemma {:induction false} LessIrreflexive(a: string)
    ensures !Less(a, a)
    decreases |a|
  {
    if a != [] { LessIrreflexive(a[1..]); }
  }

  lemma LessIsStrictOrder()
    ensures StrictOrder(Less)
  {
    forall x ensures !Less(x, x) { LessIrreflexive(x); }
    forall x, y, z | Less(x, y) && Less(y, z) ensures Less(x, z) { LessTransitive(x, y, z); }
    forall x, y ensures Less(x, y) || x == y || Less(y, x) { LessConnected(x, y); }
  }
}
