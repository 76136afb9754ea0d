/** Stable sorting by a total preorder: the model of the library sorts the sources call. */
module Sorting {

  ghost predicate TotalPreorder<T(!new)>(leq: (T, T) -> bool)
  {
    && (forall x, y :: leq(x, y) || leq(y, x))
    && (forall x, y, z :: leq(x, y) && leq(y, z) ==> leq(x, z))
  }

  ghost predicate SortedBy<T>(s: seq<T>, leq: (T, T) -> bool)
  {
    forall i, j :: 0 <= i < j < |s| ==> leq(s[i], s[j])
  }

  /** Puts `x` behind everything that may stand before it. */
  function Insert<T>(x: T, s: seq<T>, leq: (T, T) -> bool): seq<T>
  {
    if s == [] || leq(s[|s| - 1], x) then s + [x]
    else Insert(x, s[..|s| - 1], leq) + [s[|s| - 1]]
  }

  function Sort<T>(s: seq<T>, leq: (T, T) -> bool): seq<T>
  {
    if s == [] then [] else Insert(s[|s| - 1], Sort(s[..|s| - 1], leq), leq)
  }

  lemma {:induction false} InsertPermutes<T>(x: T, s: seq<T>, leq: (T, T) -> bool)
    ensures multiset(Insert(x, s, leq)) == multiset(s) + multiset{x}
  {
    if s != [] && !leq(s[|s| - 1], x) {
      InsertPermutes(x, s[..|s| - 1], leq);
      assert s == s[..|s| - 1] + [s[|s| - 1]];
    }
  }

  lemma {:induction false} InsertSorts<T(!new)>(x: T, s: seq<T>, leq: (T, T) -> bool)
    requires TotalPreorder(leq) && SortedBy(s, leq)
    ensures SortedBy(Insert(x, s, leq), leq)
  {
    if s != [] && !leq(s[|s| - 1], x) {
      var init, last := s[..|s| - 1], s[|s| - 1];
      InsertSorts(x, init, leq);
      InsertPermutes(x, init, leq);
      forall i | 0 <= i < |Insert(x, init, leq)|
        ensures leq(Insert(x, init, leq)[i], last)
      {
        assert Insert(x, init, leq)[i] in multiset(init) + multiset{x};
      }
    }
  }

  lemma {:induction false} SortPermutes<T>(s: seq<T>, leq: (T, T) -> bool)
    ensures multiset(Sort(s, leq)) == multiset(s) && |Sort(s, leq)| == |s|
  {
    if s != [] {
      SortPermutes(s[..|s| - 1], leq);
      InsertPermutes(s[|s| - 1], Sort(s[..|s| - 1], leq), leq);
      assert s == s[..|s| - 1] + [s[|s| - 1]];
    }
    assert |multiset(Sort(s, leq))| == |Sort(s, leq)|;
  }

  lemma SortKeepsElements<T>(s: seq<T>, leq: (T, T) -> bool, x: T)
    ensures x in Sort(s, leq) <==> x in s
  {
    SortPermutes(s, leq);
    assert x in multiset(Sort(s, leq)) <==> x in multiset(s);
  }

  lemma {:induction false} SortSorts<T(!new)>(s: seq<T>, leq: (T, T) -> bool)
    requires TotalPreorder(leq)
    ensures SortedBy(Sort(s, leq), leq)
  {
    if s != [] {
      SortSorts(s[..|s| - 1], leq);
      InsertSorts(s[|s| - 1], Sort(s[..|s| - 1], leq), leq);
    }
  }

  lemma LastIsMaximal<T(!new)>(a: seq<T>, x: T, leq: (T, T) -> bool)
    requires SortedBy(a, leq) && x in multiset(a)
    ensures a != [] && (x == a[|a| - 1] || leq(x, a[|a| - 1]))
  {
    var i :| 0 <= i < |a| && a[i] == x;
  }

  lemma DropLast<T>(a: seq<T>)
    requires a != []
    ensures multiset(a[..|a| - 1]) == multiset(a) - multiset{a[|a| - 1]}
    ensures a == a[..|a| - 1] + [a[|a| - 1]]
    ensures a[|a| - 1] in multiset(a)
  {
    assert a == a[..|a| - 1] + [a[|a| - 1]];
  }

  /** The elements of `s` are among `all`, where ties are equal elements. */
  ghost predicate NoTies<T(!new)>(s: seq<T>, leq: (T, T) -> bool, all: set<T>)
  {
    && (forall i :: 0 <= i < |s| ==> s[i] in all)
    && (forall x, y :: x in all && y in all && leq(x, y) && leq(y, x) ==> x == y)
  }

  lemma LastsAgree<T(!new)>(a: seq<T>, b: seq<T>, leq: (T, T) -> bool, all: set<T>)
    requires SortedBy(a, leq) && SortedBy(b, leq) && multiset(a) == multiset(b) && NoTies(a, leq, all)
    requires a != []
    ensures b != [] && a[|a| - 1] == b[|b| - 1]
  {
    assert a[|a| - 1] in multiset(a);
    LastIsMaximal(b, a[|a| - 1], leq);
    assert b[|b| - 1] in multiset(b);
    LastIsMaximal(a, b[|b| - 1], leq);
  }

  /** Two sorted arrangements of the same elements are equal. */
  lemma {:induction false} SortedIsUnique<T(!new)>(a: seq<T>, b: seq<T>, leq: (T, T) -> bool, all: set<T>)
    requires SortedBy(a, leq) && SortedBy(b, leq) && multiset(a) == multiset(b) && NoTies(a, leq, all)
    ensures a == b
  {
    if a == [] {
      assert |multiset(b)| == |b|;
    } else {
      LastsAgree(a, b, leq, all);
      DropLast(a);
      DropLast(b);
      var a', b' := a[..|a| - 1], b[..|b| - 1];
      assert forall i :: 0 <= i < |a'| ==> a'[i] == a[i];
      assert forall i :: 0 <= i < |b'| ==> b'[i] == b[i];
      SortedIsUnique(a', b', leq, all);
    }
  }
}
