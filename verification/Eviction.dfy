/** Planning which kernel-cache directories to evict. */
module Eviction {
  import opened Sorting

  /**
    A path, as numbers compared from the left. With 0 for a separator and
    b + 1 for a byte b this is the component-by-component order of paths.
   */
  type Path = seq<nat>

  datatype CachedShape = CachedShape(path: Path, bytes: nat, lastUsed: int)

  datatype Plan = Plan(remove: seq<Path>, bytesAfter: int, stillOverCap: bool)

  predicate PathLeq(a: Path, b: Path)
  {
    a == [] || (b != [] && (a[0] < b[0] || (a[0] == b[0] && PathLeq(a[1..], b[1..]))))
  }

  /** Least recently used first, ties by path. */
  predicate Before(a: CachedShape, b: CachedShape)
  {
    a.lastUsed < b.lastUsed || (a.lastUsed == b.lastUsed && PathLeq(a.path, b.path))
  }

  function Sum(shapes: seq<CachedShape>): nat
  {
    if shapes == [] then 0 else Sum(shapes[..|shapes| - 1]) + shapes[|shapes| - 1].bytes
  }

  /** The shapes whose path is not `keep` (or, with `kept`, those whose path is). */
  function Select(shapes: seq<CachedShape>, keep: Path, kept: bool): seq<CachedShape>
  {
    if shapes == [] then []
    else
      var last := shapes[|shapes| - 1];
      Select(shapes[..|shapes| - 1], keep, kept) + (if (last.path == keep) == kept then [last] else [])
  }

  function Order(shapes: seq<CachedShape>, keep: Path): seq<CachedShape>
  {
    Sort(Select(shapes, keep, false), Before)
  }

  /** How many of `order`, from the `k`-th on, go before the total fits. */
  function Cutoff(order: seq<CachedShape>, remaining: int, cap: nat, k: nat): (n: nat)
    requires k <= |order|
    ensures k <= n <= |order|
    decreases |order| - k
  {
    if k == |order| || remaining <= cap then k else Cutoff(order, remaining - order[k].bytes, cap, k + 1)
  }

  function Paths(shapes: seq<CachedShape>): seq<Path>
  {
    seq(|shapes|, i requires 0 <= i < |shapes| => shapes[i].path)
  }

  function PlanSpec(shapes: seq<CachedShape>, keep: Path, cap: nat): Plan
  {
    if cap == 0 || Sum(shapes) <= cap then Plan([], Sum(shapes), false)
    else
      var order := Order(shapes, keep);
      var n := Cutoff(order, Sum(shapes), cap, 0);
      var after := Sum(shapes) - Sum(order[..n]);
      Plan(Paths(order[..n]), after, after > cap)
  }

  method PlanEviction(shapes: seq<CachedShape>, keep: Path, cap: nat) returns (plan: Plan)
    ensures plan == PlanSpec(shapes, keep, cap)
  {
    var total := 0;
    for i := 0 to |shapes|
      invariant total == Sum(shapes[..i])
    {
      assert shapes[..i + 1][..i] == shapes[..i];
      total := total + shapes[i].bytes;
    }
    assert shapes[..|shapes|] == shapes;
    if cap == 0 || total <= cap {
      return Plan([], total, false);
    }
    var candidates := Sort(Select(shapes, keep, false), Before);
    var remaining: int := total;
    var remove: seq<Path> := [];
    var k := 0;
    while k < |candidates| && remaining > cap
      invariant 0 <= k <= |candidates|
      invariant remove == Paths(candidates[..k]) && remaining == total - Sum(candidates[..k])
      invariant Cutoff(candidates, remaining, cap, k) == Cutoff(candidates, total, cap, 0)
    {
      assert candidates[..k + 1][..k] == candidates[..k];
      remaining := remaining - candidates[k].bytes;
      remove := remove + [candidates[k].path];
      k := k + 1;
    }
    plan := Plan(remove, remaining, remaining > cap);
  }

  // -------------------------------------------------------------- the order

  lemma {:induction false} PathOrder(a: Path, b: Path, c: Path)
    ensures PathLeq(a, b) || PathLeq(b, a)
    ensures PathLeq(a, b) && PathLeq(b, c) ==> PathLeq(a, c)
    ensures PathLeq(a, b) && PathLeq(b, a) ==> a == b
  {
    if a != [] && b != [] {
      PathOrder(a[1..], b[1..], if c == [] then [] else c[1..]);
      assert a[1..] == b[1..] && a[0] == b[0] ==> a == [a[0]] + a[1..] == b;
    }
  }

  lemma BeforeIsTotal()
    ensures TotalPreorder(Before)
  {
    forall x, y
      ensures Before(x, y) || Before(y, x)
    {
      PathOrder(x.path, y.path, []);
    }
    forall x, y, z | Before(x, y) && Before(y, z)
      ensures Before(x, z)
    {
      PathOrder(x.path, y.path, z.path);
    }
  }

  ghost predicate DistinctPaths(shapes: seq<CachedShape>)
  {
    forall i, j :: 0 <= i < j < |shapes| ==> shapes[i].path != shapes[j].path
  }

  /** Sorted arrangements of shapes with distinct paths are unique. */
  lemma ArrangementIsUnique(a: seq<CachedShape>, b: seq<CachedShape>, all: seq<CachedShape>)
    requires multiset(a) == multiset(b) && DistinctPaths(all) && (forall x :: x in a ==> x in all)
    ensures Sort(a, Before) == Sort(b, Before)
  {
    BeforeIsTotal();
    SortSorts(a, Before);
    SortSorts(b, Before);
    SortPermutes(a, Before);
    SortPermutes(b, Before);
    forall x, y | x in all && y in all && Before(x, y) && Before(y, x)
      ensures x == y
    {
      PathOrder(x.path, y.path, []);
      var i :| 0 <= i < |all| && all[i] == x;
      var j :| 0 <= j < |all| && all[j] == y;
    }
    forall i | 0 <= i < |Sort(a, Before)|
      ensures Sort(a, Before)[i] in all
    {
      assert Sort(a, Before)[i] in multiset(a);
    }
    SortedIsUnique(Sort(a, Before), Sort(b, Before), Before, set x | x in all);
  }

  // --------------------------------------------------------------- the sums

  lemma {:induction false} SumInsert(x: CachedShape, s: seq<CachedShape>)
    ensures Sum(Insert(x, s, Before)) == Sum(s) + x.bytes
  {
    var r := Insert(x, s, Before);
    if s == [] || Before(s[|s| - 1], x) {
      assert r[..|r| - 1] == s;
    } else {
      SumInsert(x, s[..|s| - 1]);
      assert r[..|r| - 1] == Insert(x, s[..|s| - 1], Before);
    }
  }

  lemma {:induction false} SumSort(s: seq<CachedShape>)
    ensures Sum(Sort(s, Before)) == Sum(s)
  {
    if s != [] {
      SumSort(s[..|s| - 1]);
      SumInsert(s[|s| - 1], Sort(s[..|s| - 1], Before));
    }
  }

  lemma {:induction false} SumAppend(a: seq<CachedShape>, b: seq<CachedShape>)
    ensures Sum(a + b) == Sum(a) + Sum(b)
  {
    if b == [] {
      assert a + b == a;
    } else {
      SumAppend(a, b[..|b| - 1]);
      assert (a + b)[..|a + b| - 1] == a + b[..|b| - 1];
    }
  }

  lemma SumPush(a: seq<CachedShape>, x: CachedShape)
    ensures Sum(a + [x]) == Sum(a) + x.bytes
  {
    assert (a + [x])[..|a|] == a;
  }

  lemma {:induction false} SumSelect(shapes: seq<CachedShape>, keep: Path)
    ensures Sum(shapes) == Sum(Select(shapes, keep, false)) + Sum(Select(shapes, keep, true))
  {
    if shapes != [] {
      var init, last := shapes[..|shapes| - 1], shapes[|shapes| - 1];
      SumSelect(init, keep);
      assert forall kept :: Select(init, keep, kept) + [] == Select(init, keep, kept);
      if last.path == keep {
        SumPush(Select(init, keep, true), last);
      } else {
        SumPush(Select(init, keep, false), last);
      }
    }
  }

  lemma {:induction false} SelectCounts(shapes: seq<CachedShape>, keep: Path, x: CachedShape)
    ensures multiset(Select(shapes, keep, false))[x] == if x.path == keep then 0 else multiset(shapes)[x]
  {
    if shapes != [] {
      var init, last := shapes[..|shapes| - 1], shapes[|shapes| - 1];
      var rest := Select(init, keep, false);
      assert Select(shapes, keep, false) == rest + (if last.path != keep then [last] else []);
      hide Select;
      assert multiset(shapes) == multiset(init) + multiset{last} by {
        assert shapes == init + [last];
      }
      SelectCounts(init, keep, x);
    }
  }

  // ------------------------------------------------------------ the promises

  /** The plan is the same for every order of the listing. */
  lemma OrderOfListingIsIrrelevant(a: seq<CachedShape>, b: seq<CachedShape>, keep: Path, cap: nat)
    requires multiset(a) == multiset(b) && DistinctPaths(a)
    ensures PlanSpec(a, keep, cap) == PlanSpec(b, keep, cap)
  {
    hide Sum, Select, Sort, Cutoff;
    ArrangementIsUnique(a, b, a);
    SumSort(a);
    SumSort(b);
    SelectionsMatch(a, b, keep);
    ArrangementIsUnique(Select(a, keep, false), Select(b, keep, false), a);
  }

  lemma SelectionsMatch(a: seq<CachedShape>, b: seq<CachedShape>, keep: Path)
    requires multiset(a) == multiset(b)
    ensures multiset(Select(a, keep, false)) == multiset(Select(b, keep, false))
    ensures forall x :: x in Select(a, keep, false) ==> x in a
  {
    hide Select;
    var sa, sb := Select(a, keep, false), Select(b, keep, false);
    forall x
      ensures multiset(sa)[x] == multiset(sb)[x]
    {
      SelectCounts(a, keep, x);
      SelectCounts(b, keep, x);
    }
    forall x | x in sa
      ensures x in a
    {
      assert x in multiset(sa);
      SelectCounts(a, keep, x);
    }
  }

  lemma KeepIsNeverRemoved(shapes: seq<CachedShape>, keep: Path, cap: nat)
    ensures keep !in PlanSpec(shapes, keep, cap).remove
  {
    var order := Order(shapes, keep);
    SortPermutes(Select(shapes, keep, false), Before);
    forall i | 0 <= i < |order|
      ensures order[i].path != keep
    {
      assert order[i] in multiset(Select(shapes, keep, false));
      SelectCounts(shapes, keep, order[i]);
    }
  }

  lemma {:induction false} CutoffIsLeast(order: seq<CachedShape>, total: int, cap: nat, k: nat)
    requires k <= |order|
    ensures var n := Cutoff(order, total - Sum(order[..k]), cap, k);
            && (n < |order| ==> total - Sum(order[..n]) <= cap)
            && (forall j :: k <= j < n ==> total - Sum(order[..j]) > cap)
    decreases |order| - k
  {
    if k < |order| && total - Sum(order[..k]) > cap {
      assert Sum(order[..k + 1]) == Sum(order[..k]) + order[k].bytes by {
        assert order[..k + 1][..k] == order[..k];
      }
      var remaining := total - Sum(order[..k]);
      assert Cutoff(order, remaining, cap, k) == Cutoff(order, remaining - order[k].bytes, cap, k + 1);
      hide *;
      CutoffIsLeast(order, total, cap, k + 1);
    }
  }

  /** What is removed is the shortest prefix, least recently used first, that reaches the cap; nothing without one. */
  lemma RemovesShortestPrefix(shapes: seq<CachedShape>, keep: Path, cap: nat) returns (n: nat)
    ensures var order := Order(shapes, keep);
            && n <= |order| && PlanSpec(shapes, keep, cap).remove == Paths(order[..n])
            && SortedBy(order, Before) && multiset(order) == multiset(Select(shapes, keep, false))
            && (if cap == 0 then n == 0
                else
                  && (n < |order| ==> Sum(shapes) - Sum(order[..n]) <= cap)
                  && (forall j :: 0 <= j < n ==> Sum(shapes) - Sum(order[..j]) > cap))
  {
    var order := Order(shapes, keep);
    hide Select, Insert, Sort;
    BeforeIsTotal();
    SortSorts(Select(shapes, keep, false), Before);
    SortPermutes(Select(shapes, keep, false), Before);
    CutoffIsLeast(order, Sum(shapes), cap, 0);
    n := if cap == 0 then 0 else Cutoff(order, Sum(shapes), cap, 0);
  }

  /** The order of paths: the first difference decides, and a path comes before those it begins. */
  lemma {:induction false} PathLeqIff(a: Path, b: Path)
    ensures PathLeq(a, b) <==>
            a <= b || exists k :: 0 <= k < |a| && k < |b| && a[..k] == b[..k] && a[k] < b[k]
  {
    if a != [] && b != [] {
      if a[0] == b[0] {
        PathLeqIff(a[1..], b[1..]);
        assert a == [a[0]] + a[1..] && b == [b[0]] + b[1..];
        if k :| 0 <= k < |a| && k < |b| && a[..k] == b[..k] && a[k] < b[k] {
          assert a[1..][..k - 1] == a[..k][1..] == b[..k][1..] == b[1..][..k - 1];
        }
        if k :| 0 <= k < |a[1..]| && k < |b[1..]| && a[1..][..k] == b[1..][..k] && a[1..][k] < b[1..][k] {
          assert a[..k + 1] == [a[0]] + a[1..][..k] == b[..k + 1];
        }
      } else if a[0] < b[0] {
        assert a[..0] == b[..0];
      } else if k :| 0 <= k < |a| && k < |b| && a[..k] == b[..k] && a[k] < b[k] {
        assert k > 0 ==> a[..k][0] == b[..k][0];
      }
    }
  }

  /** Nothing is removed before, or instead of, what was used less recently; equally old shapes go by their paths. */
  lemma LeastRecentlyUsedGoesFirst(shapes: seq<CachedShape>, keep: Path, cap: nat, i: nat, j: nat)
    requires i < j < |Order(shapes, keep)|
    ensures var a, b := Order(shapes, keep)[i], Order(shapes, keep)[j];
            && a.lastUsed <= b.lastUsed
            && (a.lastUsed == b.lastUsed ==>
                  a.path <= b.path
                  || exists k :: 0 <= k < |a.path| && k < |b.path|
                                 && a.path[..k] == b.path[..k] && a.path[k] < b.path[k])
    ensures forall k :: 0 <= k < |PlanSpec(shapes, keep, cap).remove| ==>
              k < |Order(shapes, keep)| && PlanSpec(shapes, keep, cap).remove[k] == Order(shapes, keep)[k].path
  {
    var order := Order(shapes, keep);
    var n := RemovesShortestPrefix(shapes, keep, cap);
    PathLeqIff(order[i].path, order[j].path);
    hide Order, PlanSpec, PathLeq;
    assert Before(order[i], order[j]);
  }

  lemma PlanSubtracts(shapes: seq<CachedShape>, keep: Path, cap: nat)
    ensures var plan, order := PlanSpec(shapes, keep, cap), Order(shapes, keep);
            |plan.remove| <= |order| && plan.bytesAfter == Sum(shapes) - Sum(order[..|plan.remove|])
  {
    assert Sum(Order(shapes, keep)[..0]) == 0;
    hide Sum, Order, Cutoff;
  }

  /** Bytes are conserved: what remains is what is kept plus what was not reached. */
  lemma BytesAreConserved(shapes: seq<CachedShape>, keep: Path, cap: nat)
    ensures var plan, order := PlanSpec(shapes, keep, cap), Order(shapes, keep);
            && |plan.remove| <= |order|
            && plan.bytesAfter == Sum(Select(shapes, keep, true)) + Sum(order[|plan.remove|..])
  {
    var order, n := Order(shapes, keep), |PlanSpec(shapes, keep, cap).remove|;
    PlanSubtracts(shapes, keep, cap);
    SumSelect(shapes, keep);
    SumSort(Select(shapes, keep, false));
    assert order == Sort(Select(shapes, keep, false), Before);
    hide *;
    SumAppend(order[..n], order[n..]);
    assert order == order[..n] + order[n..];
  }

  /** The cap stays exceeded exactly when there is one and the kept shape alone exceeds it. */
  lemma StillOverCapIff(shapes: seq<CachedShape>, keep: Path, cap: nat)
    ensures PlanSpec(shapes, keep, cap).stillOverCap <==> cap != 0 && Sum(Select(shapes, keep, true)) > cap
  {
    BytesAreConserved(shapes, keep, cap);
    SumSelect(shapes, keep);
    var n := RemovesShortestPrefix(shapes, keep, cap);
    assert n == |Order(shapes, keep)| ==> Sum(Order(shapes, keep)[n..]) == 0;
  }
}
