/**
  Cutting `0..n` from left to right, each piece grown while a test allows it.
  Batch planning and leaf splitting are both of this kind.
 */
module GreedyCuts {

  datatype Cut = Cut(start: nat, end: nat)

  type Test = (nat, nat) -> bool

  /** Contiguous, non-empty pieces that cover `0..n` exactly once. */
  ghost predicate Covers(cuts: seq<Cut>, n: nat)
  {
    && (forall i :: 0 <= i < |cuts| ==> cuts[i].start < cuts[i].end <= n)
    && (forall i, j :: 0 <= i && j == i + 1 < |cuts| ==> cuts[i].end == cuts[j].start)
    && (if cuts == [] then n == 0 else cuts[0].start == 0 && cuts[|cuts| - 1].end == n)
  }

  /** Every prefix of the piece that holds more than one item passes the test. */
  ghost predicate Grown(cut: Cut, ok: Test)
  {
    forall m :: cut.start + 1 < m <= cut.end ==> ok(cut.start, m)
  }

  /** No piece but the last could have taken one more item. */
  ghost predicate Greedy(cuts: seq<Cut>, n: nat, ok: Test)
  {
    && Covers(cuts, n)
    && (forall i :: 0 <= i < |cuts| ==> Grown(cuts[i], ok))
    && (forall i :: 0 <= i < |cuts| - 1 ==> !ok(cuts[i].start, cuts[i].end + 1))
  }

  /** The pieces closed so far, when piece `start..` is still open. */
  ghost predicate Closed(cuts: seq<Cut>, start: nat, n: nat, ok: Test)
  {
    && Covers(cuts, start)
    && (forall i :: 0 <= i < |cuts| ==> Grown(cuts[i], ok) && !ok(cuts[i].start, cuts[i].end + 1))
  }

  lemma CloseOne(cuts: seq<Cut>, start: nat, end: nat, n: nat, ok: Test)
    requires Closed(cuts, start, n, ok) && start < end
    requires Grown(Cut(start, end), ok) && !ok(start, end + 1)
    ensures Closed(cuts + [Cut(start, end)], end, n, ok)
  {}

  lemma CloseLast(cuts: seq<Cut>, start: nat, n: nat, ok: Test)
    requires Closed(cuts, start, n, ok) && start < n && Grown(Cut(start, n), ok)
    ensures Greedy(cuts + [Cut(start, n)], n, ok)
  {}

  // -------------------------------------------------------------- uniqueness

  lemma {:induction false} SameCut(a: seq<Cut>, b: seq<Cut>, n: nat, ok: Test, i: nat)
    requires Greedy(a, n, ok) && Greedy(b, n, ok) && i < |a| && i < |b|
    ensures a[i] == b[i]
  {
    if i > 0 {
      SameCut(a, b, n, ok, i - 1);
      assert a[i].start == a[i - 1].end && b[i].start == b[i - 1].end;
    }
    StopsTogether(a, b, n, ok, i);
    StopsTogether(b, a, n, ok, i);
  }

  lemma StopsTogether(a: seq<Cut>, b: seq<Cut>, n: nat, ok: Test, i: nat)
    requires Greedy(a, n, ok) && Greedy(b, n, ok) && i < |a| && i < |b| && a[i].start == b[i].start
    ensures a[i].end >= b[i].end
  {
    assert Grown(b[i], ok);
  }

  /** The left-to-right greedy cut is determined by its test. */
  lemma GreedyIsUnique(a: seq<Cut>, b: seq<Cut>, n: nat, ok: Test)
    requires Greedy(a, n, ok) && Greedy(b, n, ok)
    ensures a == b
  {
    forall i | 0 <= i < |a| && i < |b|
      ensures a[i] == b[i]
    {
      SameCut(a, b, n, ok, i);
    }
    if |a| < |b| {
      NoLonger(a, b, n);
    } else if |b| < |a| {
      NoLonger(b, a, n);
    }
  }

  lemma OnlyTheLastReaches(cuts: seq<Cut>, n: nat, i: nat)
    requires Covers(cuts, n) && i < |cuts|
    ensures i < |cuts| - 1 ==> cuts[i].end < n
  {
    if i < |cuts| - 1 {
      assert cuts[i].end == cuts[i + 1].start;
    }
  }

  lemma {:induction false} EndsIncrease(cuts: seq<Cut>, n: nat, i: nat, j: nat)
    requires Covers(cuts, n) && i < j < |cuts|
    ensures cuts[i].end <= cuts[j].start
  {
    if i < j - 1 {
      EndsIncrease(cuts, n, i, j - 1);
    }
    assert cuts[j - 1].end == cuts[j].start;
  }

  /** Without its last piece, a cover covers what comes before that piece. */
  lemma CoversButLast(cuts: seq<Cut>, n: nat)
    requires Covers(cuts, n) && cuts != []
    ensures Covers(cuts[..|cuts| - 1], cuts[|cuts| - 1].start)
  {
    var k := |cuts| - 1;
    forall i | 0 <= i < k
      ensures cuts[i].end <= cuts[k].start
    {
      EndsIncrease(cuts, n, i, k);
    }
    assert k > 0 ==> cuts[k - 1].end == cuts[k].start;
  }

  /** A cover cannot go on after reaching `n`. */
  lemma NoLonger(a: seq<Cut>, b: seq<Cut>, n: nat)
    requires Covers(a, n) && Covers(b, n)
    requires a == [] || (|a| <= |b| && b[|a| - 1].end >= a[|a| - 1].end)
    ensures |b| <= |a|
  {
    if a != [] {
      OnlyTheLastReaches(b, n, |a| - 1);
    }
  }

  // -------------------------------------------------------------- optimality

  /** A range inside a range that passes also passes. */
  ghost predicate Hereditary(ok: Test, n: nat)
  {
    forall a: nat, b: nat, c: nat, d: nat {:trigger ok(a, d), ok(b, c)} ::
      a <= b < c <= d <= n && ok(a, d) ==> ok(b, c)
  }

  /** The piece obeys the limits: a single item, or within the test. */
  predicate Allowed(cut: Cut, ok: Test) { cut.end == cut.start + 1 || ok(cut.start, cut.end) }

  lemma {:induction false} StaysAhead(g: seq<Cut>, p: seq<Cut>, n: nat, ok: Test, i: nat)
    requires Greedy(g, n, ok) && Covers(p, n) && Hereditary(ok, n)
    requires forall k :: 0 <= k < |p| ==> Allowed(p[k], ok)
    requires i < |g| && i < |p|
    ensures g[i].end >= p[i].end
  {
    if i > 0 {
      StaysAhead(g, p, n, ok, i - 1);
      assert g[i].start == g[i - 1].end && p[i].start == p[i - 1].end;
    }
    assert Allowed(p[i], ok);
  }

  /** No cover that obeys the limits has fewer pieces. */
  lemma GreedyIsOptimal(g: seq<Cut>, p: seq<Cut>, n: nat, ok: Test)
    requires Greedy(g, n, ok) && Covers(p, n) && Hereditary(ok, n)
    requires forall k :: 0 <= k < |p| ==> Allowed(p[k], ok)
    ensures |g| <= |p|
  {
    if |p| < |g| {
      if p != [] {
        StaysAhead(g, p, n, ok, |p| - 1);
      }
      NoLonger(p, g, n);
    }
  }

  /** A cover of allowed pieces, none but the last extendable, is the greedy cut. */
  lemma AllowedIsGreedy(cuts: seq<Cut>, n: nat, ok: Test)
    requires Covers(cuts, n) && Hereditary(ok, n) && forall k :: 0 <= k < |cuts| ==> Allowed(cuts[k], ok)
    requires forall i :: 0 <= i < |cuts| - 1 ==> !ok(cuts[i].start, cuts[i].end + 1)
    ensures Greedy(cuts, n, ok)
  {
    forall k | 0 <= k < |cuts|
      ensures Grown(cuts[k], ok)
    {
      var cut := cuts[k];
      assert Allowed(cut, ok);
      forall m | cut.start + 1 < m <= cut.end
        ensures ok(cut.start, m)
      {
        assert ok(cut.start, cut.end);
      }
    }
  }

  /** A greedy cut obeys the limits itself. */
  lemma GreedyIsAllowed(g: seq<Cut>, n: nat, ok: Test, i: nat)
    requires Greedy(g, n, ok) && i < |g|
    ensures Allowed(g[i], ok)
  {
    assert Grown(g[i], ok);
  }
}
