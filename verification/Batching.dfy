/** Cutting inputs into model batches. */
module Batching {
  import opened Wrappers
  import opened GreedyCuts

  /** An item counts for at least one token. */
  function Tokens(item: nat): nat { Max(item, 1) }

  /** The longest of `items[a..b]`. */
  function Longest(items: seq<nat>, a: nat, b: nat): nat
    requires a <= b <= |items|
  {
    if a == b then 0 else Max(Longest(items, a, b - 1), Tokens(items[b - 1]))
  }

  lemma {:induction false} LongestIsAttained(items: seq<nat>, a: nat, b: nat) returns (at: nat)
    requires a < b <= |items|
    ensures a <= at < b && Tokens(items[at]) == Longest(items, a, b)
    ensures forall i :: a <= i < b ==> Tokens(items[i]) <= Longest(items, a, b)
  {
    at := b - 1;
    if a < b - 1 {
      var earlier := LongestIsAttained(items, a, b - 1);
      if Tokens(items[b - 1]) < Tokens(items[earlier]) {
        at := earlier;
      }
    }
  }

  /** Within the row limit, and padded to its longest row within the budget. */
  predicate Fits(items: seq<nat>, maxRows: nat, maxTokens: nat, a: nat, b: nat)
  {
    && a <= b <= |items|
    && b - a <= maxRows
    && (b - a) * Longest(items, a, b) <= maxTokens
  }

  function FitsTest(items: seq<nat>, maxRows: nat, maxTokens: nat): Test
  {
    (a: nat, b: nat) => Fits(items, maxRows, maxTokens, a, b)
  }

  lemma ExceedsIff(items: seq<nat>, maxRows: nat, maxTokens: nat, a: nat, b: nat)
    requires a <= b <= |items|
    ensures b - a > maxRows || (b - a) * Longest(items, a, b) > maxTokens
            <==> !FitsTest(items, maxRows, maxTokens)(a, b)
  {}

  method PlanBatches(items: seq<nat>, maxBatchSize: nat, maxTokensPerBatch: nat) returns (plans: seq<Cut>)
    ensures Greedy(plans, |items|, FitsTest(items, Max(maxBatchSize, 1), Max(maxTokensPerBatch, 1)))
  {
    plans := [];
    if |items| == 0 {
      return;
    }
    var maxRows, maxTokens := Max(maxBatchSize, 1), Max(maxTokensPerBatch, 1);
    ghost var ok := FitsTest(items, maxRows, maxTokens);
    hide FitsTest, Fits;
    var start, batchLen, batchMax := 0, 0, 0;
    for idx := 0 to |items|
      invariant start <= idx && batchLen == idx - start && (idx > 0 ==> batchLen > 0)
      invariant batchMax == Longest(items, start, idx)
      invariant Closed(plans, start, |items|, ok) && Grown(Cut(start, idx), ok)
    {
      var itemTokens := Tokens(items[idx]);
      var nextLen := batchLen + 1;
      var nextMax := Max(batchMax, itemTokens);
      assert nextMax == Longest(items, start, idx + 1);
      var exceedsCount := nextLen > maxRows;
      var exceedsBudget := nextLen * nextMax > maxTokens;
      ExceedsIff(items, maxRows, maxTokens, start, idx + 1);
      if batchLen > 0 && (exceedsCount || exceedsBudget) {
        CloseOne(plans, start, idx, |items|, ok);
        plans := plans + [Cut(start, idx)];
        start, batchLen, batchMax := idx, 0, 0;
        assert Longest(items, start, start) == 0;
      }
      batchLen := batchLen + 1;
      batchMax := Max(batchMax, itemTokens);
    }
    CloseLast(plans, start, |items|, ok);
    plans := plans + [Cut(start, |items|)];
  }

  lemma LongestGrows(items: seq<nat>, a: nat, b: nat, c: nat, d: nat)
    requires a <= b < c <= d <= |items|
    ensures Longest(items, b, c) <= Longest(items, a, d)
  {
    var inner := LongestIsAttained(items, b, c);
    var outer := LongestIsAttained(items, a, d);
  }

  lemma ProductGrows(a: nat, b: nat, c: nat, d: nat)
    requires a <= c && b <= d
    ensures a * b <= c * d
  {
    assert a * b <= c * b <= c * d;
  }

  lemma FitsInside(items: seq<nat>, maxRows: nat, maxTokens: nat, a: nat, b: nat, c: nat, d: nat)
    requires a <= b < c <= d <= |items| && Fits(items, maxRows, maxTokens, a, d)
    ensures Fits(items, maxRows, maxTokens, b, c)
  {
    LongestGrows(items, a, b, c, d);
    ProductGrows(c - b, Longest(items, b, c), d - a, Longest(items, a, d));
  }

  lemma FitsIsHereditary(items: seq<nat>, maxRows: nat, maxTokens: nat)
    ensures Hereditary(FitsTest(items, maxRows, maxTokens), |items|)
  {
    var ok := FitsTest(items, maxRows, maxTokens);
    forall a: nat, b: nat, c: nat, d: nat | a <= b < c <= d <= |items| && ok(a, d)
      ensures ok(b, c)
    {
      FitsInside(items, maxRows, maxTokens, a, b, c, d);
    }
  }

  /** The plan has as few batches as any cut that obeys the same limits. */
  lemma PlanIsOptimal(items: seq<nat>, maxRows: nat, maxTokens: nat, plans: seq<Cut>, other: seq<Cut>)
    requires Greedy(plans, |items|, FitsTest(items, maxRows, maxTokens)) && Covers(other, |items|)
    requires forall k :: 0 <= k < |other| ==> Allowed(other[k], FitsTest(items, maxRows, maxTokens))
    ensures |plans| <= |other|
    ensures forall k :: 0 <= k < |plans| ==> Allowed(plans[k], FitsTest(items, maxRows, maxTokens))
  {
    FitsIsHereditary(items, maxRows, maxTokens);
    GreedyIsOptimal(plans, other, |items|, FitsTest(items, maxRows, maxTokens));
  }

  /**
    What the limits mean, item by item: a batch of several items has no more rows than allowed, and as many rows
    as it has, each as long as any item of it and at least one token long, are within the budget. Every batch but
    the last would break one of the two with the item that follows it.
   */
  lemma PlanIsWithinLimits(items: seq<nat>, maxRows: nat, maxTokens: nat, plans: seq<Cut>, k: nat)
    requires Greedy(plans, |items|, FitsTest(items, maxRows, maxTokens)) && k < |plans|
    ensures var a, b := plans[k].start, plans[k].end;
            && a < b <= |items|
            && (b > a + 1 ==>
                  && b - a <= maxRows && b - a <= maxTokens
                  && (forall i :: a <= i < b ==> (b - a) * items[i] <= maxTokens))
            && (k < |plans| - 1 ==>
                  && b < |items|
                  && (b + 1 - a > maxRows || b + 1 - a > maxTokens
                      || exists i :: a <= i < b + 1 && (b + 1 - a) * items[i] > maxTokens))
  {
    var a, b := plans[k].start, plans[k].end;
    FitsIsHereditary(items, maxRows, maxTokens);
    GreedyIsAllowed(plans, |items|, FitsTest(items, maxRows, maxTokens), k);
    OnlyTheLastReaches(plans, |items|, k);
    hide Longest;
    if b > a + 1 {
      RowsWithinBudget(items, maxTokens, a, b);
    }
    if k < |plans| - 1 {
      RowsWithinBudget(items, maxTokens, a, b + 1);
    }
  }

  /** Padding to the longest item keeps the budget exactly when every item would. */
  lemma RowsWithinBudget(items: seq<nat>, maxTokens: nat, a: nat, b: nat)
    requires a < b <= |items|
    ensures (b - a) * Longest(items, a, b) <= maxTokens <==>
            b - a <= maxTokens && forall i :: a <= i < b ==> (b - a) * items[i] <= maxTokens
  {
    var at := LongestIsAttained(items, a, b);
    hide Longest;
    if (b - a) * Longest(items, a, b) <= maxTokens {
      forall i | a <= i < b
        ensures (b - a) * items[i] <= maxTokens
      {
        ProductGrows(b - a, items[i], b - a, Longest(items, a, b));
      }
      ProductGrows(b - a, 1, b - a, Longest(items, a, b));
    } else {
      assert Longest(items, a, b) == items[at] || Longest(items, a, b) == 1;
    }
  }

  // ------------------------------------------------------------ fixed rows

  function FixedFrom(start: nat, len: nat, rows: nat): seq<Cut>
    requires rows > 0
    decreases len - start
  {
    if start >= len then []
    else [Cut(start, Min(start + rows, len))] + FixedFrom(start + rows, len, rows)
  }

  function PlanFixedRows(len: nat, rows: nat): seq<Cut> { FixedFrom(0, len, Max(rows, 1)) }

  /** Full batches of `rows`, the last one shorter. */
  ghost predicate FullBatches(cuts: seq<Cut>, start: nat, len: nat, rows: nat)
  {
    FullHeight(cuts, start, len, rows) && Chained(cuts) && Spans(cuts, start, len)
  }

  ghost predicate FullHeight(cuts: seq<Cut>, start: nat, len: nat, rows: nat)
  {
    forall i :: 0 <= i < |cuts| ==> start <= cuts[i].start < cuts[i].end == Min(cuts[i].start + rows, len)
  }

  ghost predicate Chained(cuts: seq<Cut>)
  {
    forall i, j :: 0 <= i && j == i + 1 < |cuts| ==> cuts[i].end == cuts[j].start
  }

  ghost predicate Spans(cuts: seq<Cut>, start: nat, len: nat)
  {
    if start >= len then cuts == [] else cuts != [] && cuts[0].start == start && cuts[|cuts| - 1].end == len
  }

  lemma ChainInFront(cut: Cut, rest: seq<Cut>)
    requires Chained(rest) && (rest != [] ==> cut.end == rest[0].start)
    ensures Chained([cut] + rest)
  {
    var cuts := [cut] + rest;
    forall i, j | 0 <= i && j == i + 1 < |cuts|
      ensures cuts[i].end == cuts[j].start
    {
      if i > 0 {
        assert rest[i - 1].end == rest[j - 1].start;
      }
    }
  }

  lemma {:induction false} FixedAreFull(start: nat, len: nat, rows: nat)
    requires rows > 0
    ensures FullBatches(FixedFrom(start, len, rows), start, len, rows)
    decreases len - start
  {
    if start < len {
      var rest, cut := FixedFrom(start + rows, len, rows), Cut(start, Min(start + rows, len));
      assert FixedFrom(start, len, rows) == [cut] + rest;
      FixedAreFull(start + rows, len, rows);
      hide FixedFrom, Chained;
      ChainInFront(cut, rest);
      assert rest != [] ==> ([cut] + rest)[|rest|] == rest[|rest| - 1];
    }
  }

  /** The fixed-row cut covers the input exactly once, with full batches and a last one no larger. */
  lemma FixedCovers(len: nat, rows: nat)
    ensures Covers(PlanFixedRows(len, rows), len)
    ensures forall i :: 0 <= i < |PlanFixedRows(len, rows)| - 1 ==>
              PlanFixedRows(len, rows)[i].end - PlanFixedRows(len, rows)[i].start == Max(rows, 1)
    ensures forall i :: 0 <= i < |PlanFixedRows(len, rows)| ==>
              PlanFixedRows(len, rows)[i].end - PlanFixedRows(len, rows)[i].start <= Max(rows, 1)
  {
    FixedAreFull(0, len, Max(rows, 1));
    forall i | 0 <= i < |PlanFixedRows(len, rows)| - 1
      ensures PlanFixedRows(len, rows)[i].end < len
    {
      OnlyTheLastReaches(PlanFixedRows(len, rows), len, i);
    }
  }

  lemma FullBatchesOverflow(items: seq<nat>, rows: nat, maxTokens: nat)
    ensures var ok, fixed := FitsTest(items, Max(rows, 1), maxTokens), PlanFixedRows(|items|, rows);
            forall i :: 0 <= i < |fixed| - 1 ==> !ok(fixed[i].start, fixed[i].end + 1)
  {
    FixedCovers(|items|, rows);
  }

  /** The budgeted plan is the fixed-row plan exactly when no full-height batch breaks the budget. */
  lemma BudgetPlanIsFixedIff(items: seq<nat>, rows: nat, maxTokens: nat, plans: seq<Cut>)
    requires Greedy(plans, |items|, FitsTest(items, Max(rows, 1), maxTokens))
    ensures plans == PlanFixedRows(|items|, rows) <==>
            forall k :: 0 <= k < |PlanFixedRows(|items|, rows)| ==>
              Allowed(PlanFixedRows(|items|, rows)[k], FitsTest(items, Max(rows, 1), maxTokens))
  {
    var ok, fixed := FitsTest(items, Max(rows, 1), maxTokens), PlanFixedRows(|items|, rows);
    FixedCovers(|items|, rows);
    FitsIsHereditary(items, Max(rows, 1), maxTokens);
    FullBatchesOverflow(items, rows, maxTokens);
    hide FitsTest, Fits, PlanFixedRows, Greedy, Covers, Hereditary, Allowed;
    if forall k :: 0 <= k < |fixed| ==> Allowed(fixed[k], ok) {
      AllowedIsGreedy(fixed, |items|, ok);
      GreedyIsUnique(plans, fixed, |items|, ok);
    }
    forall k | 0 <= k < |plans|
      ensures Allowed(plans[k], ok)
    {
      GreedyIsAllowed(plans, |items|, ok, k);
    }
  }
}
