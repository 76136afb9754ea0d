/**
  The latency oracle's interval arithmetic. Times are whole ticks (microseconds),
  so the length of a union of intervals is the number of ticks it covers.
 */
module Intervals {
  import opened Wrappers
  import opened Collections
  import opened Sorting

  const ROUNDING := 150_000

  /** The ticks `start..end`. */
  datatype Part = Part(start: int, end: int)

  predicate Within(start: int, end: int, x: int) { start <= x < end }

  ghost function Cells(start: int, end: int): set<int> { set x | start <= x < end && Within(start, end, x) }

  ghost predicate CoveredBy(parts: seq<Part>, x: int)
  {
    exists i :: 0 <= i < |parts| && parts[i].start <= x < parts[i].end
  }

  /** The ticks covered by at least one part. */
  ghost function Covered(parts: seq<Part>): set<int>
  {
    if parts == [] then {} else Covered(parts[..|parts| - 1]) + Cells(parts[|parts| - 1].start, parts[|parts| - 1].end)
  }

  lemma {:induction false} CoveredIs(parts: seq<Part>, x: int)
    ensures x in Covered(parts) <==> CoveredBy(parts, x)
  {
    if parts != [] {
      CoveredIs(parts[..|parts| - 1], x);
      assert forall i :: 0 <= i < |parts| - 1 ==> parts[..|parts| - 1][i] == parts[i];
    }
  }

  lemma {:induction false} CellsCount(start: int, end: int)
    ensures |Cells(start, end)| == if start <= end then end - start else 0
    decreases end - start
  {
    if start < end {
      CellsCount(start + 1, end);
      assert Cells(start, end) == {start} + Cells(start + 1, end);
    } else {
      assert Cells(start, end) == {};
    }
  }

  /** Only which ticks are covered matters: neither order nor repetition. */
  lemma UnionDependsOnPoints(a: seq<Part>, b: seq<Part>)
    requires forall p :: p in a <==> p in b
    ensures Covered(a) == Covered(b)
  {
    forall x
      ensures x in Covered(a) <==> x in Covered(b)
    {
      CoveredIs(a, x);
      CoveredIs(b, x);
      if CoveredBy(a, x) {
        var i :| 0 <= i < |a| && a[i].start <= x < a[i].end;
        assert a[i] in b;
      }
      if CoveredBy(b, x) {
        var i :| 0 <= i < |b| && b[i].start <= x < b[i].end;
        assert b[i] in a;
      }
    }
  }

  predicate StartsBefore(a: Part, b: Part) { a.start <= b.start }

  ghost predicate Ordered(parts: seq<Part>) { forall p :: p in parts ==> p.start <= p.end }

  lemma SortKeepsCover(parts: seq<Part>)
    ensures Covered(Sort(parts, StartsBefore)) == Covered(parts)
    ensures SortedBy(Sort(parts, StartsBefore), StartsBefore)
    ensures forall p :: p in Sort(parts, StartsBefore) <==> p in parts
  {
    var sorted := Sort(parts, StartsBefore);
    assert TotalPreorder(StartsBefore);
    SortSorts(parts, StartsBefore);
    forall p
      ensures p in sorted <==> p in parts
    {
      SortKeepsElements(parts, StartsBefore, p);
    }
    UnionDependsOnPoints(sorted, parts);
  }

  // --------------------------------------------------------- backward intervals

  /** The part ends before it starts, and behind everything read before it. */
  predicate Loose(sorted: seq<Part>, k: nat)
    requires k < |sorted|
  {
    sorted[k].end < sorted[k].start && forall q :: 0 <= q < k ==> sorted[q].end < sorted[k].start
  }

  /** What loose parts take away from the total: nothing merges with them, and their lengths are negative. */
  function Deficit(sorted: seq<Part>): nat
  {
    if sorted == [] then 0
    else
      var k := |sorted| - 1;
      Deficit(sorted[..k]) + if Loose(sorted, k) then sorted[k].start - sorted[k].end else 0
  }

  lemma {:induction false} DeficitIff(sorted: seq<Part>)
    ensures Deficit(sorted) > 0 <==> exists k :: 0 <= k < |sorted| && Loose(sorted, k)
  {
    if sorted != [] {
      var init := sorted[..|sorted| - 1];
      DeficitIff(init);
      assert forall k :: 0 <= k < |init| ==> (Loose(init, k) <==> Loose(sorted, k));
    }
  }

  lemma OrderedHasNoDeficit(parts: seq<Part>)
    requires Ordered(parts)
    ensures Deficit(Sort(parts, StartsBefore)) == 0
  {
    SortKeepsCover(parts);
    DeficitIff(Sort(parts, StartsBefore));
  }

  lemma BackwardIntervalCountsNegative()
    ensures Covered([Part(5, 3)]) == {} && Deficit([Part(5, 3)]) == 2
  {
    var s := [Part(5, 3)];
    assert s[..0] == [] && Covered(s[..0]) == {};
    assert Cells(5, 3) == {};
  }

  // ------------------------------------------------------------------ the sweep

  /** The run being merged: covered, reaching to the furthest end that later parts can still meet. */
  ghost predicate RunIs(read: seq<Part>, current: Part)
  {
    && read != [] && current.start <= read[|read| - 1].start
    && (forall x :: current.start <= x < current.end ==> x in Covered(read))
    && (forall q :: 0 <= q < |read| ==> read[q].end <= current.end || read[q].end < read[|read| - 1].start)
    && (exists q :: 0 <= q < |read| && read[q].end == current.end)
  }

  /** The state of the sweep: closing the run now would give the length of what was read. */
  ghost predicate Sweeping(read: seq<Part>, total: int, current: Option<Part>)
  {
    if current.None? then read == [] && total == 0
    else
      && RunIs(read, current.value)
      && total + current.value.end - current.value.start == |Covered(read)| - Deficit(read)
  }

  lemma ReadOne(read: seq<Part>, part: Part)
    ensures Covered(read + [part]) == Covered(read) + Cells(part.start, part.end)
    ensures Deficit(read + [part]) == Deficit(read) + if Loose(read + [part], |read|) then part.start - part.end else 0
  {
    assert (read + [part])[..|read|] == read;
  }

  /** Whatever was read before a part that starts later than the run ends lies before that part. */
  lemma CoveredLiesBefore(read: seq<Part>, current: Part, bound: int)
    requires RunIs(read, current) && current.end <= bound && read[|read| - 1].start <= bound
    ensures forall x :: x in Covered(read) ==> x < bound
  {
    forall x | x in Covered(read)
      ensures x < bound
    {
      CoveredIs(read, x);
      var q :| 0 <= q < |read| && read[q].start <= x < read[q].end;
    }
  }

  lemma AddCells(covered: set<int>, start: int, end: int)
    requires forall x :: x in covered ==> x < start
    ensures |covered + Cells(start, end)| == |covered| + if start <= end then end - start else 0
  {
    CellsCount(start, end);
    assert covered !! Cells(start, end);
  }

  lemma MergeCovers(read: seq<Part>, current: Part, part: Part)
    requires RunIs(read, current) && read[|read| - 1].start <= part.start <= current.end
    ensures |Covered(read + [part])| == |Covered(read)| + Max(current.end, part.end) - current.end
    ensures forall x :: current.start <= x < Max(current.end, part.end) ==> x in Covered(read + [part])
  {
    var covered := Covered(read);
    ReadOne(read, part);
    CoveredLiesBefore(read, current, current.end);
    assert forall x :: current.start <= x < current.end ==> x in covered;
    assert current.start <= part.start;
    hide Covered, Deficit, Loose, RunIs;
    CellsBeyond(covered, current, part);
    AddCells(covered, current.end, part.end);
  }

  lemma CellsBeyond(covered: set<int>, current: Part, part: Part)
    requires current.start <= part.start <= current.end
    requires forall x :: current.start <= x < current.end ==> x in covered
    ensures covered + Cells(part.start, part.end) == covered + Cells(current.end, part.end)
    ensures forall x :: current.start <= x < Max(current.end, part.end) ==> x in covered + Cells(part.start, part.end)
  {}

  lemma MergeRun(read: seq<Part>, total: int, current: Part, part: Part)
    requires Sweeping(read, total, Some(current)) && read[|read| - 1].start <= part.start <= current.end
    ensures Sweeping(read + [part], total, Some(Part(current.start, Max(current.end, part.end))))
  {
    MergeCovers(read, current, part);
    ReadOne(read, part);
    var read' := read + [part];
    var q :| 0 <= q < |read| && read[q].end == current.end;
    assert read'[q] == read[q] && read'[|read|] == part;
    assert !Loose(read', |read|);
    hide Covered, Deficit, Loose;
    assert RunIs(read', Part(current.start, Max(current.end, part.end)));
  }

  lemma OpenRun(read: seq<Part>, total: int, current: Part, part: Part)
    requires Sweeping(read, total, Some(current)) && read[|read| - 1].start <= part.start && current.end < part.start
    ensures Sweeping(read + [part], total + (current.end - current.start), Some(part))
  {
    ReadOne(read, part);
    CoveredLiesBefore(read, current, part.start);
    AddCells(Covered(read), part.start, part.end);
    OpenedRunIs(read, current, part);
    hide Covered, Deficit, Loose, Cells, RunIs;
  }

  lemma OpenedRunIs(read: seq<Part>, current: Part, part: Part)
    requires RunIs(read, current) && read[|read| - 1].start <= part.start && current.end < part.start
    ensures RunIs(read + [part], part)
    ensures Loose(read + [part], |read|) <==> part.end < part.start
  {
    ReadOne(read, part);
    var read' := read + [part];
    assert forall q :: 0 <= q < |read| ==> read'[q] == read[q] && read[q].end < part.start;
    assert read'[|read|] == part;
    assert forall x :: x in Cells(part.start, part.end) <==> part.start <= x < part.end;
    hide Covered, Deficit, Cells;
  }

  lemma FirstRun(part: Part)
    ensures Sweeping([part], 0, Some(part))
  {
    ReadOne([], part);
    assert [] + [part] == [part] && [part][0] == part;
    AddCells({}, part.start, part.end);
    assert {} + Cells(part.start, part.end) == Cells(part.start, part.end);
  }

  /** One pass of the sweep. */
  method SweepPart(ghost read: seq<Part>, part: Part, total0: int, current0: Option<Part>)
    returns (total: int, current: Option<Part>)
    requires Sweeping(read, total0, current0)
    requires read != [] ==> read[|read| - 1].start <= part.start
    ensures Sweeping(read + [part], total, current)
  {
    total := total0;
    hide RunIs;
    if current0.None? {
      FirstRun(part);
      assert read + [part] == [part];
      current := Some(part);
    } else {
      assert read != [] by {
        RunHasRead(read, current0.value);
      }
      if part.start <= current0.value.end {
        MergeRun(read, total, current0.value, part);
        current := Some(Part(current0.value.start, Max(current0.value.end, part.end)));
      } else {
        OpenRun(read, total, current0.value, part);
        total := total + (current0.value.end - current0.value.start);
        current := Some(part);
      }
    }
  }

  lemma RunHasRead(read: seq<Part>, current: Part)
    requires RunIs(read, current)
    ensures read != []
  {}

  lemma SweepEnds(sorted: seq<Part>, total: int, current: Option<Part>)
    requires Sweeping(sorted, total, current)
    ensures |Covered(sorted)| - Deficit(sorted)
            == total + if current.None? then 0 else current.value.end - current.value.start
  {}

  method Sweep(sorted: seq<Part>) returns (total: int)
    requires SortedBy(sorted, StartsBefore)
    ensures total == |Covered(sorted)| - Deficit(sorted)
  {
    total := 0;
    var current: Option<Part> := None;
    assert Sweeping([], total, current);
    hide *;
    for k := 0 to |sorted|
      invariant Sweeping(sorted[..k], total, current)
    {
      total, current := SweepNext(sorted, k, total, current);
    }
    assert sorted[..|sorted|] == sorted;
    SweepEnds(sorted, total, current);
    if current.Some? {
      total := total + (current.value.end - current.value.start);
    }
  }

  method SweepNext(sorted: seq<Part>, k: nat, total0: int, current0: Option<Part>)
    returns (total: int, current: Option<Part>)
    requires SortedBy(sorted, StartsBefore) && k < |sorted| && Sweeping(sorted[..k], total0, current0)
    ensures Sweeping(sorted[..k + 1], total, current)
  {
    assert k > 0 ==> StartsBefore(sorted[k - 1], sorted[k]);
    assert sorted[..k + 1] == sorted[..k] + [sorted[k]];
    assert k > 0 ==> sorted[..k][k - 1].start <= sorted[k].start;
    hide *;
    total, current := SweepPart(sorted[..k], sorted[k], total0, current0);
  }

  /** `union_len`: the number of ticks the parts cover together, less what loose parts take away. */
  method UnionLen(parts: seq<Part>) returns (total: int)
    ensures total == |Covered(parts)| - Deficit(Sort(parts, StartsBefore))
    ensures total == |Covered(parts)| <==>
            !exists k :: 0 <= k < |Sort(parts, StartsBefore)| && Loose(Sort(parts, StartsBefore), k)
  {
    SortKeepsCover(parts);
    DeficitIff(Sort(parts, StartsBefore));
    total := Sweep(Sort(parts, StartsBefore));
  }

  // ------------------------------------------------------------------ judge

  datatype Kind = Tool(name: string) | Sync | Maintenance | IndexChanges | AnalysisLoad | IndexBuild

  datatype Span = Span(pid: nat, kind: Kind, workspace: Option<string>, start: int, end: int)

  const ANALYSIS_TOOLS := ["find_definition", "find_references", "rename_symbol"]

  function Overlap(a: Span, b: Span): Option<Part>
  {
    var start, end := Max(a.start, b.start), Min(a.end, b.end);
    if end > start then Some(Part(start, end)) else None
  }

  /** Work the call does for itself: its project's load, or a build begun inside it. */
  predicate Own(call: Span, span: Span)
  {
    && span.workspace == call.workspace
    && (|| (call.kind.Tool? && call.kind.name in ANALYSIS_TOOLS && span.kind == AnalysisLoad)
        || (span.kind == IndexBuild && span.start >= call.start - ROUNDING))
  }

  /** A different span of the call's process, own or not as asked. */
  predicate Counts(spans: seq<Span>, at: nat, i: nat, own: bool)
    requires at < |spans| && i < |spans|
  {
    i != at && spans[i].pid == spans[at].pid && Own(spans[at], spans[i]) == own
  }

  /** Some other span of the call's process, own or not as asked, is running at tick `x` of the call. */
  ghost predicate RunsBeside(spans: seq<Span>, at: nat, own: bool, x: int)
    requires at < |spans|
  {
    && spans[at].start <= x < spans[at].end
    && exists i :: 0 <= i < |spans| && Counts(spans, at, i, own) && spans[i].start <= x < spans[i].end
  }

  ghost function Beside(spans: seq<Span>, at: nat, own: bool): set<int>
    requires at < |spans|
  {
    set x | spans[at].start <= x < spans[at].end && RunsBeside(spans, at, own, x)
  }

  /** In the call's process and workspace: the load its analysis needs, or a build begun no earlier than the call. */
  predicate OwnSpan(call: Span, span: Span)
  {
    && span.pid == call.pid && span.workspace == call.workspace
    && (|| (span.kind == AnalysisLoad
            && call.kind in {Tool("find_definition"), Tool("find_references"), Tool("rename_symbol")})
        || (span.kind == IndexBuild && call.start <= span.start + 150_000))
  }

  /** The two figures tell own work from other work, and together see everything else that ran in the process. */
  lemma BesideIff(spans: seq<Span>, at: nat, x: int)
    requires at < |spans|
    ensures x in Beside(spans, at, true) <==>
            && spans[at].start <= x < spans[at].end
            && exists i :: 0 <= i < |spans| && i != at && spans[i].start <= x < spans[i].end
                           && OwnSpan(spans[at], spans[i])
    ensures x in Beside(spans, at, true) || x in Beside(spans, at, false) <==>
            && spans[at].start <= x < spans[at].end
            && exists i :: 0 <= i < |spans| && i != at && spans[i].start <= x < spans[i].end
                           && spans[i].pid == spans[at].pid
    ensures x in Beside(spans, at, false) <==>
            && spans[at].start <= x < spans[at].end
            && exists i :: 0 <= i < |spans| && i != at && spans[i].start <= x < spans[i].end
                           && spans[i].pid == spans[at].pid && !OwnSpan(spans[at], spans[i])
  {
    forall i | 0 <= i < |spans|
      ensures Counts(spans, at, i, true) <==> i != at && OwnSpan(spans[at], spans[i])
      ensures Counts(spans, at, i, false) <==> i != at && spans[i].pid == spans[at].pid && !OwnSpan(spans[at], spans[i])
    {
      OwnIs(spans[at], spans[i]);
    }
  }

  lemma OwnIs(call: Span, span: Span)
    ensures span.pid == call.pid ==> (Own(call, span) <==> OwnSpan(call, span))
  {
    var tools := ANALYSIS_TOOLS;
    assert tools[0] == "find_definition" && tools[1] == "find_references" && tools[2] == "rename_symbol";
  }

  /** The parts of the call that the first `n` spans overlap. */
  ghost predicate Gathered(spans: seq<Span>, at: nat, n: nat, own: bool, parts: seq<Part>)
    requires at < |spans| && n <= |spans|
  {
    && (forall i :: 0 <= i < n && Counts(spans, at, i, own) && Overlap(spans[at], spans[i]).Some? ==>
          Overlap(spans[at], spans[i]).value in parts)
    && (forall k :: 0 <= k < |parts| ==> PartOfSpan(spans, at, n, own, parts[k]))
  }

  ghost predicate PartOfSpan(spans: seq<Span>, at: nat, n: nat, own: bool, part: Part)
    requires at < |spans| && n <= |spans|
  {
    exists i :: 0 <= i < n && Counts(spans, at, i, own) && Overlap(spans[at], spans[i]) == Some(part)
  }

  lemma GatheredPoint(spans: seq<Span>, at: nat, own: bool, parts: seq<Part>, x: int)
    requires at < |spans| && Gathered(spans, at, |spans|, own, parts)
    ensures CoveredBy(parts, x) <==> RunsBeside(spans, at, own, x)
  {
    if CoveredBy(parts, x) {
      var k :| 0 <= k < |parts| && parts[k].start <= x < parts[k].end;
      assert PartOfSpan(spans, at, |spans|, own, parts[k]);
    }
    if RunsBeside(spans, at, own, x) {
      var i :| 0 <= i < |spans| && Counts(spans, at, i, own) && spans[i].start <= x < spans[i].end;
      var part := Overlap(spans[at], spans[i]).value;
      assert part in parts && part.start <= x < part.end;
    }
  }

  lemma GatheredCovers(spans: seq<Span>, at: nat, own: bool, parts: seq<Part>)
    requires at < |spans| && Gathered(spans, at, |spans|, own, parts)
    ensures Ordered(parts) && Covered(parts) == Beside(spans, at, own)
  {
    forall x
      ensures x in Covered(parts) <==> x in Beside(spans, at, own)
    {
      CoveredIs(parts, x);
      GatheredPoint(spans, at, own, parts, x);
    }
    forall p | p in parts
      ensures p.start <= p.end
    {
      assert PartOfSpan(spans, at, |spans|, own, p);
    }
  }

  /** The first stage of `judge` for one call: how long its own work and other work ran beside it. */
  method OverlapsOf(spans: seq<Span>, at: nat) returns (own: int, overlapped: int)
    requires at < |spans|
    ensures own == |Beside(spans, at, true)| && overlapped == |Beside(spans, at, false)|
  {
    var call := spans[at];
    var ownParts: seq<Part>, otherParts: seq<Part> := [], [];
    for i := 0 to |spans|
      invariant Gathered(spans, at, i, true, ownParts) && Gathered(spans, at, i, false, otherParts)
    {
      ghost var oldOwn, oldOther := ownParts, otherParts;
      var part := Overlap(call, spans[i]);
      if i != at && spans[i].pid == call.pid && part.Some? {
        if Own(call, spans[i]) {
          ownParts := ownParts + [part.value];
        } else {
          otherParts := otherParts + [part.value];
        }
      }
      GatherOne(spans, at, i, true, oldOwn, ownParts);
      GatherOne(spans, at, i, false, oldOther, otherParts);
    }
    GatheredCovers(spans, at, true, ownParts);
    GatheredCovers(spans, at, false, otherParts);
    OrderedHasNoDeficit(ownParts);
    OrderedHasNoDeficit(otherParts);
    own := UnionLen(ownParts);
    overlapped := UnionLen(otherParts);
  }

  lemma GatherOne(spans: seq<Span>, at: nat, i: nat, own: bool, before: seq<Part>, after: seq<Part>)
    requires at < |spans| && i < |spans| && Gathered(spans, at, i, own, before)
    requires after == if Counts(spans, at, i, own) && Overlap(spans[at], spans[i]).Some?
                      then before + [Overlap(spans[at], spans[i]).value] else before
    ensures Gathered(spans, at, i + 1, own, after)
  {
    forall k | 0 <= k < |after|
      ensures PartOfSpan(spans, at, i + 1, own, after[k])
    {
      if k < |before| {
        assert PartOfSpan(spans, at, i, own, before[k]);
      }
    }
  }

  /** Both figures lie between nothing and the whole call. */
  lemma OverlapsAreWithinTheCall(spans: seq<Span>, at: nat, own: bool)
    requires at < |spans|
    ensures 0 <= |Beside(spans, at, own)| <= Max(0, spans[at].end - spans[at].start)
  {
    var whole := Cells(spans[at].start, spans[at].end);
    CellsCount(spans[at].start, spans[at].end);
    assert Beside(spans, at, own) <= whole;
    SubsetIsSmaller(Beside(spans, at, own), whole);
  }
}
