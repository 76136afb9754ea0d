/** Splitting or eliding chunks whose embedded text exceeds the token target. */
module Split {
  import opened Wrappers
  import opened GreedyCuts
  import opened Collections

  datatype Context = Context(
    filePath: string, modulePath: seq<string>, symbolName: string, symbolKind: string,
    docstring: Option<string>, imports: seq<string>, outgoingCalls: seq<string>,
    parentSymbolName: Option<string>, splitPart: Option<nat>, splitTotal: Option<nat>,
    lineStart: nat, lineEnd: nat)

  datatype CodeChunk = CodeChunk(id: nat, content: string, context: Context)

  datatype Config = Config(targetTokens: nat, contextInFirstPartOnly: bool)

  /** A token counter that may decline, and the length it falls back on. Neither sees the chunk's id. */
  datatype Measure = Measure(count: (string, Context) -> Option<nat>, formattedLen: (string, Context) -> nat)

  function TokenCount(m: Measure, c: CodeChunk): nat
  {
    var counted := m.count(c.content, c.context);
    Max(1, if counted.Some? then counted.value else (m.formattedLen(c.content, c.context) + 3) / 4)
  }

  /** A counted chunk counts as counted, an uncounted one four characters to the token, rounded up; none counts as 0. */
  lemma TokenCountIs(m: Measure, c: CodeChunk)
    ensures TokenCount(m, c) >= 1
    ensures forall n: nat :: m.count(c.content, c.context) == Some(n) && n >= 1 ==> TokenCount(m, c) == n
    ensures m.count(c.content, c.context) == Some(0) ==> TokenCount(m, c) == 1
    ensures m.count(c.content, c.context).None? ==>
              var n, len := TokenCount(m, c), m.formattedLen(c.content, c.context);
              len <= 4 * n && (n > 1 ==> 4 * (n - 1) < len)
  {}

  // ------------------------------------------------------------------ lines

  function NewlineAt(s: string): (i: nat)
    ensures i <= |s|
    ensures i < |s| ==> s[i] == '\n'
    ensures forall k :: 0 <= k < i ==> s[k] != '\n'
  {
    if s == [] || s[0] == '\n' then 0 else 1 + NewlineAt(s[1..])
  }

  function StripCr(s: string): string { if s != [] && s[|s| - 1] == '\r' then s[..|s| - 1] else s }

  /** `str::lines`: line ends are `\n` or `\r\n`, and one at the very end opens no further line. */
  function Lines(s: string): seq<string>
  {
    if s == [] then []
    else
      var i := NewlineAt(s);
      if i == |s| then [s] else [StripCr(s[..i])] + Lines(s[i + 1..])
  }

  /** A text put together from lines and the line ends behind them. */
  function Ended(lines: seq<string>, ends: seq<string>): string
    requires |lines| == |ends|
  {
    if lines == [] then [] else lines[0] + ends[0] + Ended(lines[1..], ends[1..])
  }

  /** A line, and the end behind it: `\n` or `\r\n`, or nothing at the end of the text. */
  ghost predicate LineWithEnd(line: string, end: string, last: bool)
  {
    && '\n' !in line
    && (end == "\n" || end == "\r\n" || (end == "" && last && line != ""))
    && (end == "\n" && line != "" ==> line[|line| - 1] != '\r')
  }

  /** The lines with their ends are the text, and no line holds an end itself; which determines the lines. */
  lemma {:induction false} LinesWithTheirEnds(s: string) returns (ends: seq<string>)
    ensures |ends| == |Lines(s)| && Ended(Lines(s), ends) == s
    ensures forall k :: 0 <= k < |ends| ==> LineWithEnd(Lines(s)[k], ends[k], k == |ends| - 1)
  {
    ends := [];
    var i := NewlineAt(s);
    if s != [] && i == |s| {
      ends := [""];
      assert Ended([s], [""]) == s + "" + [];
    } else if s != [] {
      var end := FirstLine(s);
      var line, rest := StripCr(s[..i]), s[i + 1..];
      assert Lines(s) == [line] + Lines(rest);
      hide Lines, LineWithEnd, StripCr;
      var others := LinesWithTheirEnds(rest);
      ends := [end] + others;
      assert ([line] + Lines(rest))[1..] == Lines(rest) && ends[1..] == others;
    }
  }

  lemma FirstLine(s: string) returns (end: string)
    requires NewlineAt(s) < |s|
    ensures var i := NewlineAt(s);
            && s == StripCr(s[..i]) + end + s[i + 1..]
            && forall last :: LineWithEnd(StripCr(s[..i]), end, last)
  {
    var i := NewlineAt(s);
    end := if StripCr(s[..i]) == s[..i] then "\n" else "\r\n";
    assert '\n' !in s[..i];
    assert s == s[..i] + "\n" + s[i + 1..];
  }

  function Join(lines: seq<string>): string
  {
    if lines == [] then []
    else if |lines| == 1 then lines[0]
    else lines[0] + "\n" + Join(lines[1..])
  }

  lemma {:induction false} JoinAppend(a: seq<string>, b: seq<string>)
    requires a != [] && b != []
    ensures Join(a + b) == Join(a) + "\n" + Join(b)
  {
    if |a| == 1 {
      assert (a + b)[1..] == b;
    } else {
      assert (a + b)[1..] == a[1..] + b;
      JoinAppend(a[1..], b);
    }
  }

  lemma JoinHead(line: string, rest: seq<string>)
    ensures Join([line] + rest) == if rest == [] then line else line + "\n" + Join(rest)
  {
    assert ([line] + rest)[1..] == rest;
  }

  predicate CrLfAt(s: string, i: int) { 0 <= i < |s| - 1 && s[i] == '\r' && s[i + 1] == '\n' }

  /** A line end that joining the lines again does not restore. */
  ghost predicate Lossy(s: string)
  {
    (s != [] && s[|s| - 1] == '\n') || exists i :: CrLfAt(s, i)
  }

  lemma {:induction false} JoinLinesLength(s: string)
    ensures |Join(Lines(s))| <= |s|
  {
    var i := NewlineAt(s);
    if i < |s| {
      var rest := Lines(s[i + 1..]);
      JoinLinesLength(s[i + 1..]);
      assert Lines(s) == [StripCr(s[..i])] + rest;
      JoinHead(StripCr(s[..i]), rest);
    }
  }

  /** Joining the lines of a text gives the text back exactly when no line end is lossy. */
  lemma {:induction false} JoinLinesIff(s: string)
    ensures Join(Lines(s)) == s <==> !Lossy(s)
  {
    var i := NewlineAt(s);
    if i == |s| {
    } else {
      var head, rest := s[..i], s[i + 1..];
      assert s == head + "\n" + rest;
      assert Lines(s) == [StripCr(head)] + Lines(rest);
      assert Lines(rest) == [] <==> rest == [];
      JoinHead(StripCr(head), Lines(rest));
      JoinLinesLength(rest);
      if rest == [] {
        assert |Join(Lines(s))| < |s|;
      } else if StripCr(head) != head {
        assert CrLfAt(s, i - 1);
        assert |Join(Lines(s))| < |s|;
      } else {
        HeadKept(s, i);
        hide *;
        JoinLinesIff(rest);
        var joined := Join(Lines(rest));
        assert (head + "\n" + joined)[i + 1..] == joined;
      }
    }
  }

  /** A first line without a carriage return before its end adds no loss of its own. */
  lemma HeadKept(s: string, i: nat)
    requires i == NewlineAt(s) < |s| - 1 && StripCr(s[..i]) == s[..i]
    ensures Lossy(s) <==> Lossy(s[i + 1..])
  {
    assert i > 0 ==> s[..i][i - 1] == s[i - 1] != '\r';
    hide *;
    if Lossy(s[i + 1..]) {
      LossMovesOut(s, i + 1);
    }
    if Lossy(s) {
      LossMovesIn(s, i);
    }
  }

  lemma LossMovesOut(s: string, n: nat)
    requires n < |s| && Lossy(s[n..])
    ensures Lossy(s)
  {
    var rest := s[n..];
    if k :| CrLfAt(rest, k) {
      assert CrLfAt(s, k + n);
    }
  }

  lemma LossMovesIn(s: string, i: nat)
    requires i < |s| - 1 && s[i] == '\n' && (forall k :: 0 <= k < i ==> s[k] != '\n') && (i > 0 ==> s[i - 1] != '\r')
    requires Lossy(s)
    ensures Lossy(s[i + 1..])
  {
    var rest := s[i + 1..];
    if k :| CrLfAt(s, k) {
      assert k + 1 >= i && k + 1 != i && k != i;
      assert CrLfAt(rest, k - i - 1);
    }
  }

  /** One trailing newline is lost. */
  lemma TrailingNewlineIsLost()
    ensures Lossy("a\n") && Join(Lines("a\n")) != "a\n"
  {
    JoinLinesIff("a\n");
  }

  // ------------------------------------------------------------- leaf chunks

  /** Lines `a..b` of `source`; a bare part leaves the symbol's context behind. */
  function MakePart(source: CodeChunk, a: nat, b: nat, content: string, bare: bool, id: nat): CodeChunk
  {
    var context := source.context.(
      lineStart := source.context.lineStart + a,
      lineEnd := source.context.lineStart + (if b > 0 then b - 1 else 0));
    CodeChunk(id, content,
              if bare then context.(docstring := None, imports := [], outgoingCalls := []) else context)
  }

  /** The part of `chunk` that holds `lines[cut.start..cut.end]`. */
  function PartOf(chunk: CodeChunk, lines: seq<string>, cfg: Config, cut: Cut, id: nat): CodeChunk
    requires cut.start <= cut.end <= |lines|
  {
    MakePart(chunk, cut.start, cut.end, Join(lines[cut.start..cut.end]),
             cfg.contextInFirstPartOnly && cut.start > 0, id)
  }

  function Label(part: CodeChunk, number: nat, total: nat): CodeChunk
  {
    part.(context := part.context.(splitPart := Some(number), splitTotal := Some(total)))
  }

  /** The lines, measured as the part they would make, stay within the target. */
  predicate WithinTarget(chunk: CodeChunk, lines: seq<string>, cfg: Config, m: Measure, a: nat, b: nat)
  {
    a <= b <= |lines| && TokenCount(m, PartOf(chunk, lines, cfg, Cut(a, b), 0)) <= cfg.targetTokens
  }

  function PartTest(chunk: CodeChunk, lines: seq<string>, cfg: Config, m: Measure): Test
  {
    (a: nat, b: nat) => WithinTarget(chunk, lines, cfg, m, a, b)
  }

  /** The measure does not see the id, so neither does the test. */
  lemma TestOf(chunk: CodeChunk, lines: seq<string>, cfg: Config, m: Measure, a: nat, b: nat, id: nat)
    requires a <= b <= |lines|
    ensures TokenCount(m, PartOf(chunk, lines, cfg, Cut(a, b), id)) <= cfg.targetTokens
            <==> PartTest(chunk, lines, cfg, m)(a, b)
  {}

  /** The parts cut so far, with ids below `nextId`. */
  ghost predicate CutInto(chunk: CodeChunk, lines: seq<string>, cfg: Config,
                          cuts: seq<Cut>, parts: seq<CodeChunk>, nextId: nat)
  {
    && |parts| == |cuts|
    && (forall i :: 0 <= i < |cuts| ==>
          && cuts[i].start <= cuts[i].end <= |lines|
          && parts[i] == PartOf(chunk, lines, cfg, cuts[i], parts[i].id) && parts[i].id < nextId)
    && (forall i, j :: 0 <= i < j < |parts| ==> parts[i].id < parts[j].id)
  }

  lemma CutOneMore(chunk: CodeChunk, lines: seq<string>, cfg: Config, cuts: seq<Cut>, parts: seq<CodeChunk>,
                   cut: Cut, part: CodeChunk, nextId: nat)
    requires CutInto(chunk, lines, cfg, cuts, parts, nextId) && cut.start <= cut.end <= |lines|
    requires part == PartOf(chunk, lines, cfg, cut, part.id) && part.id >= nextId
    ensures CutInto(chunk, lines, cfg, cuts + [cut], parts + [part], part.id + 1)
  {}

  /** `parts` is `chunk` cut at `cuts`: labelled parts with ids of their own, or the chunk itself. */
  ghost predicate SplitAt(chunk: CodeChunk, cfg: Config, m: Measure, cuts: seq<Cut>, parts: seq<CodeChunk>)
  {
    var lines := Lines(chunk.content);
    if |lines| <= 1 then parts == [chunk]
    else
      && Greedy(cuts, |lines|, PartTest(chunk, lines, cfg, m))
      && (if |cuts| <= 1 then parts == [chunk] else LabelledParts(chunk, lines, cfg, cuts, parts))
  }

  ghost predicate LabelledParts(chunk: CodeChunk, lines: seq<string>, cfg: Config,
                                cuts: seq<Cut>, parts: seq<CodeChunk>)
  {
    && |parts| == |cuts|
    && (forall i :: 0 <= i < |cuts| ==>
          && cuts[i].start <= cuts[i].end <= |lines|
          && parts[i] == Label(PartOf(chunk, lines, cfg, cuts[i], parts[i].id), i + 1, |cuts|))
    && (forall i, j :: 0 <= i < j < |parts| ==> parts[i].id != parts[j].id)
  }

  /** The lines gathered for a part, made into it. */
  method PartFrom(chunk: CodeChunk, lines: seq<string>, cfg: Config, a: nat, b: nat,
                  gathered: seq<string>, first: bool, id: nat)
    returns (part: CodeChunk)
    requires a <= b <= |lines| && gathered == lines[a..b] && first == (a == 0)
    ensures part == PartOf(chunk, lines, cfg, Cut(a, b), id) && part.id == id
  {
    part := MakePart(chunk, a, b, Join(gathered), cfg.contextInFirstPartOnly && !first, id);
  }

  /** Before line `k`: everything up to `start` is cut, and `start..k` is being gathered. */
  ghost predicate Cutting(chunk: CodeChunk, lines: seq<string>, cfg: Config, m: Measure,
                          cuts: seq<Cut>, parts: seq<CodeChunk>, nextId: nat, start: nat, k: nat)
  {
    && start <= k <= |lines|
    && Closed(cuts, start, |lines|, PartTest(chunk, lines, cfg, m))
    && Grown(Cut(start, k), PartTest(chunk, lines, cfg, m))
    && CutInto(chunk, lines, cfg, cuts, parts, nextId)
  }

  lemma CuttingStart(chunk: CodeChunk, lines: seq<string>, cfg: Config, m: Measure,
                     cuts: seq<Cut>, parts: seq<CodeChunk>, nextId: nat, start: nat, k: nat)
    requires Cutting(chunk, lines, cfg, m, cuts, parts, nextId, start, k)
    ensures start <= k <= |lines|
  {}

  lemma GatherLine(chunk: CodeChunk, lines: seq<string>, cfg: Config, m: Measure,
                   cuts: seq<Cut>, parts: seq<CodeChunk>, nextId: nat, start: nat, k: nat, id: nat)
    requires Cutting(chunk, lines, cfg, m, cuts, parts, nextId, start, k) && k < |lines| && id >= nextId
    requires start == k || PartTest(chunk, lines, cfg, m)(start, k + 1)
    ensures Cutting(chunk, lines, cfg, m, cuts, parts, id, start, k + 1)
  {}

  lemma CutBeforeLine(chunk: CodeChunk, lines: seq<string>, cfg: Config, m: Measure,
                      cuts: seq<Cut>, parts: seq<CodeChunk>, nextId: nat, start: nat, k: nat, part: CodeChunk)
    requires Cutting(chunk, lines, cfg, m, cuts, parts, nextId, start, k) && start < k < |lines|
    requires !PartTest(chunk, lines, cfg, m)(start, k + 1)
    requires part == PartOf(chunk, lines, cfg, Cut(start, k), part.id) && part.id >= nextId
    ensures Cutting(chunk, lines, cfg, m, cuts + [Cut(start, k)], parts + [part], part.id + 1, k, k)
  {
    CloseOne(cuts, start, k, |lines|, PartTest(chunk, lines, cfg, m));
    CutOneMore(chunk, lines, cfg, cuts, parts, Cut(start, k), part, nextId);
  }

  lemma CutTheRest(chunk: CodeChunk, lines: seq<string>, cfg: Config, m: Measure,
                   cuts: seq<Cut>, parts: seq<CodeChunk>, nextId: nat, start: nat, part: CodeChunk)
    requires Cutting(chunk, lines, cfg, m, cuts, parts, nextId, start, |lines|) && start < |lines|
    requires part == PartOf(chunk, lines, cfg, Cut(start, |lines|), part.id) && part.id >= nextId
    ensures Greedy(cuts + [Cut(start, |lines|)], |lines|, PartTest(chunk, lines, cfg, m))
    ensures CutInto(chunk, lines, cfg, cuts + [Cut(start, |lines|)], parts + [part], part.id + 1)
  {
    CloseLast(cuts, start, |lines|, PartTest(chunk, lines, cfg, m));
    CutOneMore(chunk, lines, cfg, cuts, parts, Cut(start, |lines|), part, nextId);
  }

  /** Whether line `k` no longer fits the part being gathered. */
  method Overflows(chunk: CodeChunk, lines: seq<string>, cfg: Config, m: Measure,
                   start: nat, k: nat, gathered: seq<string>, first: bool, id: nat)
    returns (overflows: bool)
    requires start <= k < |lines| && gathered == lines[start..k] && first == (start == 0)
    ensures overflows <==> start < k && !PartTest(chunk, lines, cfg, m)(start, k + 1)
  {
    var candidate := PartFrom(chunk, lines, cfg, start, k + 1, gathered + [lines[k]], first, id);
    TestOf(chunk, lines, cfg, m, start, k + 1, id);
    overflows := gathered != [] && TokenCount(m, candidate) > cfg.targetTokens;
  }

  /** Closes the part being gathered, before line `k`. */
  method CloseBefore(chunk: CodeChunk, lines: seq<string>, cfg: Config, m: Measure,
                     ghost cuts0: seq<Cut>, parts0: seq<CodeChunk>, nextId: nat,
                     start: nat, k: nat, gathered: seq<string>)
    returns (ghost cuts: seq<Cut>, parts: seq<CodeChunk>)
    requires Cutting(chunk, lines, cfg, m, cuts0, parts0, nextId, start, k) && start < k < |lines|
    requires gathered == lines[start..k] && (start == 0 <==> parts0 == [])
    requires !PartTest(chunk, lines, cfg, m)(start, k + 1)
    ensures Cutting(chunk, lines, cfg, m, cuts, parts, nextId + 1, k, k) && parts != []
  {
    var part := PartFrom(chunk, lines, cfg, start, k, gathered, parts0 == [], nextId);
    CutBeforeLine(chunk, lines, cfg, m, cuts0, parts0, nextId, start, k, part);
    cuts, parts := cuts0 + [Cut(start, k)], parts0 + [part];
  }

  /** One pass of the cutting loop: line `k` joins the open part, or opens the next. */
  method TakeLine(chunk: CodeChunk, lines: seq<string>, cfg: Config, m: Measure,
                  ghost cuts0: seq<Cut>, parts0: seq<CodeChunk>, id0: nat, start0: nat, k: nat, gathered0: seq<string>)
    returns (ghost cuts: seq<Cut>, parts: seq<CodeChunk>, nextId: nat, start: nat, gathered: seq<string>)
    requires Cutting(chunk, lines, cfg, m, cuts0, parts0, id0, start0, k) && k < |lines|
    requires gathered0 == lines[start0..k] && (start0 == 0 <==> parts0 == [])
    ensures Cutting(chunk, lines, cfg, m, cuts, parts, nextId, start, k + 1)
    ensures start <= k && gathered == lines[start..k + 1] && (start == 0 <==> parts == []) && nextId >= id0
  {
    hide Cutting, PartTest;
    assert start0 <= k by {
      CuttingStart(chunk, lines, cfg, m, cuts0, parts0, id0, start0, k);
    }
    cuts, parts, start, gathered := cuts0, parts0, start0, gathered0;
    var overflows := Overflows(chunk, lines, cfg, m, start, k, gathered, parts == [], id0);
    nextId := id0 + 1;
    if overflows {
      cuts, parts := CloseBefore(chunk, lines, cfg, m, cuts, parts, id0, start, k, gathered);
      start, gathered := k, [];
    }
    GatherLine(chunk, lines, cfg, m, cuts, parts, if overflows then nextId else id0, start, k, nextId);
    gathered := gathered + [lines[k]];
  }

  /** The cutting loop. */
  method CutLeaf(chunk: CodeChunk, lines: seq<string>, cfg: Config, m: Measure, firstId: nat)
    returns (parts: seq<CodeChunk>, nextId: nat, ghost cuts: seq<Cut>)
    requires lines != []
    ensures Greedy(cuts, |lines|, PartTest(chunk, lines, cfg, m))
    ensures CutInto(chunk, lines, cfg, cuts, parts, nextId) && nextId >= firstId
  {
    nextId, cuts, parts := firstId, [], [];
    assert Cutting(chunk, lines, cfg, m, cuts, parts, nextId, 0, 0);
    hide Cutting, PartTest, CutInto, Greedy;
    var partStart: nat := 0;
    var current: seq<string> := [];
    for k := 0 to |lines|
      invariant Cutting(chunk, lines, cfg, m, cuts, parts, nextId, partStart, k)
      invariant partStart <= k && (k > 0 ==> partStart < k) && current == lines[partStart..k] && nextId >= firstId
      invariant partStart == 0 <==> parts == []
    {
      cuts, parts, nextId, partStart, current :=
        TakeLine(chunk, lines, cfg, m, cuts, parts, nextId, partStart, k, current);
    }
    var part := PartFrom(chunk, lines, cfg, partStart, |lines|, current, parts == [], nextId);
    CutTheRest(chunk, lines, cfg, m, cuts, parts, nextId, partStart, part);
    cuts, parts := cuts + [Cut(partStart, |lines|)], parts + [part];
    nextId := nextId + 1;
  }

  /** The numbering loop. */
  method LabelAll(chunk: CodeChunk, lines: seq<string>, cfg: Config, ghost cuts: seq<Cut>,
                  unlabelled: seq<CodeChunk>, ghost nextId: nat)
    returns (parts: seq<CodeChunk>)
    requires CutInto(chunk, lines, cfg, cuts, unlabelled, nextId)
    ensures LabelledParts(chunk, lines, cfg, cuts, parts)
  {
    parts := unlabelled;
    for k := 0 to |unlabelled|
      invariant |parts| == |unlabelled|
      invariant forall i :: 0 <= i < k ==> parts[i] == Label(unlabelled[i], i + 1, |unlabelled|)
      invariant forall i :: k <= i < |unlabelled| ==> parts[i] == unlabelled[i]
    {
      parts := parts[k := Label(parts[k], k + 1, |unlabelled|)];
    }
  }

  method SplitLeaf(chunk: CodeChunk, cfg: Config, m: Measure, firstId: nat)
    returns (parts: seq<CodeChunk>, nextId: nat, ghost cuts: seq<Cut>)
    ensures SplitAt(chunk, cfg, m, cuts, parts)
    ensures nextId >= firstId
  {
    var lines := Lines(chunk.content);
    nextId, cuts, parts := firstId, [], [chunk];
    if |lines| > 1 {
      var cutParts;
      cutParts, nextId, cuts := CutLeaf(chunk, lines, cfg, m, firstId);
      if |cutParts| > 1 {
        parts := LabelAll(chunk, lines, cfg, cuts, cutParts, nextId);
      }
    }
  }

  // ------------------------------------------------- what the parts amount to

  function Contents(parts: seq<CodeChunk>): seq<string>
  {
    seq(|parts|, i requires 0 <= i < |parts| => parts[i].content)
  }

  lemma {:induction false} PiecesRejoin(lines: seq<string>, cuts: seq<Cut>, end: nat, pieces: seq<string>)
    requires cuts != [] && Covers(cuts, end) && end <= |lines| && |pieces| == |cuts|
    requires forall i :: 0 <= i < |cuts| ==> pieces[i] == Join(lines[cuts[i].start..cuts[i].end])
    ensures Join(pieces) == Join(lines[..end])
  {
    var k := |cuts| - 1;
    if k > 0 {
      CoversButLast(cuts, end);
      PiecesRejoin(lines, cuts[..k], cuts[k].start, pieces[..k]);
      assert pieces == pieces[..k] + [pieces[k]];
      JoinAppend(pieces[..k], [pieces[k]]);
      assert lines[..end] == lines[..cuts[k].start] + lines[cuts[k].start..end];
      JoinAppend(lines[..cuts[k].start], lines[cuts[k].start..end]);
    }
  }

  lemma PartsRejoin(chunk: CodeChunk, lines: seq<string>, cfg: Config, cuts: seq<Cut>, parts: seq<CodeChunk>)
    requires LabelledParts(chunk, lines, cfg, cuts, parts) && Covers(cuts, |lines|) && cuts != []
    ensures Join(Contents(parts)) == Join(lines)
  {
    hide Join, Covers;
    PiecesRejoin(lines, cuts, |lines|, Contents(parts));
    assert lines[..|lines|] == lines;
  }

  lemma PartsMeet(chunk: CodeChunk, lines: seq<string>, cfg: Config, cuts: seq<Cut>, parts: seq<CodeChunk>)
    requires LabelledParts(chunk, lines, cfg, cuts, parts) && Covers(cuts, |lines|) && cuts != []
    ensures |parts| == |cuts| && parts[0].context.lineStart == chunk.context.lineStart
    ensures parts[|parts| - 1].context.lineEnd == chunk.context.lineStart + |lines| - 1
    ensures forall i, j :: 0 <= i && j == i + 1 < |parts| ==>
              parts[j].context.lineStart == parts[i].context.lineEnd + 1
    ensures forall i :: 0 <= i < |parts| ==>
              parts[i].context.splitPart == Some(i + 1) && parts[i].context.splitTotal == Some(|parts|)
  {
    hide Join;
  }

  /** Parts are numbered 1..n over contiguous line ranges, and their contents joined are the chunk's lines. */
  lemma PartsPartitionTheLeaf(chunk: CodeChunk, cfg: Config, m: Measure, cuts: seq<Cut>, parts: seq<CodeChunk>)
    requires SplitAt(chunk, cfg, m, cuts, parts) && |parts| > 1
    ensures Join(Contents(parts)) == Join(Lines(chunk.content))
    ensures !Lossy(chunk.content) ==> Join(Contents(parts)) == chunk.content
    ensures parts[0].context.lineStart == chunk.context.lineStart
    ensures parts[|parts| - 1].context.lineEnd == chunk.context.lineStart + |Lines(chunk.content)| - 1
    ensures forall i, j :: 0 <= i && j == i + 1 < |parts| ==>
              parts[j].context.lineStart == parts[i].context.lineEnd + 1
    ensures forall i :: 0 <= i < |parts| ==>
              parts[i].context.splitPart == Some(i + 1) && parts[i].context.splitTotal == Some(|parts|)
  {
    var lines := Lines(chunk.content);
    assert Greedy(cuts, |lines|, PartTest(chunk, lines, cfg, m)) && |cuts| == |parts| > 1;
    assert Covers(cuts, |lines|) && LabelledParts(chunk, lines, cfg, cuts, parts);
    hide *;
    PartsRejoin(chunk, lines, cfg, cuts, parts);
    PartsMeet(chunk, lines, cfg, cuts, parts);
    JoinLinesIff(chunk.content);
  }

  /** Every part of several lines was within the target before it was labelled, and
      every part but the last would have exceeded it with one more line. */
  lemma PartsAreGreedy(chunk: CodeChunk, cfg: Config, m: Measure,
                       cuts: seq<Cut>, parts: seq<CodeChunk>, i: nat, id: nat)
    requires SplitAt(chunk, cfg, m, cuts, parts) && |parts| > 1 && i < |parts|
    ensures var lines := Lines(chunk.content);
            && i < |cuts| && cuts[i].start < cuts[i].end <= |lines|
            && (cuts[i].end > cuts[i].start + 1 ==>
                  TokenCount(m, PartOf(chunk, lines, cfg, cuts[i], id)) <= cfg.targetTokens)
            && (i < |parts| - 1 ==>
                  && cuts[i].end < |lines|
                  && TokenCount(m, PartOf(chunk, lines, cfg, Cut(cuts[i].start, cuts[i].end + 1), id))
                     > cfg.targetTokens)
  {
    var lines := Lines(chunk.content);
    var ok := PartTest(chunk, lines, cfg, m);
    assert Greedy(cuts, |lines|, ok) && |cuts| == |parts|;
    assert i < |cuts| - 1 ==> !ok(cuts[i].start, cuts[i].end + 1);
    hide *;
    OnlyTheLastReaches(cuts, |lines|, i);
    GreedyIsAllowed(cuts, |lines|, ok, i);
    TestOf(chunk, lines, cfg, m, cuts[i].start, cuts[i].end, id);
    if i < |cuts| - 1 {
      TestOf(chunk, lines, cfg, m, cuts[i].start, cuts[i].end + 1, id);
    }
  }

  /** With the flag only part 1 keeps the symbol's context; without it every part does. */
  lemma ContextGoesFirst(chunk: CodeChunk, cfg: Config, m: Measure, cuts: seq<Cut>, parts: seq<CodeChunk>, i: nat)
    requires SplitAt(chunk, cfg, m, cuts, parts) && |parts| > 1 && i < |parts|
    ensures var part, own := parts[i].context, chunk.context;
            if cfg.contextInFirstPartOnly && i > 0
            then part.docstring == None && part.imports == [] && part.outgoingCalls == []
            else part.docstring == own.docstring && part.imports == own.imports
                 && part.outgoingCalls == own.outgoingCalls
    ensures parts[i].context.symbolName == chunk.context.symbolName
    ensures parts[i].context.symbolKind == chunk.context.symbolKind
    ensures parts[i].context.filePath == chunk.context.filePath
    ensures parts[i].context.modulePath == chunk.context.modulePath
    ensures parts[i].context.parentSymbolName == chunk.context.parentSymbolName
  {
    if i > 0 {
      assert cuts[i - 1].end == cuts[i].start;
    }
  }

  // -------------------------------------------------------- oversized chunks

  predicate IsContainerKind(kind: string) { kind == "impl" || kind == "module" || kind == "trait" }

  predicate StrictlyContains(parent: CodeChunk, child: CodeChunk)
  {
    var p, c := parent.context, child.context;
    && p.filePath == c.filePath && p.lineStart <= c.lineStart && p.lineEnd >= c.lineEnd
    && (p.lineStart < c.lineStart || p.lineEnd > c.lineEnd)
  }

  predicate OnLine(c: CodeChunk, n: int) { c.context.lineStart <= n <= c.context.lineEnd }

  /** Strict containment is that of the lines, within one file. */
  lemma StrictlyContainsIff(parent: CodeChunk, child: CodeChunk)
    requires child.context.lineStart <= child.context.lineEnd
    ensures StrictlyContains(parent, child) <==>
            && parent.context.filePath == child.context.filePath
            && (forall n :: OnLine(child, n) ==> OnLine(parent, n))
            && (exists n :: OnLine(parent, n) && !OnLine(child, n))
  {
    var p, c := parent.context, child.context;
    assert OnLine(child, c.lineStart) && OnLine(child, c.lineEnd);
    assert p.lineStart <= p.lineEnd ==> OnLine(parent, p.lineStart) && OnLine(parent, p.lineEnd);
  }

  predicate HasChild(chunks: seq<CodeChunk>, i: nat)
    requires i < |chunks|
  {
    exists j :: 0 <= j < |chunks| && j != i && StrictlyContains(chunks[i], chunks[j])
  }

  /** An oversized container whose children are chunks of their own. */
  predicate Elided(chunks: seq<CodeChunk>, cfg: Config, m: Measure, i: nat)
    requires i < |chunks|
  {
    && TokenCount(m, chunks[i]) > cfg.targetTokens
    && IsContainerKind(chunks[i].context.symbolKind)
    && HasChild(chunks, i)
  }

  predicate ElidedAround(chunks: seq<CodeChunk>, skip: seq<bool>, i: nat, p: nat)
    requires |skip| == |chunks| && i < |chunks| && p < |chunks|
  {
    skip[p] && p != i && StrictlyContains(chunks[p], chunks[i])
  }

  function Span(c: CodeChunk): int { c.context.lineEnd - c.context.lineStart }

  /** `min_by_key` over the first `n` chunks: the first of the tightest elided containers around chunk `i`. */
  function NearestAmong(chunks: seq<CodeChunk>, skip: seq<bool>, i: nat, n: nat): (r: Option<nat>)
    requires |skip| == |chunks| && i < |chunks| && n <= |chunks|
    ensures r.Some? ==> r.value < n && ElidedAround(chunks, skip, i, r.value)
  {
    if n == 0 then None
    else
      var best := NearestAmong(chunks, skip, i, n - 1);
      if ElidedAround(chunks, skip, i, n - 1) && (best.None? || Span(chunks[n - 1]) < Span(chunks[best.value]))
      then Some(n - 1) else best
  }

  function NearestElidedParent(chunks: seq<CodeChunk>, skip: seq<bool>, i: nat): Option<nat>
    requires |skip| == |chunks| && i < |chunks|
  {
    NearestAmong(chunks, skip, i, |chunks|)
  }

  /** The recorded parent is a tightest elided container around the chunk, and there is one whenever there can be. */
  lemma {:induction false} NearestIsTightest(chunks: seq<CodeChunk>, skip: seq<bool>, i: nat, n: nat, q: nat)
    requires |skip| == |chunks| && i < |chunks| && q < n <= |chunks| && ElidedAround(chunks, skip, i, q)
    ensures var r := NearestAmong(chunks, skip, i, n);
            && r.Some? && Span(chunks[r.value]) <= Span(chunks[q])
            && (q < r.value ==> Span(chunks[r.value]) < Span(chunks[q]))
            && !StrictlyContains(chunks[r.value], chunks[q])
  {
    if q < n - 1 {
      NearestIsTightest(chunks, skip, i, n - 1, q);
    } else {
      var best := NearestAmong(chunks, skip, i, n - 1);
    }
  }

  /** What is emitted for chunk `i`, before it is split. */
  function Adopted(chunks: seq<CodeChunk>, skip: seq<bool>, i: nat): CodeChunk
    requires |skip| == |chunks| && i < |chunks|
  {
    var parent := NearestElidedParent(chunks, skip, i);
    if parent.None? then chunks[i]
    else chunks[i].(context := chunks[i].context.(parentSymbolName := Some(chunks[parent.value].context.symbolName)))
  }

  /** The emitted pieces of one chunk: nothing if it is elided, itself if it fits, its split otherwise. */
  ghost predicate Emits(chunks: seq<CodeChunk>, skip: seq<bool>, cfg: Config, m: Measure,
                        i: nat, pieces: seq<CodeChunk>)
    requires |skip| == |chunks| && i < |chunks|
  {
    var chunk := Adopted(chunks, skip, i);
    if skip[i] then pieces == []
    else if TokenCount(m, chunk) <= cfg.targetTokens then pieces == [chunk]
    else exists cuts :: SplitAt(chunk, cfg, m, cuts, pieces)
  }

  /** Each chunk's pieces, with exactly the elided containers skipped. */
  ghost predicate EmitsAll(chunks: seq<CodeChunk>, cfg: Config, m: Measure,
                           skip: seq<bool>, groups: seq<seq<CodeChunk>>)
  {
    && |skip| == |groups| == |chunks|
    && forall i :: 0 <= i < |chunks| ==>
         skip[i] == Elided(chunks, cfg, m, i) && Emits(chunks, skip, cfg, m, i, groups[i])
  }

  method MarkElided(chunks: seq<CodeChunk>, cfg: Config, m: Measure) returns (skip: seq<bool>)
    ensures |skip| == |chunks|
    ensures forall i :: 0 <= i < |chunks| ==> skip[i] == Elided(chunks, cfg, m, i)
  {
    skip := [];
    for i := 0 to |chunks|
      invariant |skip| == i
      invariant forall k :: 0 <= k < i ==> skip[k] == Elided(chunks, cfg, m, k)
    {
      var mark := false;
      if TokenCount(m, chunks[i]) > cfg.targetTokens && IsContainerKind(chunks[i].context.symbolKind) {
        var j := 0;
        while j < |chunks| && !mark
          invariant 0 <= j <= |chunks|
          invariant mark <==> exists c :: 0 <= c < j && c != i && StrictlyContains(chunks[i], chunks[c])
        {
          mark := j != i && StrictlyContains(chunks[i], chunks[j]);
          j := j + 1;
        }
      }
      skip := skip + [mark];
    }
  }

  /** `split_oversized_chunks`: the output is the pieces of every chunk, in the order of the input. */
  method SplitOversized(chunks: seq<CodeChunk>, cfg: Config, m: Measure, firstId: nat)
    returns (output: seq<CodeChunk>, ghost skip: seq<bool>, ghost groups: seq<seq<CodeChunk>>)
    ensures EmitsAll(chunks, cfg, m, skip, groups) && output == Flatten(groups)
  {
    var marks := MarkElided(chunks, cfg, m);
    output, groups, skip := [], [], marks;
    var nextId := firstId;
    assert output == Flatten(groups);
    hide Flatten, SplitAt, Adopted, TokenCount, Elided;
    for i := 0 to |chunks|
      invariant |groups| == i && output == Flatten(groups)
      invariant forall k :: 0 <= k < i ==> Emits(chunks, marks, cfg, m, k, groups[k])
    {
      var pieces: seq<CodeChunk> := [];
      if !marks[i] {
        var chunk := Adopted(chunks, marks, i);
        if TokenCount(m, chunk) > cfg.targetTokens {
          ghost var cuts;
          pieces, nextId, cuts := SplitLeaf(chunk, cfg, m, nextId);
        } else {
          pieces := [chunk];
        }
      }
      FlattenPush(groups, pieces);
      groups, output := groups + [pieces], output + pieces;
    }
  }

  lemma PiecesKeepTheParent(chunk: CodeChunk, cfg: Config, m: Measure, cuts: seq<Cut>, pieces: seq<CodeChunk>, k: nat)
    requires SplitAt(chunk, cfg, m, cuts, pieces) && k < |pieces|
    ensures pieces[k].context.parentSymbolName == chunk.context.parentSymbolName
  {
    hide Lines, Join, PartTest, Greedy;
  }

  lemma PieceOfAdopted(chunks: seq<CodeChunk>, skip: seq<bool>, cfg: Config, m: Measure,
                       i: nat, pieces: seq<CodeChunk>, k: nat)
    requires |skip| == |chunks| && i < |chunks| && Emits(chunks, skip, cfg, m, i, pieces) && k < |pieces|
    ensures pieces[k].context.parentSymbolName == Adopted(chunks, skip, i).context.parentSymbolName
  {
    var chunk := Adopted(chunks, skip, i);
    hide Adopted, TokenCount, SplitAt;
    if TokenCount(m, chunk) > cfg.targetTokens {
      var cuts :| SplitAt(chunk, cfg, m, cuts, pieces);
      PiecesKeepTheParent(chunk, cfg, m, cuts, pieces, k);
    }
  }

  /**
    What every piece in the output says of its parent: the name of `parent`, the first of the tightest elided
    containers around the chunk the piece is from; or what the chunk said, if no elided container is around it.
   */
  lemma ParentIsRecorded(chunks: seq<CodeChunk>, cfg: Config, m: Measure,
                         skip: seq<bool>, groups: seq<seq<CodeChunk>>, i: nat, k: nat)
    returns (parent: Option<nat>)
    requires EmitsAll(chunks, cfg, m, skip, groups) && i < |chunks| && k < |groups[i]|
    ensures parent.None? ==>
              && (forall q :: 0 <= q < |chunks| ==>
                    !(Elided(chunks, cfg, m, q) && StrictlyContains(chunks[q], chunks[i])))
              && groups[i][k].context.parentSymbolName == chunks[i].context.parentSymbolName
    ensures parent.Some? ==>
              var p := parent.value;
              && p < |chunks| && Elided(chunks, cfg, m, p) && StrictlyContains(chunks[p], chunks[i])
              && (forall q :: 0 <= q < |chunks|
                              && Elided(chunks, cfg, m, q) && StrictlyContains(chunks[q], chunks[i]) ==>
                    && Span(chunks[p]) <= Span(chunks[q])
                    && (q < p ==> Span(chunks[p]) < Span(chunks[q])))
              && groups[i][k].context.parentSymbolName == Some(chunks[p].context.symbolName)
  {
    assert Emits(chunks, skip, cfg, m, i, groups[i]);
    assert forall q :: 0 <= q < |chunks| ==> skip[q] == Elided(chunks, cfg, m, q);
    hide Emits, Elided;
    PieceOfAdopted(chunks, skip, cfg, m, i, groups[i], k);
    parent := NearestElidedParent(chunks, skip, i);
    forall q | 0 <= q < |chunks| && Elided(chunks, cfg, m, q) && StrictlyContains(chunks[q], chunks[i])
      ensures parent.Some? && Span(chunks[parent.value]) <= Span(chunks[q])
      ensures q < parent.value ==> Span(chunks[parent.value]) < Span(chunks[q])
    {
      NearestIsTightest(chunks, skip, i, |chunks|, q);
    }
  }

  /** A chunk has no pieces exactly if it is a container over the target with a chunk strictly inside it. */
  lemma DroppedIff(chunks: seq<CodeChunk>, cfg: Config, m: Measure,
                   skip: seq<bool>, groups: seq<seq<CodeChunk>>, i: nat)
    requires EmitsAll(chunks, cfg, m, skip, groups) && i < |chunks|
    ensures groups[i] == [] <==>
            && TokenCount(m, chunks[i]) > cfg.targetTokens
            && chunks[i].context.symbolKind in ["impl", "module", "trait"]
            && exists j :: 0 <= j < |chunks| && StrictlyContains(chunks[i], chunks[j])
  {
    assert skip[i] == Elided(chunks, cfg, m, i) && Emits(chunks, skip, cfg, m, i, groups[i]);
    if !skip[i] {
      PiecesOfEmitted(chunks, skip, cfg, m, i, groups[i]);
    }
    hide TokenCount, Emits;
    if j :| 0 <= j < |chunks| && StrictlyContains(chunks[i], chunks[j]) {
      assert j != i;
    }
  }

  /** What is not dropped comes out whole: as it was but for its parent, or in parts that hold all its lines. */
  lemma EmittedWhole(chunks: seq<CodeChunk>, cfg: Config, m: Measure,
                     skip: seq<bool>, groups: seq<seq<CodeChunk>>, i: nat)
    requires EmitsAll(chunks, cfg, m, skip, groups) && i < |chunks| && groups[i] != []
    ensures |groups[i]| == 1 ==>
              groups[i][0] == chunks[i].(context := chunks[i].context.(
                                parentSymbolName := groups[i][0].context.parentSymbolName))
    ensures |groups[i]| > 1 ==> Join(Contents(groups[i])) == Join(Lines(chunks[i].content))
  {
    var chunk := Adopted(chunks, skip, i);
    assert Emits(chunks, skip, cfg, m, i, groups[i]);
    assert chunk == chunks[i].(context := chunks[i].context.(parentSymbolName := chunk.context.parentSymbolName));
    hide Adopted, EmitsAll;
    if TokenCount(m, chunk) > cfg.targetTokens {
      var cuts :| SplitAt(chunk, cfg, m, cuts, groups[i]);
      if |groups[i]| > 1 {
        PartsPartitionTheLeaf(chunk, cfg, m, cuts, groups[i]);
      } else {
        OnePartIsTheChunk(chunk, cfg, m, cuts, groups[i]);
      }
    }
  }

  lemma OnePartIsTheChunk(chunk: CodeChunk, cfg: Config, m: Measure, cuts: seq<Cut>, parts: seq<CodeChunk>)
    requires SplitAt(chunk, cfg, m, cuts, parts) && |parts| == 1
    ensures parts == [chunk]
  {
    hide Lines, Join, PartTest;
  }

  ghost function Inside(chunks: seq<CodeChunk>, i: nat): set<nat>
    requires i < |chunks|
  {
    set j: nat | j < |chunks| && StrictlyContains(chunks[i], chunks[j])
  }

  /**
    Eliding loses no region: inside every elided chunk some chunk is emitted.
    Only containers are ever elided.
   */
  lemma {:induction false} ElidedHoldsEmitted(chunks: seq<CodeChunk>, cfg: Config, m: Measure, i: nat) returns (e: nat)
    requires i < |chunks| && Elided(chunks, cfg, m, i)
    ensures e < |chunks| && !Elided(chunks, cfg, m, e) && StrictlyContains(chunks[i], chunks[e])
    decreases Inside(chunks, i)
  {
    var j: nat :| j < |chunks| && j != i && StrictlyContains(chunks[i], chunks[j]);
    e := j;
    if Elided(chunks, cfg, m, j) {
      assert j in Inside(chunks, i) && j !in Inside(chunks, j);
      e := ElidedHoldsEmitted(chunks, cfg, m, j);
    }
  }

  /** What is not elided has pieces, of the same symbol and file; the first starts where the chunk does. */
  lemma PiecesOfEmitted(chunks: seq<CodeChunk>, skip: seq<bool>, cfg: Config, m: Measure,
                        i: nat, pieces: seq<CodeChunk>)
    requires |skip| == |chunks| && i < |chunks| && !skip[i] && Emits(chunks, skip, cfg, m, i, pieces)
    ensures pieces != []
    ensures forall k :: 0 <= k < |pieces| ==>
              && pieces[k].context.symbolName == chunks[i].context.symbolName
              && pieces[k].context.filePath == chunks[i].context.filePath
              && pieces[k].context.lineStart >= chunks[i].context.lineStart
    ensures pieces[0].context.lineStart == chunks[i].context.lineStart
  {
    var chunk := Adopted(chunks, skip, i);
    assert chunk.context.symbolName == chunks[i].context.symbolName
           && chunk.context.filePath == chunks[i].context.filePath
           && chunk.context.lineStart == chunks[i].context.lineStart;
    if TokenCount(m, chunk) > cfg.targetTokens {
      var cuts :| SplitAt(chunk, cfg, m, cuts, pieces);
      SplitKeepsTheSymbol(chunk, cfg, m, cuts, pieces);
      hide *;
    }
  }

  lemma SplitKeepsTheSymbol(chunk: CodeChunk, cfg: Config, m: Measure, cuts: seq<Cut>, parts: seq<CodeChunk>)
    requires SplitAt(chunk, cfg, m, cuts, parts)
    ensures parts != []
    ensures forall k :: 0 <= k < |parts| ==>
              && parts[k].context.symbolName == chunk.context.symbolName
              && parts[k].context.filePath == chunk.context.filePath
              && parts[k].context.lineStart >= chunk.context.lineStart
    ensures parts[0].context.lineStart == chunk.context.lineStart
  {
    hide Lines, Join, PartTest;
  }

  /**
    No region is lost: of every chunk the output holds a piece, or, if it was elided, a piece
    of a chunk strictly inside it. The piece starts on the first line of the chunk it is from.
   */
  lemma NoRegionIsLost(chunks: seq<CodeChunk>, cfg: Config, m: Measure,
                       skip: seq<bool>, groups: seq<seq<CodeChunk>>, i: nat)
    returns (from: nat, piece: CodeChunk)
    requires EmitsAll(chunks, cfg, m, skip, groups) && i < |chunks|
    ensures from < |chunks| && piece in Flatten(groups)
    ensures if Elided(chunks, cfg, m, i) then StrictlyContains(chunks[i], chunks[from]) else from == i
    ensures piece.context.symbolName == chunks[from].context.symbolName
    ensures piece.context.filePath == chunks[i].context.filePath
    ensures piece.context.lineStart == chunks[from].context.lineStart >= chunks[i].context.lineStart
  {
    from := i;
    if Elided(chunks, cfg, m, i) {
      from := ElidedHoldsEmitted(chunks, cfg, m, i);
    }
    assert !skip[from] && Emits(chunks, skip, cfg, m, from, groups[from]);
    hide Emits, Elided, Flatten;
    PiecesOfEmitted(chunks, skip, cfg, m, from, groups[from]);
    piece := groups[from][0];
    InFlatten(groups, from, piece);
  }
}
