/** Stable cores: the nodes that every run of a community detection keeps together. */
module StableCores {
  import opened Wrappers
  import opened Components
  import opened Collections
  import Sorting

  /** One run: the block of each node, negative where the run did not observe it. */
  type Run = seq<int>

  /**
   * `component` is the connected-component labelling of the graph induced on a list of members;
   * it is taken as given and only `LabelsComponents` below is known of it.
   */
  datatype Experiment =
    Experiment(n: nat, runs: seq<Run>, edges: Edges, leiden: bool, component: (seq<Node>, Node) -> nat)

  datatype Class = Class(signature: seq<int>, members: seq<Node>)

  /** The published retention of a core is |members| / parent. */
  datatype Core = Core(members: seq<Node>, parent: nat, internalPairs: nat)

  datatype Report =
    Report(cores: seq<Core>, small: seq<Node>, uncertain: seq<Node>, unobserved: seq<Node>)

  ghost predicate WellFormed(x: Experiment) { x.runs != [] && forall r :: r in x.runs ==> |r| == x.n }

  // ------------------------------------------------------------------ sequences

  function Range(n: nat): seq<nat> { if n == 0 then [] else Range(n - 1) + [n - 1] }

  function Filter<T>(s: seq<T>, p: T -> bool): seq<T>
  {
    if s == [] then []
    else Filter(s[..|s| - 1], p) + (if p(s[|s| - 1]) then [s[|s| - 1]] else [])
  }

  lemma {:induction false} RangeHoldsOnce(n: nat, x: nat)
    ensures multiset(Range(n))[x] == (if x < n then 1 else 0)
  {
    if n > 0 {
      RangeHoldsOnce(n - 1, x);
    }
  }

  lemma {:induction false} FilterKeeps<T>(s: seq<T>, p: T -> bool, x: T)
    ensures multiset(Filter(s, p))[x] == (if p(x) then multiset(s)[x] else 0)
  {
    if s != [] {
      var init, last := s[..|s| - 1], s[|s| - 1];
      assert Filter(s, p) == Filter(init, p) + (if p(last) then [last] else []);
      hide Filter;
      FilterKeeps(init, p, x);
      Sorting.DropLast(s);
    }
  }

  lemma FilterMembers<T>(s: seq<T>, p: T -> bool)
    ensures forall x :: x in Filter(s, p) <==> x in s && p(x)
  {
    forall x
      ensures x in Filter(s, p) <==> x in s && p(x)
    {
      FilterKeeps(s, p, x);
      assert x in multiset(Filter(s, p)) <==> x in Filter(s, p);
      assert x in multiset(s) <==> x in s;
    }
  }

  // --------------------------------------------------------------- observations

  function BlockOf(run: Run, node: Node): int { if node < |run| then run[node] else -1 }

  predicate Observed(x: Experiment, node: Node) { forall r :: 0 <= r < |x.runs| ==> BlockOf(x.runs[r], node) >= 0 }

  function Signature(x: Experiment, node: Node): seq<int>
  {
    seq(|x.runs|, r requires 0 <= r < |x.runs| => BlockOf(x.runs[r], node))
  }

  function Seen(x: Experiment): Node -> bool { (node: Node) => Observed(x, node) }

  function Unseen(x: Experiment): Node -> bool { (node: Node) => !Observed(x, node) }

  function Blocks(run: Run): set<int> { set i | 0 <= i < |run| && run[i] >= 0 :: run[i] }

  /** Some run found at most one block: nothing can be said. */
  predicate Degenerate(x: Experiment) { exists r :: 0 <= r < |x.runs| && |Blocks(x.runs[r])| <= 1 }

  /** The nodes of one block. */
  function Block(x: Experiment, r: nat, k: int): seq<Node>
    requires r < |x.runs|
  {
    Filter(Range(x.n), (node: Node) => BlockOf(x.runs[r], node) == k)
  }

  function ParentUpTo(x: Experiment, signature: seq<int>, runs: nat): nat
    requires runs <= |x.runs| == |signature|
  {
    if runs == 0 then 0
    else Max(ParentUpTo(x, signature, runs - 1), |Block(x, runs - 1, signature[runs - 1])|)
  }

  /** The size of the largest block a class comes from. */
  function Parent(x: Experiment, signature: seq<int>): nat
    requires |signature| == |x.runs|
  {
    ParentUpTo(x, signature, |x.runs|)
  }

  // ------------------------------------------------------------- the algorithm

  /** The insertion-ordered dictionary of classes, with `node` appended under its signature. */
  function AddTo(classes: seq<Class>, signature: seq<int>, node: Node): seq<Class>
  {
    if classes == [] then [Class(signature, [node])]
    else if classes[0].signature == signature then
      [classes[0].(members := classes[0].members + [node])] + classes[1..]
    else [classes[0]] + AddTo(classes[1..], signature, node)
  }

  function Classes(x: Experiment, nodes: seq<Node>): seq<Class>
  {
    if nodes == [] then []
    else
      var node := nodes[|nodes| - 1];
      AddTo(Classes(x, nodes[..|nodes| - 1]), Signature(x, node), node)
  }

  method Classify(x: Experiment, nodes: seq<Node>) returns (classes: seq<Class>)
    ensures classes == Classes(x, nodes)
  {
    classes := [];
    for i := 0 to |nodes|
      invariant classes == Classes(x, nodes[..i])
    {
      assert nodes[..i + 1][..i] == nodes[..i];
      classes := AddTo(classes, Signature(x, nodes[i]), nodes[i]);
    }
    assert nodes[..|nodes|] == nodes;
  }

  predicate BelowRetention(size: nat, parent: nat) { 5 * size < 4 * parent }

  predicate HasPairs(x: Experiment, members: seq<Node>)
  {
    exists e :: e in x.edges && e.0 in members && e.1 in members
  }

  function HasLabel(x: Experiment, members: seq<Node>, k: nat): Node -> bool
  {
    (node: Node) => x.component(members, node) == k
  }

  function UsedLabel(x: Experiment, members: seq<Node>): nat -> bool
  {
    k => exists i :: 0 <= i < |members| && x.component(members, members[i]) == k
  }

  function LabelBound(x: Experiment, members: seq<Node>, count: nat): nat
    requires count <= |members|
  {
    if count == 0 then 0
    else Max(LabelBound(x, members, count - 1), x.component(members, members[count - 1]) + 1)
  }

  /** The labels in use, ascending. */
  function LabelsInUse(x: Experiment, members: seq<Node>): seq<nat>
  {
    Filter(Range(LabelBound(x, members, |members|)), UsedLabel(x, members))
  }

  function ByLabel(x: Experiment, members: seq<Node>, labels: seq<nat>): seq<seq<Node>>
  {
    if labels == [] then []
    else ByLabel(x, members, labels[..|labels| - 1]) + [Filter(members, HasLabel(x, members, labels[|labels| - 1]))]
  }

  function Singles(members: seq<Node>): seq<seq<Node>>
  {
    if members == [] then [] else Singles(members[..|members| - 1]) + [[members[|members| - 1]]]
  }

  function Groups(x: Experiment, members: seq<Node>): seq<seq<Node>>
  {
    if !x.leiden || |members| <= 1 then [members]
    else if HasPairs(x, members) then ByLabel(x, members, LabelsInUse(x, members))
    else Singles(members)
  }

  datatype Verdict = Stable | Small | Uncertain

  /** A piece of a class with its verdict: what the algorithm hands out, in the order it does. */
  datatype Piece = Piece(verdict: Verdict, members: seq<Node>, parent: nat)

  function Judge(size: nat, parent: nat): Verdict
  {
    if size < 3 then Small else if BelowRetention(size, parent) then Uncertain else Stable
  }

  function GroupPieces(groups: seq<seq<Node>>, parent: nat): seq<Piece>
  {
    if groups == [] then []
    else
      var last := groups[|groups| - 1];
      GroupPieces(groups[..|groups| - 1], parent) + [Piece(Judge(|last|, parent), last, parent)]
  }

  ghost predicate Signed(x: Experiment, classes: seq<Class>)
  {
    forall i :: 0 <= i < |classes| ==> |classes[i].signature| == |x.runs|
  }

  function ClassPieces(x: Experiment, c: Class): seq<Piece>
    requires |c.signature| == |x.runs|
  {
    var parent := Parent(x, c.signature);
    if BelowRetention(|c.members|, parent) then [Piece(Uncertain, c.members, parent)]
    else GroupPieces(Groups(x, c.members), parent)
  }

  function Pieces(x: Experiment, classes: seq<Class>): seq<Piece>
    requires Signed(x, classes)
  {
    if classes == [] then []
    else Pieces(x, classes[..|classes| - 1]) + ClassPieces(x, classes[|classes| - 1])
  }

  function Collect(pieces: seq<Piece>, v: Verdict): seq<Node>
  {
    if pieces == [] then []
    else
      var last := pieces[|pieces| - 1];
      Collect(pieces[..|pieces| - 1], v) + (if last.verdict == v then last.members else [])
  }

  function CoreFrom(edges: Edges, members: seq<Node>, parent: nat): Core
  {
    Core(members, parent, InternalPairs(edges, members))
  }

  function CoresOf(edges: Edges, pieces: seq<Piece>): seq<Core>
  {
    if pieces == [] then []
    else
      var last := pieces[|pieces| - 1];
      CoresOf(edges, pieces[..|pieces| - 1]) +
      (if last.verdict == Stable then [CoreFrom(edges, last.members, last.parent)] else [])
  }

  /** Larger cores first, then by first member. */
  predicate CoreLeq(a: Core, b: Core)
  {
    || |a.members| > |b.members|
    || (|a.members| == |b.members| && First(a) <= First(b))
  }

  function First(c: Core): nat { if c.members == [] then 0 else c.members[0] }

  function ObservedNodes(x: Experiment): seq<Node> { Filter(Range(x.n), Seen(x)) }

  function UnobservedNodes(x: Experiment): seq<Node> { Filter(Range(x.n), Unseen(x)) }

  function AllPieces(x: Experiment): seq<Piece>
  {
    ClassesAreSigned(x, ObservedNodes(x));
    Pieces(x, Classes(x, ObservedNodes(x)))
  }

  function ReportOf(x: Experiment): Report
  {
    if Degenerate(x) then Report([], [], ObservedNodes(x), UnobservedNodes(x))
    else
      var pieces := AllPieces(x);
      Report(Sorting.Sort(CoresOf(x.edges, pieces), CoreLeq),
             Collect(pieces, Small), Collect(pieces, Uncertain), UnobservedNodes(x))
  }

  method ExtractCores(x: Experiment) returns (report: Report)
    requires WellFormed(x)
    ensures report == ReportOf(x)
  {
    var common := ObservedNodes(x);
    if Degenerate(x) {
      return Report([], [], common, UnobservedNodes(x));
    }
    var classes := Classify(x, common);
    ClassesAreSigned(x, common);
    var cores, small, uncertain := HandClasses(x, classes);
    report := Report(Sorting.Sort(cores, CoreLeq), small, uncertain, UnobservedNodes(x));
  }

  /** The loop over the classes. */
  method HandClasses(x: Experiment, classes: seq<Class>)
    returns (cores: seq<Core>, small: seq<Node>, uncertain: seq<Node>)
    requires Signed(x, classes)
    ensures Handed(x.edges, Pieces(x, classes), cores, small, uncertain)
  {
    cores, small, uncertain := [], [], [];
    for i := 0 to |classes|
      invariant Handed(x.edges, Pieces(x, classes[..i]), cores, small, uncertain)
    {
      hide Handed, Groups, Parent, GroupPieces;
      ghost var before := Pieces(x, classes[..i]);
      assert classes[..i + 1][..i] == classes[..i];
      assert Pieces(x, classes[..i + 1]) == before + ClassPieces(x, classes[i]);
      var members, parent := classes[i].members, Parent(x, classes[i].signature);
      if BelowRetention(|members|, parent) {
        HandOne(x.edges, before, cores, small, uncertain, Piece(Uncertain, members, parent));
        uncertain := uncertain + members;
        continue;
      }
      cores, small, uncertain := HandGroups(x.edges, Groups(x, members), parent, cores, small, uncertain, before);
    }
    assert classes[..|classes|] == classes;
  }

  ghost predicate Handed(edges: Edges, pieces: seq<Piece>, cores: seq<Core>, small: seq<Node>, uncertain: seq<Node>)
  {
    cores == CoresOf(edges, pieces) && small == Collect(pieces, Small) && uncertain == Collect(pieces, Uncertain)
  }

  lemma HandOne(edges: Edges, before: seq<Piece>, cores: seq<Core>, small: seq<Node>, uncertain: seq<Node>, p: Piece)
    requires Handed(edges, before, cores, small, uncertain)
    ensures Handed(edges, before + [p],
                   cores + (if p.verdict == Stable then [CoreFrom(edges, p.members, p.parent)] else []),
                   small + (if p.verdict == Small then p.members else []),
                   uncertain + (if p.verdict == Uncertain then p.members else []))
    ensures cores + [] == cores && small + [] == small && uncertain + [] == uncertain
  {
    assert (before + [p])[..|before|] == before;
  }

  /** One group of a class that passed the retention test. */
  method HandGroup(edges: Edges, group: seq<Node>, parent: nat,
                   cores0: seq<Core>, small0: seq<Node>, uncertain0: seq<Node>, ghost done: seq<Piece>)
    returns (cores: seq<Core>, small: seq<Node>, uncertain: seq<Node>)
    requires Handed(edges, done, cores0, small0, uncertain0)
    ensures Handed(edges, done + [Piece(Judge(|group|, parent), group, parent)], cores, small, uncertain)
  {
    cores, small, uncertain := cores0, small0, uncertain0;
    HandOne(edges, done, cores, small, uncertain, Piece(Judge(|group|, parent), group, parent));
    hide Handed;
    if |group| < 3 {
      small := small + group;
      return;
    }
    if BelowRetention(|group|, parent) {
      uncertain := uncertain + group;
      return;
    }
    cores := cores + [CoreFrom(edges, group, parent)];
  }

  /** The inner loop: every group of a class that passed the retention test. */
  method HandGroups(edges: Edges, groups: seq<seq<Node>>, parent: nat,
                    cores0: seq<Core>, small0: seq<Node>, uncertain0: seq<Node>, ghost before: seq<Piece>)
    returns (cores: seq<Core>, small: seq<Node>, uncertain: seq<Node>)
    requires Handed(edges, before, cores0, small0, uncertain0)
    ensures Handed(edges, before + GroupPieces(groups, parent), cores, small, uncertain)
  {
    cores, small, uncertain := cores0, small0, uncertain0;
    assert before + GroupPieces([], parent) == before;
    hide Handed;
    for j := 0 to |groups|
      invariant Handed(edges, before + GroupPieces(groups[..j], parent), cores, small, uncertain)
    {
      NextPiece(before, groups, parent, j);
      cores, small, uncertain :=
        HandGroup(edges, groups[j], parent, cores, small, uncertain, before + GroupPieces(groups[..j], parent));
    }
    assert groups[..|groups|] == groups;
  }

  lemma NextPiece(before: seq<Piece>, groups: seq<seq<Node>>, parent: nat, j: nat)
    requires j < |groups|
    ensures before + GroupPieces(groups[..j], parent) + [Piece(Judge(|groups[j]|, parent), groups[j], parent)]
            == before + GroupPieces(groups[..j + 1], parent)
  {
    assert groups[..j + 1][..j] == groups[..j];
  }

  // ------------------------------------------------------------------ the classes

  lemma {:induction false} AddToSigned(x: Experiment, classes: seq<Class>, node: Node)
    requires Signed(x, classes)
    ensures Signed(x, AddTo(classes, Signature(x, node), node))
  {
    if classes != [] {
      AddToSigned(x, classes[1..], node);
    }
  }

  lemma {:induction false} ClassesAreSigned(x: Experiment, nodes: seq<Node>)
    ensures Signed(x, Classes(x, nodes))
  {
    if nodes != [] {
      ClassesAreSigned(x, nodes[..|nodes| - 1]);
      AddToSigned(x, Classes(x, nodes[..|nodes| - 1]), nodes[|nodes| - 1]);
    }
  }

  /** The members filed under a signature. */
  function Lookup(classes: seq<Class>, signature: seq<int>): seq<Node>
  {
    if classes == [] then []
    else if classes[0].signature == signature then classes[0].members
    else Lookup(classes[1..], signature)
  }

  lemma {:induction false} AddToFiles(classes: seq<Class>, s: seq<int>, node: Node, t: seq<int>)
    ensures Lookup(AddTo(classes, s, node), t) == Lookup(classes, t) + (if s == t then [node] else [])
  {
    if classes != [] && classes[0].signature != s {
      AddToFiles(classes[1..], s, node, t);
      assert AddTo(classes, s, node)[1..] == AddTo(classes[1..], s, node);
    }
    assert Lookup(classes, t) + [] == Lookup(classes, t);
  }

  ghost function Signatures(classes: seq<Class>): set<seq<int>>
  {
    if classes == [] then {} else {classes[0].signature} + Signatures(classes[1..])
  }

  ghost predicate DistinctSignatures(classes: seq<Class>)
  {
    classes != [] ==> classes[0].signature !in Signatures(classes[1..]) && DistinctSignatures(classes[1..])
  }

  lemma {:induction false} AddToStaysDistinctSignatures(classes: seq<Class>, s: seq<int>, node: Node)
    requires DistinctSignatures(classes)
    ensures DistinctSignatures(AddTo(classes, s, node))
    ensures Signatures(AddTo(classes, s, node)) == Signatures(classes) + {s}
  {
    if classes != [] {
      AddToStaysDistinctSignatures(classes[1..], s, node);
      assert AddTo(classes, s, node)[1..] ==
             if classes[0].signature == s then classes[1..] else AddTo(classes[1..], s, node);
    }
  }

  lemma {:induction false} SignatureIsListed(classes: seq<Class>, i: nat)
    requires i < |classes|
    ensures classes[i].signature in Signatures(classes)
  {
    if i > 0 {
      SignatureIsListed(classes[1..], i - 1);
    }
  }

  lemma {:induction false} LookupFindsEach(classes: seq<Class>, i: nat)
    requires DistinctSignatures(classes) && i < |classes|
    ensures Lookup(classes, classes[i].signature) == classes[i].members
  {
    if i > 0 {
      SignatureIsListed(classes[1..], i - 1);
      LookupFindsEach(classes[1..], i - 1);
    }
  }

  function HasSignature(x: Experiment, signature: seq<int>): Node -> bool
  {
    (node: Node) => Signature(x, node) == signature
  }

  lemma {:induction false} ClassesFileBySignature(x: Experiment, nodes: seq<Node>)
    ensures DistinctSignatures(Classes(x, nodes))
    ensures forall t :: Lookup(Classes(x, nodes), t) == Filter(nodes, HasSignature(x, t))
  {
    if nodes != [] {
      var init, node := nodes[..|nodes| - 1], nodes[|nodes| - 1];
      ClassesFileBySignature(x, init);
      AddToStaysDistinctSignatures(Classes(x, init), Signature(x, node), node);
      forall t
        ensures Lookup(Classes(x, nodes), t) == Filter(nodes, HasSignature(x, t))
      {
        AddToFiles(Classes(x, init), Signature(x, node), node, t);
      }
    }
  }

  function ClassNodes(classes: seq<Class>): seq<Node>
  {
    if classes == [] then [] else classes[0].members + ClassNodes(classes[1..])
  }

  lemma {:induction false} AddToAddsOne(classes: seq<Class>, s: seq<int>, node: Node)
    ensures multiset(ClassNodes(AddTo(classes, s, node))) == multiset(ClassNodes(classes)) + multiset{node}
  {
    if classes != [] {
      AddToAddsOne(classes[1..], s, node);
      assert AddTo(classes, s, node)[1..] ==
             if classes[0].signature == s then classes[1..] else AddTo(classes[1..], s, node);
    }
  }

  lemma {:induction false} ClassesHoldTheNodes(x: Experiment, nodes: seq<Node>)
    ensures multiset(ClassNodes(Classes(x, nodes))) == multiset(nodes)
  {
    if nodes != [] {
      var init, node := nodes[..|nodes| - 1], nodes[|nodes| - 1];
      assert Classes(x, nodes) == AddTo(Classes(x, init), Signature(x, node), node);
      hide *;
      ClassesHoldTheNodes(x, init);
      AddToAddsOne(Classes(x, init), Signature(x, node), node);
      Sorting.DropLast(nodes);
    }
  }

  // ----------------------------------------------------------------- the groups

  /** The group of one member, without going through the list of labels. */
  function GroupIn(x: Experiment, members: seq<Node>, node: Node): seq<Node>
  {
    if !x.leiden || |members| <= 1 then members
    else if HasPairs(x, members) then Filter(members, HasLabel(x, members, x.component(members, node)))
    else [node]
  }

  lemma OneMoreComponent(x: Experiment, members: seq<Node>, groups: seq<seq<Node>>, k: nat, y: Node)
    ensures multiset(Flatten<Node>(groups + [Filter(members, HasLabel(x, members, k))]))[y] ==
            multiset(Flatten<Node>(groups))[y] + if x.component(members, y) == k then multiset(members)[y] else 0
  {
    FlattenPush(groups, Filter(members, HasLabel(x, members, k)));
    FilterKeeps(members, HasLabel(x, members, k), y);
    assert HasLabel(x, members, k)(y) <==> x.component(members, y) == k;
    hide *;
  }

  lemma {:induction false} ByLabelCount(x: Experiment, members: seq<Node>, labels: seq<nat>, y: Node)
    requires multiset(labels)[x.component(members, y)] <= 1
    ensures multiset(Flatten<Node>(ByLabel(x, members, labels)))[y] ==
            if x.component(members, y) in multiset(labels) then multiset(members)[y] else 0
  {
    if labels != [] {
      var init, k := labels[..|labels| - 1], labels[|labels| - 1];
      assert ByLabel(x, members, labels) == ByLabel(x, members, init) + [Filter(members, HasLabel(x, members, k))];
      hide *;
      assert multiset(labels) == multiset(init) + multiset{k} by {
        assert labels == init + [k];
      }
      ByLabelCount(x, members, init, y);
      OneMoreComponent(x, members, ByLabel(x, members, init), k, y);
    }
  }

  lemma {:induction false} BoundExceedsLabels(x: Experiment, members: seq<Node>, count: nat, i: nat)
    requires i < count <= |members|
    ensures x.component(members, members[i]) < LabelBound(x, members, count)
  {
    if i < count - 1 {
      BoundExceedsLabels(x, members, count - 1, i);
    }
  }

  lemma EachLabelOnce(x: Experiment, members: seq<Node>, y: Node)
    ensures multiset(LabelsInUse(x, members))[x.component(members, y)] <= 1
    ensures y in members ==> x.component(members, y) in multiset(LabelsInUse(x, members))
  {
    if y in members {
      var i :| 0 <= i < |members| && members[i] == y;
      BoundExceedsLabels(x, members, |members|, i);
    }
    RangeHoldsOnce(LabelBound(x, members, |members|), x.component(members, y));
    FilterKeeps(Range(LabelBound(x, members, |members|)), UsedLabel(x, members), x.component(members, y));
  }

  lemma {:induction false} SinglesHoldTheMembers(members: seq<Node>)
    ensures Flatten<Node>(Singles(members)) == members
  {
    if members != [] {
      SinglesHoldTheMembers(members[..|members| - 1]);
      FlattenPush(Singles(members[..|members| - 1]), [members[|members| - 1]]);
      hide Flatten;
      assert members == members[..|members| - 1] + [members[|members| - 1]];
    }
  }

  lemma ComponentsHoldMember(x: Experiment, members: seq<Node>, y: Node)
    ensures multiset(Flatten<Node>(ByLabel(x, members, LabelsInUse(x, members))))[y] == multiset(members)[y]
  {
    hide *;
    EachLabelOnce(x, members, y);
    ByLabelCount(x, members, LabelsInUse(x, members), y);
    assert y in members <==> y in multiset(members);
  }

  lemma ComponentsHoldTheMembers(x: Experiment, members: seq<Node>)
    ensures multiset(Flatten<Node>(ByLabel(x, members, LabelsInUse(x, members)))) == multiset(members)
  {
    var labels := LabelsInUse(x, members);
    var nodes := Flatten<Node>(ByLabel(x, members, labels));
    forall y | y in multiset(nodes) || y in multiset(members)
      ensures multiset(nodes)[y] == multiset(members)[y]
    {
      ComponentsHoldMember(x, members, y);
    }
  }

  lemma GroupsHoldTheMembers(x: Experiment, members: seq<Node>)
    ensures multiset(Flatten<Node>(Groups(x, members))) == multiset(members)
  {
    if !x.leiden || |members| <= 1 {
      FlattenPush([], members);
      assert [] + [members] == [members] && [] + members == members;
    } else if HasPairs(x, members) {
      ComponentsHoldTheMembers(x, members);
    } else {
      SinglesHoldTheMembers(members);
    }
  }

  lemma {:induction false} SinglesAreSingle(members: seq<Node>, g: seq<Node>, y: Node)
    requires g in Singles(members) && y in g
    ensures g == [y]
  {
    if g in Singles(members[..|members| - 1]) {
      SinglesAreSingle(members[..|members| - 1], g, y);
    }
  }

  lemma {:induction false} ByLabelIsOneComponent(x: Experiment, members: seq<Node>,
                                                 labels: seq<nat>, g: seq<Node>, y: Node)
    requires g in ByLabel(x, members, labels) && y in g
    ensures g == Filter(members, HasLabel(x, members, x.component(members, y)))
  {
    var init, k := labels[..|labels| - 1], labels[|labels| - 1];
    if g in ByLabel(x, members, init) {
      ByLabelIsOneComponent(x, members, init, g, y);
    } else {
      FilterMembers(members, HasLabel(x, members, k));
    }
  }

  /** A group is the group of each of its members. */
  lemma GroupsAreGroupsOfMembers(x: Experiment, members: seq<Node>, g: seq<Node>, y: Node)
    requires g in Groups(x, members) && y in g
    ensures g == GroupIn(x, members, y)
  {
    if x.leiden && |members| > 1 {
      if HasPairs(x, members) {
        ByLabelIsOneComponent(x, members, LabelsInUse(x, members), g, y);
      } else {
        SinglesAreSingle(members, g, y);
      }
    }
  }

  // ----------------------------------------------------------------- the pieces

  function PieceNodes(pieces: seq<Piece>): seq<Node>
  {
    if pieces == [] then [] else PieceNodes(pieces[..|pieces| - 1]) + pieces[|pieces| - 1].members
  }

  lemma {:induction false} PieceNodesAppend(a: seq<Piece>, b: seq<Piece>)
    ensures PieceNodes(a + b) == PieceNodes(a) + PieceNodes(b)
  {
    if b == [] {
      assert a + b == a && PieceNodes(a) + [] == PieceNodes(a);
    } else {
      PieceNodesAppend(a, b[..|b| - 1]);
      var init, last := b[..|b| - 1], b[|b| - 1];
      assert (a + b)[..|a + b| - 1] == a + init && (a + b)[|a + b| - 1] == last;
      assert PieceNodes(a + b) == PieceNodes(a + init) + last.members;
      assert PieceNodes(b) == PieceNodes(init) + last.members;
    }
  }

  lemma {:induction false} GroupPiecesHoldTheGroups(groups: seq<seq<Node>>, parent: nat)
    ensures PieceNodes(GroupPieces(groups, parent)) == Flatten<Node>(groups)
    ensures forall p :: p in GroupPieces(groups, parent) ==>
              p.members in groups && p.parent == parent && p.verdict == Judge(|p.members|, parent)
  {
    if groups != [] {
      var init := groups[..|groups| - 1];
      GroupPiecesHoldTheGroups(init, parent);
      assert GroupPieces(groups, parent)[..|GroupPieces(groups, parent)| - 1] == GroupPieces(init, parent);
    }
  }

  lemma ClassPiecesHoldTheClass(x: Experiment, c: Class)
    requires |c.signature| == |x.runs|
    ensures multiset(PieceNodes(ClassPieces(x, c))) == multiset(c.members)
  {
    var parent := Parent(x, c.signature);
    if BelowRetention(|c.members|, parent) {
      var p := Piece(Uncertain, c.members, parent);
      assert [p][..0] == [] && PieceNodes([p]) == [] + c.members;
      assert [] + c.members == c.members;
    } else {
      GroupPiecesHoldTheGroups(Groups(x, c.members), parent);
      GroupsHoldTheMembers(x, c.members);
    }
  }

  lemma {:induction false} ClassNodesPush(classes: seq<Class>, c: Class)
    ensures ClassNodes(classes + [c]) == ClassNodes(classes) + c.members
  {
    if classes == [] {
      assert [] + [c] == [c] && [c][1..] == [] && c.members + [] == [] + c.members;
    } else {
      ClassNodesPush(classes[1..], c);
      assert (classes + [c])[1..] == classes[1..] + [c];
    }
  }

  lemma JoinSame(a: seq<Node>, b: seq<Node>, c: seq<Node>, d: seq<Node>)
    requires multiset(a) == multiset(c) && multiset(b) == multiset(d)
    ensures multiset(a + b) == multiset(c + d)
  {}

  lemma {:induction false} PiecesHoldTheClasses(x: Experiment, classes: seq<Class>)
    requires Signed(x, classes)
    ensures multiset(PieceNodes(Pieces(x, classes))) == multiset(ClassNodes(classes))
  {
    if classes != [] {
      var init, last := classes[..|classes| - 1], classes[|classes| - 1];
      assert Pieces(x, classes) == Pieces(x, init) + ClassPieces(x, last);
      assert classes == init + [last];
      assert Signed(x, init) && |last.signature| == |x.runs|;
      hide *;
      PiecesHoldTheClasses(x, init);
      ClassPiecesHoldTheClass(x, last);
      PieceNodesAppend(Pieces(x, init), ClassPieces(x, last));
      ClassNodesPush(init, last);
      JoinSame(PieceNodes(Pieces(x, init)), PieceNodes(ClassPieces(x, last)), ClassNodes(init), last.members);
    }
  }

  lemma {:induction false} PieceComesFromAClass(x: Experiment, classes: seq<Class>, p: Piece)
    requires Signed(x, classes) && p in Pieces(x, classes)
    ensures exists i :: 0 <= i < |classes| && p in ClassPieces(x, classes[i])
  {
    var init, last := classes[..|classes| - 1], classes[|classes| - 1];
    if p in Pieces(x, init) {
      PieceComesFromAClass(x, init, p);
      var i :| 0 <= i < |init| && p in ClassPieces(x, init[i]);
      assert classes[i] == init[i];
    } else {
      assert p in ClassPieces(x, last);
    }
  }

  // ------------------------------------------------------- the pointwise reading

  /** The nodes that share every block with `node`. */
  function ClassOf(x: Experiment, node: Node): seq<Node>
  {
    Filter(ObservedNodes(x), HasSignature(x, Signature(x, node)))
  }

  function GroupOf(x: Experiment, node: Node): seq<Node> { GroupIn(x, ClassOf(x, node), node) }

  function ParentOf(x: Experiment, node: Node): nat { Parent(x, Signature(x, node)) }

  /** What becomes of an observed node, said of the node alone. */
  function Outcome(x: Experiment, node: Node): Verdict
  {
    if BelowRetention(|ClassOf(x, node)|, ParentOf(x, node)) then Uncertain
    else Judge(|GroupOf(x, node)|, ParentOf(x, node))
  }

  lemma ClassIsClassOf(x: Experiment, c: Class, y: Node)
    requires c in Classes(x, ObservedNodes(x)) && y in c.members
    ensures c.signature == Signature(x, y) && c.members == ClassOf(x, y)
  {
    var nodes := ObservedNodes(x);
    var classes := Classes(x, nodes);
    ClassesFileBySignature(x, nodes);
    var i :| 0 <= i < |classes| && classes[i] == c;
    LookupFindsEach(classes, i);
    FilterMembers(nodes, HasSignature(x, c.signature));
  }

  lemma GroupIsInClass(x: Experiment, members: seq<Node>, g: seq<Node>, y: Node)
    requires g in Groups(x, members) && y in g
    ensures y in members
  {
    GroupsAreGroupsOfMembers(x, members, g, y);
    GroupsHoldTheMembers(x, members);
    var i :| 0 <= i < |Groups(x, members)| && Groups(x, members)[i] == g;
    InFlatten(Groups(x, members), i, y);
    assert y in multiset(Flatten<Node>(Groups(x, members)));
  }

  /** Each piece carries the outcome of each of its members, and a stable one is their group. */
  lemma PieceIsPointwise(x: Experiment, p: Piece, y: Node)
    requires p in AllPieces(x) && y in p.members
    ensures p.verdict == Outcome(x, y) && p.parent == ParentOf(x, y)
    ensures p.verdict == Stable ==> p.members == GroupOf(x, y)
  {
    var classes := Classes(x, ObservedNodes(x));
    ClassesAreSigned(x, ObservedNodes(x));
    PieceComesFromAClass(x, classes, p);
    var i :| 0 <= i < |classes| && p in ClassPieces(x, classes[i]);
    var c := classes[i];
    if BelowRetention(|c.members|, Parent(x, c.signature)) {
      ClassIsClassOf(x, c, y);
    } else {
      GroupPiecesHoldTheGroups(Groups(x, c.members), Parent(x, c.signature));
      GroupIsInClass(x, c.members, p.members, y);
      ClassIsClassOf(x, c, y);
      GroupsAreGroupsOfMembers(x, c.members, p.members, y);
    }
  }

  // ------------------------------------------------------------ every node once

  function CoreNodes(cores: seq<Core>): seq<Node>
  {
    if cores == [] then [] else CoreNodes(cores[..|cores| - 1]) + cores[|cores| - 1].members
  }

  lemma {:induction false} CoresCollectStable(edges: Edges, pieces: seq<Piece>)
    ensures CoreNodes(CoresOf(edges, pieces)) == Collect(pieces, Stable)
  {
    if pieces != [] {
      var init := pieces[..|pieces| - 1];
      CoresCollectStable(edges, init);
      assert CoresOf(edges, init) + [] == CoresOf(edges, init) && Collect(init, Stable) + [] == Collect(init, Stable);
      CoreNodesPush(CoresOf(edges, init), CoreFrom(edges, pieces[|pieces| - 1].members, pieces[|pieces| - 1].parent));
    }
  }

  lemma CoreNodesPush(cores: seq<Core>, c: Core)
    ensures CoreNodes(cores + [c]) == CoreNodes(cores) + c.members
  {
    assert (cores + [c])[..|cores|] == cores;
  }

  lemma {:induction false} InsertAddsMembers(c: Core, cores: seq<Core>)
    ensures multiset(CoreNodes(Sorting.Insert(c, cores, CoreLeq))) == multiset(CoreNodes(cores)) + multiset(c.members)
  {
    CoreNodesPush(cores, c);
    if cores != [] && !CoreLeq(cores[|cores| - 1], c) {
      var init, last := cores[..|cores| - 1], cores[|cores| - 1];
      InsertAddsMembers(c, init);
      CoreNodesPush(Sorting.Insert(c, init, CoreLeq), last);
    }
  }

  lemma {:induction false} SortKeepsMembers(cores: seq<Core>)
    ensures multiset(CoreNodes(Sorting.Sort(cores, CoreLeq))) == multiset(CoreNodes(cores))
  {
    if cores != [] {
      var init, last := cores[..|cores| - 1], cores[|cores| - 1];
      SortKeepsMembers(init);
      InsertAddsMembers(last, Sorting.Sort(init, CoreLeq));
    }
  }

  lemma {:induction false} CollectSplits(pieces: seq<Piece>)
    ensures multiset(PieceNodes(pieces)) ==
            multiset(Collect(pieces, Stable)) + multiset(Collect(pieces, Small)) + multiset(Collect(pieces, Uncertain))
  {
    if pieces != [] {
      CollectSplits(pieces[..|pieces| - 1]);
    }
  }

  lemma AllPiecesHoldTheNodes(x: Experiment)
    ensures multiset(PieceNodes(AllPieces(x))) == multiset(ObservedNodes(x))
  {
    ClassesAreSigned(x, ObservedNodes(x));
    PiecesHoldTheClasses(x, Classes(x, ObservedNodes(x)));
    ClassesHoldTheNodes(x, ObservedNodes(x));
  }

  /** Every node lands in exactly one of the four outcomes, once; nothing else lands anywhere. */
  lemma EveryNodeOnce(x: Experiment, y: Node)
    ensures var r := ReportOf(x);
            multiset(CoreNodes(r.cores))[y] + multiset(r.small)[y]
            + multiset(r.uncertain)[y] + multiset(r.unobserved)[y]
            == if y < x.n then 1 else 0
  {
    RangeHoldsOnce(x.n, y);
    FilterKeeps(Range(x.n), Seen(x), y);
    FilterKeeps(Range(x.n), Unseen(x), y);
    if !Degenerate(x) {
      var pieces := AllPieces(x);
      AllPiecesHoldTheNodes(x);
      CollectSplits(pieces);
      CoresCollectStable(x.edges, pieces);
      SortKeepsMembers(CoresOf(x.edges, pieces));
    }
  }

  lemma {:induction false} CollectedHasVerdict(pieces: seq<Piece>, v: Verdict, y: Node)
    requires y in Collect(pieces, v)
    ensures exists p :: p in pieces && p.verdict == v && y in p.members
  {
    var init, last := pieces[..|pieces| - 1], pieces[|pieces| - 1];
    if y in Collect(init, v) {
      CollectedHasVerdict(init, v, y);
      var p :| p in init && p.verdict == v && y in p.members;
      assert p in pieces;
    } else {
      assert last in pieces && last.verdict == v && y in last.members;
    }
  }

  lemma CollectedByOutcome(x: Experiment, v: Verdict, y: Node)
    requires y in Collect(AllPieces(x), v)
    ensures Outcome(x, y) == v
  {
    CollectedHasVerdict(AllPieces(x), v, y);
    var p :| p in AllPieces(x) && p.verdict == v && y in p.members;
    PieceIsPointwise(x, p, y);
  }

  lemma ReportCollects(x: Experiment)
    requires !Degenerate(x)
    ensures var r, pieces := ReportOf(x), AllPieces(x);
            && r.small == Collect(pieces, Small) && r.uncertain == Collect(pieces, Uncertain)
            && multiset(CoreNodes(r.cores)) == multiset(Collect(pieces, Stable))
  {
    CoresCollectStable(x.edges, AllPieces(x));
    SortKeepsMembers(CoresOf(x.edges, AllPieces(x)));
    hide AllPieces, CoresOf, Collect;
  }

  /** The loop over classes and groups puts each observed node where its own outcome says. */
  lemma PlacedByOutcome(x: Experiment, y: Node)
    requires !Degenerate(x) && y < x.n && Observed(x, y)
    ensures var r := ReportOf(x);
            && (y in CoreNodes(r.cores) <==> Outcome(x, y) == Stable)
            && (y in r.small <==> Outcome(x, y) == Small)
            && (y in r.uncertain <==> Outcome(x, y) == Uncertain)
  {
    hide *;
    var r, pieces := ReportOf(x), AllPieces(x);
    ReportCollects(x);
    InObservedNodes(x, y);
    AllPiecesHoldTheNodes(x);
    CollectSplits(pieces);
    assert y in multiset(ObservedNodes(x));
    assert y in multiset(PieceNodes(pieces));
    assert y in CoreNodes(r.cores) <==> y in multiset(CoreNodes(r.cores));
    assert y in Collect(pieces, Stable) <==> y in multiset(Collect(pieces, Stable));
    if y in Collect(pieces, Stable) {
      CollectedByOutcome(x, Stable, y);
    }
    if y in Collect(pieces, Small) {
      CollectedByOutcome(x, Small, y);
    }
    if y in Collect(pieces, Uncertain) {
      CollectedByOutcome(x, Uncertain, y);
    }
  }

  /** All that the run observed is in one block. */
  predicate OneBlock(run: Run)
  {
    forall i, j :: 0 <= i < |run| && 0 <= j < |run| && run[i] >= 0 && run[j] >= 0 ==> run[i] == run[j]
  }

  lemma OneBlockIff(run: Run)
    ensures |Blocks(run)| <= 1 <==> OneBlock(run)
  {
    var blocks := Blocks(run);
    if |blocks| <= 1 {
      forall i, j | 0 <= i < |run| && 0 <= j < |run| && run[i] >= 0 && run[j] >= 0
        ensures run[i] == run[j]
      {
        assert run[i] in blocks && run[j] in blocks;
        SubsetIsSmaller({run[i], run[j]}, blocks);
      }
    } else {
      var a :| a in blocks;
      assert |blocks - {a}| == |blocks| - 1;
      var b :| b in blocks - {a};
    }
  }

  lemma DegenerateIff(x: Experiment)
    ensures Degenerate(x) <==> exists r :: 0 <= r < |x.runs| && OneBlock(x.runs[r])
  {
    forall r | 0 <= r < |x.runs|
      ensures |Blocks(x.runs[r])| <= 1 <==> OneBlock(x.runs[r])
    {
      OneBlockIff(x.runs[r]);
    }
  }

  /** A class comes from blocks no larger than its parent, one of which is as large. */
  lemma {:induction false} ParentIsAttained(x: Experiment, signature: seq<int>, runs: nat) returns (r: nat)
    requires 0 < runs <= |x.runs| == |signature|
    ensures r < runs && |Block(x, r, signature[r])| == ParentUpTo(x, signature, runs)
  {
    r := runs - 1;
    if runs > 1 && |Block(x, r, signature[r])| < ParentUpTo(x, signature, runs - 1) {
      r := ParentIsAttained(x, signature, runs - 1);
    }
  }

  lemma ParentIsLargest(x: Experiment, y: Node) returns (r: nat)
    requires x.runs != []
    ensures r < |x.runs| && ParentOf(x, y) == |Block(x, r, BlockOf(x.runs[r], y))|
    ensures forall k :: 0 <= k < |x.runs| ==> |Block(x, k, BlockOf(x.runs[k], y))| <= ParentOf(x, y)
  {
    var signature := Signature(x, y);
    r := ParentIsAttained(x, signature, |x.runs|);
    forall k | 0 <= k < |x.runs|
      ensures |Block(x, k, BlockOf(x.runs[k], y))| <= ParentOf(x, y)
    {
      ParentBounds(x, signature, |x.runs|, k);
    }
  }

  /**
    Where an observed node lands, both ways. If some run found but one block it is uncertain. Otherwise let `parent`
    be the largest block it lies in: the node is uncertain if its class, or its group of three or more, holds less
    than four fifths of that; small if its class holds as much and its group is smaller than three; and in a core
    otherwise.
   */
  lemma PlacedIff(x: Experiment, y: Node)
    requires x.runs != [] && y < x.n && Observed(x, y)
    ensures var r := ReportOf(x);
            var ofClass, group, parent := |ClassOf(x, y)|, |GroupOf(x, y)|, ParentOf(x, y);
            if exists k :: 0 <= k < |x.runs| && OneBlock(x.runs[k])
            then y in r.uncertain && r.cores == [] && r.small == []
            else
              && (y in CoreNodes(r.cores) <==> 5 * ofClass >= 4 * parent && group >= 3 && 5 * group >= 4 * parent)
              && (y in r.small <==> 5 * ofClass >= 4 * parent && group < 3)
              && (y in r.uncertain <==> 5 * ofClass < 4 * parent || (group >= 3 && 5 * group < 4 * parent))
  {
    DegenerateIff(x);
    if Degenerate(x) {
      InObservedNodes(x, y);
    } else {
      PlacedByOutcome(x, y);
      hide ReportOf, ClassOf, GroupOf, ParentOf;
    }
  }

  /** Nodes some run did not observe are reported as such, whatever the runs say of the rest. */
  lemma UnobservedAreReported(x: Experiment, y: Node)
    ensures y in ReportOf(x).unobserved <==> y < x.n && !Observed(x, y)
  {
    RangeHoldsOnce(x.n, y);
    FilterMembers(Range(x.n), Unseen(x));
    assert y in Range(x.n) <==> y in multiset(Range(x.n));
  }

  // ------------------------------------------------------------------- the cores

  lemma {:induction false} CoreIsAPiece(edges: Edges, pieces: seq<Piece>, c: Core)
    requires c in CoresOf(edges, pieces)
    ensures Piece(Stable, c.members, c.parent) in pieces && c == CoreFrom(edges, c.members, c.parent)
  {
    if c in CoresOf(edges, pieces[..|pieces| - 1]) {
      CoreIsAPiece(edges, pieces[..|pieces| - 1], c);
    }
  }

  /** A core is the group of each of its members, which are stable. */
  lemma CoreIsGroupOf(x: Experiment, c: Core, y: Node)
    requires c in ReportOf(x).cores && y in c.members
    ensures c.members == GroupOf(x, y) && c.parent == ParentOf(x, y) && Outcome(x, y) == Stable
  {
    Sorting.SortKeepsElements(CoresOf(x.edges, AllPieces(x)), CoreLeq, c);
    CoreIsAPiece(x.edges, AllPieces(x), c);
    PieceIsPointwise(x, Piece(Stable, c.members, c.parent), y);
  }

  lemma {:induction false} ParentBounds(x: Experiment, signature: seq<int>, runs: nat, r: nat)
    requires r < runs <= |x.runs| == |signature|
    ensures |Block(x, r, signature[r])| <= ParentUpTo(x, signature, runs)
  {
    if r < runs - 1 {
      ParentBounds(x, signature, runs - 1, r);
    }
  }

  lemma InObservedNodes(x: Experiment, y: Node)
    ensures y in ObservedNodes(x) <==> y < x.n && Observed(x, y)
  {
    RangeHoldsOnce(x.n, y);
    FilterMembers(Range(x.n), Seen(x));
    assert y in Range(x.n) <==> y in multiset(Range(x.n));
  }

  lemma InClassOf(x: Experiment, node: Node, y: Node)
    ensures y in ClassOf(x, node) <==> y < x.n && Observed(x, y) && Signature(x, y) == Signature(x, node)
  {
    InObservedNodes(x, y);
    FilterMembers(ObservedNodes(x), HasSignature(x, Signature(x, node)));
  }

  lemma InGroupOf(x: Experiment, node: Node, y: Node)
    requires node in ClassOf(x, node) && y in GroupOf(x, node)
    ensures y in ClassOf(x, node)
  {
    var members := ClassOf(x, node);
    FilterMembers(members, HasLabel(x, members, x.component(members, node)));
  }

  lemma BlockCount(x: Experiment, r: nat, k: int, y: Node)
    requires r < |x.runs|
    ensures multiset(Block(x, r, k))[y] == if y < x.n && BlockOf(x.runs[r], y) == k then 1 else 0
  {
    RangeHoldsOnce(x.n, y);
    FilterKeeps(Range(x.n), (node: Node) => BlockOf(x.runs[r], node) == k, y);
  }

  /** The block of a core in a run, read off its first member. */
  function HomeOf(x: Experiment, c: Core, r: nat): int
    requires r < |x.runs|
  {
    BlockOf(x.runs[r], First(c))
  }

  lemma {:induction false} StablePieceIsLarge(x: Experiment, classes: seq<Class>, p: Piece)
    requires Signed(x, classes) && p in Pieces(x, classes) && p.verdict == Stable
    ensures |p.members| >= 3 && !BelowRetention(|p.members|, p.parent)
  {
    hide Groups, Parent, Pieces, GroupPieces;
    PieceComesFromAClass(x, classes, p);
    var i :| 0 <= i < |classes| && p in ClassPieces(x, classes[i]);
    GroupPiecesHoldTheGroups(Groups(x, classes[i].members), Parent(x, classes[i].signature));
  }

  /** A published core has at least three members and passes the retention rule itself. */
  lemma CoreSize(x: Experiment, c: Core)
    requires c in ReportOf(x).cores
    ensures |c.members| >= 3 && 5 * |c.members| >= 4 * c.parent
  {
    hide CoresOf, Pieces, Classes;
    var pieces := AllPieces(x);
    Sorting.SortKeepsElements(CoresOf(x.edges, pieces), CoreLeq, c);
    CoreIsAPiece(x.edges, pieces, c);
    ClassesAreSigned(x, ObservedNodes(x));
    StablePieceIsLarge(x, Classes(x, ObservedNodes(x)), Piece(Stable, c.members, c.parent));
  }

  /** A core's members are observed and every run puts all of them into one block. */
  lemma CoreIsUnanimous(x: Experiment, c: Core, y: Node)
    requires c in ReportOf(x).cores && y in c.members
    ensures y < x.n && Observed(x, y) && Signature(x, y) == Signature(x, First(c))
    ensures forall r :: 0 <= r < |x.runs| ==> BlockOf(x.runs[r], y) == HomeOf(x, c, r)
  {
    var first := First(c);
    CoreIsGroupOf(x, c, first);
    CoreNodesAreObserved(x, c, first);
    InClassOf(x, first, first);
    InGroupOf(x, first, y);
    InClassOf(x, first, y);
    forall r | 0 <= r < |x.runs|
      ensures BlockOf(x.runs[r], y) == HomeOf(x, c, r)
    {
      assert Signature(x, y)[r] == Signature(x, first)[r];
    }
  }

  lemma CoreNodesAreObserved(x: Experiment, c: Core, y: Node)
    requires c in ReportOf(x).cores && y in c.members
    ensures y < x.n && Observed(x, y)
  {
    var pieces := AllPieces(x);
    Sorting.SortKeepsElements(CoresOf(x.edges, pieces), CoreLeq, c);
    CoreIsAPiece(x.edges, pieces, c);
    InPieceNodes(pieces, Piece(Stable, c.members, c.parent), y);
    AllPiecesHoldTheNodes(x);
    assert y in multiset(PieceNodes(pieces));
    assert y in multiset(ObservedNodes(x));
    InObservedNodes(x, y);
  }

  lemma {:induction false} InPieceNodes(pieces: seq<Piece>, p: Piece, y: Node)
    requires p in pieces && y in p.members
    ensures y in PieceNodes(pieces)
  {
    if p != pieces[|pieces| - 1] {
      InPieceNodes(pieces[..|pieces| - 1], p, y);
    }
  }

  /** Each core holds at least four fifths of the block it lies in, in every run. */
  lemma CoreKeepsItsBlocks(x: Experiment, c: Core, r: nat)
    requires c in ReportOf(x).cores && r < |x.runs|
    ensures 5 * |c.members| >= 4 * |Block(x, r, HomeOf(x, c, r))|
  {
    CoreSize(x, c);
    CoreIsGroupOf(x, c, First(c));
    ParentBounds(x, Signature(x, First(c)), |x.runs|, r);
  }

  lemma {:induction false} TwoCoresCount(cores: seq<Core>, i: nat, j: nat, y: Node)
    requires i < j < |cores|
    ensures multiset(cores[i].members)[y] + multiset(cores[j].members)[y] <= multiset(CoreNodes(cores))[y]
  {
    var init := cores[..|cores| - 1];
    if j < |init| {
      TwoCoresCount(init, i, j, y);
    } else {
      OneCoreCount(init, i, y);
    }
  }

  lemma {:induction false} OneCoreCount(cores: seq<Core>, i: nat, y: Node)
    requires i < |cores|
    ensures multiset(cores[i].members)[y] <= multiset(CoreNodes(cores))[y]
  {
    if i < |cores| - 1 {
      OneCoreCount(cores[..|cores| - 1], i, y);
    }
  }

  lemma SubMultisetIsSmaller(a: multiset<Node>, b: multiset<Node>)
    requires a <= b
    ensures |a| <= |b|
  {
    assert b == a + (b - a);
  }

  lemma TwoCoresFillABlock(x: Experiment, i: nat, j: nat, r: nat)
    requires i < j < |ReportOf(x).cores| && r < |x.runs|
    requires HomeOf(x, ReportOf(x).cores[i], r) == HomeOf(x, ReportOf(x).cores[j], r)
    ensures |ReportOf(x).cores[i].members| + |ReportOf(x).cores[j].members|
            <= |Block(x, r, HomeOf(x, ReportOf(x).cores[i], r))|
  {
    var cores := ReportOf(x).cores;
    var a, b, block := cores[i], cores[j], Block(x, r, HomeOf(x, cores[i], r));
    var both := multiset(a.members) + multiset(b.members);
    forall y
      ensures both[y] <= multiset(block)[y]
    {
      TwoCoresCount(cores, i, j, y);
      EveryNodeOnce(x, y);
      BlockCount(x, r, HomeOf(x, a, r), y);
      if y in a.members {
        CoreIsUnanimous(x, a, y);
      }
      if y in b.members {
        CoreIsUnanimous(x, b, y);
      }
    }
    SubMultisetIsSmaller(both, multiset(block));
  }

  /** No block of any run contains two cores. */
  lemma NoBlockHoldsTwoCores(x: Experiment, i: nat, j: nat, r: nat)
    requires i < j < |ReportOf(x).cores| && r < |x.runs|
    ensures HomeOf(x, ReportOf(x).cores[i], r) != HomeOf(x, ReportOf(x).cores[j], r)
  {
    var a, b := ReportOf(x).cores[i], ReportOf(x).cores[j];
    if HomeOf(x, a, r) == HomeOf(x, b, r) {
      TwoCoresFillABlock(x, i, j, r);
      CoreKeepsItsBlocks(x, a, r);
      CoreKeepsItsBlocks(x, b, r);
      CoreSize(x, a);
    }
  }

  lemma {:induction false} FilterIncreases(s: seq<nat>, p: nat -> bool)
    requires Increasing(s)
    ensures Increasing(Filter(s, p))
  {
    if s != [] {
      var init, last := s[..|s| - 1], s[|s| - 1];
      FilterIncreases(init, p);
      FilterMembers(init, p);
      assert Filter(init, p) + [] == Filter(init, p);
      IncreasingPush(Filter(init, p), last);
    }
  }

  lemma {:induction false} RangeIncreases(n: nat)
    ensures Increasing(Range(n)) && forall x :: x in Range(n) ==> x < n
  {
    if n > 0 {
      RangeIncreases(n - 1);
      IncreasingPush(Range(n - 1), n - 1);
    }
  }

  /** Members come in ascending order, and so do the nodes some run did not observe. */
  lemma MembersAscend(x: Experiment, c: Core)
    requires c in ReportOf(x).cores
    ensures Increasing(c.members) && Increasing(ReportOf(x).unobserved)
  {
    var first := First(c);
    CoreSize(x, c);
    CoreIsGroupOf(x, c, first);
    RangeIncreases(x.n);
    FilterIncreases(Range(x.n), Unseen(x));
    FilterIncreases(Range(x.n), Seen(x));
    FilterIncreases(ObservedNodes(x), HasSignature(x, Signature(x, first)));
    var members := ClassOf(x, first);
    FilterIncreases(members, HasLabel(x, members, x.component(members, first)));
    assert ReportOf(x).unobserved == UnobservedNodes(x);
    hide ReportOf, Filter, Range;
  }

  /** The cores come largest first, equally large ones by their first members. */
  lemma CoresAreSorted(x: Experiment, i: nat, j: nat)
    requires i < j < |ReportOf(x).cores|
    ensures var a, b := ReportOf(x).cores[i].members, ReportOf(x).cores[j].members;
            a != [] && b != [] && (|a| > |b| || (|a| == |b| && a[0] <= b[0]))
  {
    CoreSize(x, ReportOf(x).cores[i]);
    CoreSize(x, ReportOf(x).cores[j]);
    if !Degenerate(x) {
      Sorting.SortSorts(CoresOf(x.edges, AllPieces(x)), CoreLeq);
      hide CoresOf, AllPieces;
      assert CoreLeq(ReportOf(x).cores[i], ReportOf(x).cores[j]);
    }
  }

  // --------------------------------------------------------- the graph in a core

  lemma CoreIsDistinct(x: Experiment, c: Core)
    requires c in ReportOf(x).cores
    ensures Distinct(c.members)
  {
    var cores := ReportOf(x).cores;
    var k :| 0 <= k < |cores| && cores[k] == c;
    forall i, j | 0 <= i < j < |c.members|
      ensures c.members[i] != c.members[j]
    {
      var y := c.members[i];
      OneCoreCount(cores, k, y);
      EveryNodeOnce(x, y);
      hide *;
      if y == c.members[j] {
        TwiceCounts(c.members, i, j);
      }
    }
  }

  lemma TwiceCounts(s: seq<Node>, i: nat, j: nat)
    requires i < j < |s| && s[i] == s[j]
    ensures multiset(s)[s[i]] >= 2
  {
    assert s == s[..j] + s[j..];
    assert s[..j][i] in multiset(s[..j]) && s[j..][0] in multiset(s[j..]);
  }

  /** The published pair count of a core is the number of edges inside it, and half its self-loops. */
  lemma CoreCountsItsPairs(x: Experiment, c: Core)
    requires c in ReportOf(x).cores
    ensures c.internalPairs == |PairsInside(x.edges, c.members)| + |LoopsInside(x.edges, c.members)| / 2
    ensures (forall a :: (a, a) !in x.edges) ==> c.internalPairs == |PairsInside(x.edges, c.members)|
  {
    CoreIsDistinct(x, c);
    InternalPairsCount(x.edges, c.members);
    assert c.internalPairs == InternalPairs(x.edges, c.members) by {
      hide InternalPairs, AllPieces;
      Sorting.SortKeepsElements(CoresOf(x.edges, AllPieces(x)), CoreLeq, c);
      CoreIsAPiece(x.edges, AllPieces(x), c);
    }
    hide PairsInside;
    if forall a :: (a, a) !in x.edges {
      assert LoopsInside(x.edges, c.members) == {};
    }
  }

  /** What a connected-component labelling of every induced graph is. */
  ghost predicate LabelsComponents(x: Experiment)
  {
    forall members, a, b | a in members && b in members ::
      x.component(members, a) == x.component(members, b) <==> Linked(x.edges, members, a, b)
  }

  /** There is such a labelling for every experiment. */
  lemma LabellingExists(x: Experiment) returns (labelled: Experiment)
    ensures LabelsComponents(labelled) && labelled == x.(component := labelled.component)
  {
    var edges := x.edges;
    labelled := x.(component := (members: seq<Node>, a: Node) => FirstLinked(edges, members, a, |members|));
    forall members, a, b | a in members && b in members
      ensures labelled.component(members, a) == labelled.component(members, b) <==> Linked(edges, members, a, b)
    {
      SameFirstIffLinked(edges, members, a, b);
    }
  }

  /** Who is linked to somebody else has an edge among the members. */
  lemma LinkedHasPairs(x: Experiment, members: seq<Node>, a: Node, b: Node)
    requires Linked(x.edges, members, a, b) && a != b
    ensures HasPairs(x, members)
  {
    var walk :| Walks(x.edges, members, a, b, walk);
    assert Adjacent(x.edges, walk[0], walk[1]);
  }

  /** With Leiden, a group is one connected component of its class, all of it; otherwise it is its class. */
  lemma GroupIsAComponent(x: Experiment, a: Node, b: Node)
    requires LabelsComponents(x) && a < x.n && Observed(x, a)
    ensures !x.leiden ==> GroupOf(x, a) == ClassOf(x, a)
    ensures x.leiden ==> (b in GroupOf(x, a) <==> b in ClassOf(x, a) && Linked(x.edges, ClassOf(x, a), a, b))
  {
    InClassOf(x, a, a);
    GroupInIsAComponent(x, ClassOf(x, a), a, b);
    assert GroupOf(x, a) == GroupIn(x, ClassOf(x, a), a);
    hide *;
  }

  lemma GroupInIsAComponent(x: Experiment, members: seq<Node>, a: Node, b: Node)
    requires LabelsComponents(x) && a in members
    ensures !x.leiden ==> GroupIn(x, members, a) == members
    ensures x.leiden ==> (b in GroupIn(x, members, a) <==> b in members && Linked(x.edges, members, a, b))
  {
    LinkedToItself(x.edges, members, a);
    FilterMembers(members, HasLabel(x, members, x.component(members, a)));
    if Linked(x.edges, members, a, b) && a != b {
      LinkedHasPairs(x, members, a, b);
    }
    assert b in members ==> (x.component(members, a) == x.component(members, b) <==> Linked(x.edges, members, a, b));
    hide Linked, HasPairs, LabelsComponents, Filter;
  }

  /** So is a core, said of any of its members. */
  lemma CoreIsAComponent(x: Experiment, c: Core, a: Node, b: Node)
    requires LabelsComponents(x) && c in ReportOf(x).cores && a in c.members
    ensures !x.leiden ==> c.members == ClassOf(x, a)
    ensures x.leiden ==> (b in c.members <==> b in ClassOf(x, a) && Linked(x.edges, ClassOf(x, a), a, b))
  {
    CoreIsGroupOf(x, c, a);
    CoreNodesAreObserved(x, c, a);
    GroupIsAComponent(x, a, b);
  }
}
