/** Undirected graphs as sets of pairs: connected components, and the edges inside a group of nodes. */
module Components {

  type Node = nat
  type Edges = set<(Node, Node)>

  predicate Adjacent(edges: Edges, a: Node, b: Node) { (a, b) in edges || (b, a) in edges }

  // -------------------------------------------------------------- connectedness

  /** A walk from `a` to `b` that stays among `members`. */
  ghost predicate Walks(edges: Edges, members: seq<Node>, a: Node, b: Node, walk: seq<Node>)
  {
    && walk != [] && walk[0] == a && walk[|walk| - 1] == b
    && (forall i :: 0 <= i < |walk| ==> walk[i] in members)
    && (forall i, j :: 0 <= i < |walk| && j == i + 1 < |walk| ==> Adjacent(edges, walk[i], walk[j]))
  }

  ghost predicate Linked(edges: Edges, members: seq<Node>, a: Node, b: Node)
  {
    exists walk :: Walks(edges, members, a, b, walk)
  }

  lemma LinkedToItself(edges: Edges, members: seq<Node>, a: Node)
    requires a in members
    ensures Linked(edges, members, a, a)
  {
    assert Walks(edges, members, a, a, [a]);
  }

  lemma LinkedBack(edges: Edges, members: seq<Node>, a: Node, b: Node)
    requires Linked(edges, members, a, b)
    ensures Linked(edges, members, b, a)
  {
    var walk :| Walks(edges, members, a, b, walk);
    var n := |walk|;
    var back := seq(n, i requires 0 <= i < n => walk[n - 1 - i]);
    forall i, j | 0 <= i < n && j == i + 1 < n
      ensures Adjacent(edges, back[i], back[j])
    {
      assert Adjacent(edges, walk[n - 1 - j], walk[n - 1 - i]);
    }
    assert Walks(edges, members, b, a, back);
  }

  lemma LinkedOn(edges: Edges, members: seq<Node>, a: Node, b: Node, c: Node)
    requires Linked(edges, members, a, b) && Linked(edges, members, b, c)
    ensures Linked(edges, members, a, c)
  {
    var first :| Walks(edges, members, a, b, first);
    var second :| Walks(edges, members, b, c, second);
    var walk := first + second[1..];
    forall i, j | 0 <= i < |walk| && j == i + 1 < |walk|
      ensures Adjacent(edges, walk[i], walk[j])
    {
      if j < |first| {
        assert Adjacent(edges, first[i], first[j]);
      } else {
        var k := j - |first| + 1;
        assert walk[j] == second[k] && walk[i] == second[k - 1];
        assert Adjacent(edges, second[k - 1], second[k]);
      }
    }
    assert walk[|walk| - 1] == c;
    assert Walks(edges, members, a, c, walk);
  }

  /** The first member that `a` is linked to, among the first `n`. */
  ghost function FirstLinked(edges: Edges, members: seq<Node>, a: Node, n: nat): (k: nat)
    requires n <= |members|
    ensures k <= n && (k < n ==> Linked(edges, members, members[k], a))
    ensures forall i :: 0 <= i < k ==> !Linked(edges, members, members[i], a)
  {
    if n == 0 then 0
    else
      var k := FirstLinked(edges, members, a, n - 1);
      if k < n - 1 || Linked(edges, members, members[n - 1], a) then k else n
  }

  /** Counting members from the first one each is linked to labels the components. */
  lemma SameFirstIffLinked(edges: Edges, members: seq<Node>, a: Node, b: Node)
    requires a in members && b in members
    ensures FirstLinked(edges, members, a, |members|) == FirstLinked(edges, members, b, |members|)
            <==> Linked(edges, members, a, b)
  {
    var n := |members|;
    var fa, fb := FirstLinked(edges, members, a, n), FirstLinked(edges, members, b, n);
    ReachesItsFirst(edges, members, a);
    ReachesItsFirst(edges, members, b);
    if fa == fb {
      LinkedBack(edges, members, members[fa], a);
      LinkedOn(edges, members, a, members[fa], b);
    } else if Linked(edges, members, a, b) {
      LinkedBack(edges, members, a, b);
      LinkedOn(edges, members, members[fa], a, b);
      LinkedOn(edges, members, members[fb], b, a);
    }
  }

  lemma ReachesItsFirst(edges: Edges, members: seq<Node>, a: Node)
    requires a in members
    ensures FirstLinked(edges, members, a, |members|) < |members|
  {
    var i :| 0 <= i < |members| && members[i] == a;
    LinkedToItself(edges, members, a);
  }

  // ------------------------------------------------------------- edges in a group

  function Neighbours(edges: Edges, a: Node): set<Node>
  {
    (set e | e in edges && e.0 == a :: e.1) + (set e | e in edges && e.1 == a :: e.0)
  }

  function NeighboursIn(edges: Edges, group: seq<Node>, a: Node): set<Node>
  {
    set b | b in Neighbours(edges, a) && b in group
  }

  /** How often a neighbour of one of the first `n` nodes of the group is in the group. */
  function NeighboursInside(edges: Edges, group: seq<Node>, n: nat): nat
    requires n <= |group|
  {
    if n == 0 then 0
    else NeighboursInside(edges, group, n - 1) + |NeighboursIn(edges, group, group[n - 1])|
  }

  function InternalPairs(edges: Edges, group: seq<Node>): nat { NeighboursInside(edges, group, |group|) / 2 }

  /** Each edge inside the group once, from its smaller end. */
  ghost function PairsInside(edges: Edges, group: seq<Node>): set<(Node, Node)>
  {
    set a, b | a in group && b in group && a < b && Adjacent(edges, a, b) :: (a, b)
  }

  ghost function LoopsInside(edges: Edges, group: seq<Node>): set<Node>
  {
    set a | a in group && Adjacent(edges, a, a)
  }

  ghost function DirectedInside(edges: Edges, group: seq<Node>, n: nat): (r: set<(Node, Node)>)
    requires n <= |group|
    ensures forall p :: p in r <==> p.0 in group[..n] && p.1 in group && Adjacent(edges, p.0, p.1)
  {
    set a, b | a in group[..n] && b in group && Adjacent(edges, a, b) :: (a, b)
  }

  ghost predicate Distinct(group: seq<Node>) { forall i, j :: 0 <= i < j < |group| ==> group[i] != group[j] }

  lemma NeighboursAre(edges: Edges, a: Node, b: Node)
    ensures b in Neighbours(edges, a) <==> Adjacent(edges, a, b)
  {
    if (a, b) in edges {
      assert (a, b).0 == a && (a, b).1 == b;
    }
    if (b, a) in edges {
      assert (b, a).1 == a && (b, a).0 == b;
    }
  }

  ghost function Fan(a: Node, ends: set<Node>): (r: set<(Node, Node)>)
    ensures forall p :: p in r <==> p.0 == a && p.1 in ends
  {
    set b | b in ends :: (a, b)
  }

  ghost function Mirror(pairs: set<(Node, Node)>): (r: set<(Node, Node)>)
    ensures forall p :: p in r <==> (p.1, p.0) in pairs
  {
    set p | p in pairs :: (p.1, p.0)
  }

  ghost function Diagonal(loops: set<Node>): (r: set<(Node, Node)>)
    ensures forall p :: p in r <==> p.0 == p.1 && p.0 in loops
  {
    set a | a in loops :: (a, a)
  }

  lemma {:induction false} FanSize(a: Node, ends: set<Node>)
    ensures |Fan(a, ends)| == |ends|
  {
    if ends == {} {
      assert Fan(a, ends) == {};
    } else {
      var b :| b in ends;
      FanSize(a, ends - {b});
      assert Fan(a, ends) == Fan(a, ends - {b}) + {(a, b)};
    }
  }

  lemma {:induction false} MirrorSize(pairs: set<(Node, Node)>)
    ensures |Mirror(pairs)| == |pairs|
  {
    if pairs == {} {
      assert Mirror(pairs) == {};
    } else {
      var p :| p in pairs;
      MirrorSize(pairs - {p});
      assert Mirror(pairs) == Mirror(pairs - {p}) + {(p.1, p.0)};
    }
  }

  lemma {:induction false} DiagonalSize(loops: set<Node>)
    ensures |Diagonal(loops)| == |loops|
  {
    if loops == {} {
      assert Diagonal(loops) == {};
    } else {
      var a :| a in loops;
      DiagonalSize(loops - {a});
      assert Diagonal(loops) == Diagonal(loops - {a}) + {(a, a)};
    }
  }

  lemma {:induction false} CountsDirected(edges: Edges, group: seq<Node>, n: nat)
    requires n <= |group| && Distinct(group)
    ensures NeighboursInside(edges, group, n) == |DirectedInside(edges, group, n)|
  {
    hide DirectedInside, NeighboursIn, Adjacent, Distinct;
    if n == 0 {
      NoneDirected(edges, group);
    } else {
      CountsDirected(edges, group, n - 1);
      AddFan(edges, group, n - 1);
    }
  }

  lemma NoneDirected(edges: Edges, group: seq<Node>)
    ensures DirectedInside(edges, group, 0) == {}
  {}

  lemma AddFan(edges: Edges, group: seq<Node>, k: nat)
    requires k < |group| && Distinct(group)
    ensures |DirectedInside(edges, group, k + 1)|
            == |DirectedInside(edges, group, k)| + |NeighboursIn(edges, group, group[k])|
  {
    var a, ends := group[k], NeighboursIn(edges, group, group[k]);
    forall b
      ensures b in ends <==> b in group && Adjacent(edges, a, b)
    {
      NeighboursAre(edges, a, b);
    }
    hide *;
    FanSize(a, ends);
    FanIsNew(edges, group, k, ends);
  }

  lemma FanIsNew(edges: Edges, group: seq<Node>, k: nat, ends: set<Node>)
    requires k < |group| && Distinct(group)
    requires forall b :: b in ends <==> b in group && Adjacent(edges, group[k], b)
    ensures DirectedInside(edges, group, k + 1) == DirectedInside(edges, group, k) + Fan(group[k], ends)
    ensures DirectedInside(edges, group, k) !! Fan(group[k], ends)
  {
    hide Adjacent, Fan, DirectedInside;
    var a := group[k];
    assert a !in group[..k];
    assert group[..k + 1] == group[..k] + [a];
  }

  /** Every edge inside is met from both ends, a self-loop once: halving counts the edges, and half the loops. */
  lemma InternalPairsCount(edges: Edges, group: seq<Node>)
    requires Distinct(group)
    ensures InternalPairs(edges, group) == |PairsInside(edges, group)| + |LoopsInside(edges, group)| / 2
  {
    var up, loops := PairsInside(edges, group), LoopsInside(edges, group);
    CountsDirected(edges, group, |group|);
    MirrorSize(up);
    DiagonalSize(loops);
    DirectedSplits(edges, group);
    assert up !! Mirror(up) && up !! Diagonal(loops) && Mirror(up) !! Diagonal(loops) by {
      hide Mirror, Diagonal, Adjacent;
    }
    hide PairsInside, LoopsInside, Mirror, Diagonal, DirectedInside;
    ThreeParts(up, Mirror(up), Diagonal(loops));
  }

  lemma ThreeParts(a: set<(Node, Node)>, b: set<(Node, Node)>, c: set<(Node, Node)>)
    requires a !! b && a !! c && b !! c
    ensures |a + b + c| == |a| + |b| + |c|
  {
    assert (a + b) !! c;
  }

  lemma DirectedSplits(edges: Edges, group: seq<Node>)
    ensures var up := PairsInside(edges, group);
            DirectedInside(edges, group, |group|) == up + Mirror(up) + Diagonal(LoopsInside(edges, group))
  {
    hide Mirror, Diagonal;
    var up := PairsInside(edges, group);
    assert group[..|group|] == group;
    forall a, b
      ensures (a, b) in DirectedInside(edges, group, |group|)
              <==> (a, b) in up + Mirror(up) + Diagonal(LoopsInside(edges, group))
    {}
  }
}
