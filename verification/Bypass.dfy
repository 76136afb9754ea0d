/** Bypassing whitelisted forwarders: a call to one is redrawn to what it finally calls. */
module Bypass {
  import opened Wrappers
  import opened Collections

  type Node = nat
  type Evidence = nat

  datatype Forwarder = Forwarder(callee: Node, evidence: Evidence)

  datatype Hop = Hop(via: Node, evidence: Evidence)

  /** A redrawn edge is no longer observed and has a path; `payload` stands for the columns nobody touches. */
  datatype Edge = Edge(s: Node, t: Node, isCall: bool, observed: bool, path: Option<seq<Hop>>, payload: nat)

  type Whitelist = map<Node, Forwarder>

  /** The chain walk: the forwarders passed from `t` on, nothing if one comes up that was already seen. */
  function Walk(f: Whitelist, seen: set<Node>, t: Node): Option<seq<Hop>>
    decreases f.Keys - seen
  {
    if t !in f then Some([])
    else if t in seen then None
    else
      var rest := Walk(f, seen + {t}, f[t].callee);
      if rest.None? then None else Some([Hop(t, f[t].evidence)] + rest.value)
  }

  /** The `k`-th node of the chain from `t`; the chain stays where it leaves the whitelist. */
  function ChainAt(f: Whitelist, t: Node, k: nat): Node
  {
    if k == 0 then t
    else
      var before := ChainAt(f, t, k - 1);
      if before in f then f[before].callee else before
  }

  method Follow(f: Whitelist, s: Node, t0: Node) returns (t: Node, path: Option<seq<Hop>>)
    ensures path == Walk(f, {s}, t0)
    ensures path.Some? ==> t == ChainAt(f, t0, |path.value|)
  {
    var seen, hops := {s}, [];
    t := t0;
    assert forall rest: seq<Hop> :: [] + rest == rest;
    while t in f
      invariant t == ChainAt(f, t0, |hops|)
      invariant Walk(f, {s}, t0) == (if Walk(f, seen, t).None? then None else Some(hops + Walk(f, seen, t).value))
      decreases f.Keys - seen
    {
      if t in seen {
        return t, None;
      }
      ghost var rest := Walk(f, seen + {t}, f[t].callee);
      if rest.Some? {
        assert hops + ([Hop(t, f[t].evidence)] + rest.value) == hops + [Hop(t, f[t].evidence)] + rest.value;
      }
      seen := seen + {t};
      hops := hops + [Hop(t, f[t].evidence)];
      t := f[t].callee;
    }
    assert hops + [] == hops;
    path := Some(hops);
  }

  function Redrawn(f: Whitelist, e: Edge): Option<Edge>
  {
    if !e.isCall then Some(e)
    else
      var path := Walk(f, {e.s}, e.t);
      if path.None? then None
      else if path.value == [] then Some(e)
      else Some(e.(t := ChainAt(f, e.t, |path.value|), observed := false, path := path))
  }

  /** The view after bypassing; nothing if some walk finds a cycle. */
  function BypassAll(f: Whitelist, edges: seq<Edge>): Option<seq<Edge>>
  {
    if edges == [] then Some([])
    else
      var before, e := BypassAll(f, edges[..|edges| - 1]), Redrawn(f, edges[|edges| - 1]);
      if before.None? || e.None? then None
      else Some(before.value + (if e.value.s != e.value.t then [e.value] else []))
  }

  /**
    `view` are the edges at the positions `from`, ascending, each redrawn; and these are exactly the edges
    that bypassing has not turned into self-loops. So every edge comes at most once, calls too, in order.
   */
  ghost predicate InOrder(f: Whitelist, edges: seq<Edge>, view: seq<Edge>, from: seq<nat>)
  {
    && |view| == |from| && Increasing(from)
    && (forall k :: 0 <= k < |from| ==> from[k] < |edges| && Redrawn(f, edges[from[k]]) == Some(view[k]))
    && (forall i :: 0 <= i < |edges| ==>
          Redrawn(f, edges[i]).Some?
          && (i in from <==> Redrawn(f, edges[i]).value.s != Redrawn(f, edges[i]).value.t))
  }

  /** The calls that aim at a forwarder. */
  function Aimed(f: Whitelist, edges: seq<Edge>): set<nat>
  {
    set i | 0 <= i < |edges| && edges[i].isCall && edges[i].t in f
  }

  method BypassForwarders(f: Whitelist, edges: seq<Edge>)
    returns (view: Option<seq<Edge>>, bypassed: nat, ghost from: seq<nat>)
    ensures view.Some? ==> InOrder(f, edges, view.value, from) && bypassed == |Aimed(f, edges)|
    ensures view.None? ==> exists i :: 0 <= i < |edges| && Redrawn(f, edges[i]).None?
    ensures view == BypassAll(f, edges)
  {
    var transformed: seq<Edge> := [];
    bypassed, from := 0, [];
    for i := 0 to |edges|
      invariant BypassAll(f, edges[..i]) == Some(transformed)
      invariant InOrder(f, edges[..i], transformed, from) && bypassed == |Aimed(f, edges[..i])|
    {
      assert edges[..i + 1][..i] == edges[..i];
      var e := edges[i];
      if e.isCall {
        var t, path := Follow(f, e.s, e.t);
        if path.None? {
          FailureStays(f, edges, i + 1);
          return None, bypassed, from;
        }
        if path.value != [] {
          e := e.(t := t, observed := false, path := path);
          bypassed := bypassed + 1;
        }
      }
      assert Redrawn(f, edges[i]) == Some(e) && transformed + [] == transformed;
      RedrawNext(f, edges, i, transformed, from, e);
      if e.s != e.t {
        transformed, from := transformed + [e], from + [i];
      }
    }
    assert edges[..|edges|] == edges;
    view := Some(transformed);
  }

  lemma RedrawNext(f: Whitelist, edges: seq<Edge>, n: nat, view: seq<Edge>, from: seq<nat>, e: Edge)
    requires n < |edges| && InOrder(f, edges[..n], view, from) && Redrawn(f, edges[n]) == Some(e)
    ensures if e.s != e.t then InOrder(f, edges[..n + 1], view + [e], from + [n])
            else InOrder(f, edges[..n + 1], view, from)
    ensures |Aimed(f, edges[..n + 1])|
            == |Aimed(f, edges[..n])| + if edges[n].isCall && edges[n].t in f then 1 else 0
  {
    var before, after := Aimed(f, edges[..n]), Aimed(f, edges[..n + 1]);
    assert after == if edges[n].isCall && edges[n].t in f then before + {n} else before;
    hide Redrawn;
  }

  lemma {:induction false} FailureStays(f: Whitelist, edges: seq<Edge>, n: nat)
    requires n <= |edges| && BypassAll(f, edges[..n]).None?
    ensures BypassAll(f, edges).None?
    decreases |edges| - n
  {
    if n < |edges| {
      assert edges[..n + 1][..n] == edges[..n];
      FailureStays(f, edges, n + 1);
    } else {
      assert edges[..n] == edges;
    }
  }

  // ---------------------------------------------------------------- the chain

  lemma {:induction false} ChainFromCallee(f: Whitelist, t: Node, k: nat)
    requires t in f
    ensures ChainAt(f, t, k + 1) == ChainAt(f, f[t].callee, k)
  {
    if k > 0 {
      ChainFromCallee(f, t, k - 1);
    }
  }

  /** A successful walk lists the chain, hop by hop, to the first node outside the whitelist. */
  lemma {:induction false} PathIsTheChain(f: Whitelist, seen: set<Node>, t: Node, k: nat)
    requires Walk(f, seen, t).Some?
    ensures var path := Walk(f, seen, t).value;
            && ChainAt(f, t, |path|) !in f
            && (k < |path| ==> ChainAt(f, t, k) in f && ChainAt(f, t, k) !in seen
                               && path[k] == Hop(ChainAt(f, t, k), f[ChainAt(f, t, k)].evidence))
    decreases f.Keys - seen
  {
    if t in f {
      var next := f[t].callee;
      PathIsTheChain(f, seen + {t}, next, if k > 0 then k - 1 else 0);
      ChainFromCallee(f, t, |Walk(f, seen, t).value| - 1);
      if k > 0 {
        ChainFromCallee(f, t, k - 1);
      }
    }
  }

  /** The walk takes no more steps than there are forwarders it has not seen. */
  lemma {:induction false} WalkIsShort(f: Whitelist, seen: set<Node>, t: Node)
    requires Walk(f, seen, t).Some?
    ensures |Walk(f, seen, t).value| <= |f.Keys - seen|
    decreases f.Keys - seen
  {
    if t in f {
      WalkIsShort(f, seen + {t}, f[t].callee);
      assert f.Keys - seen == (f.Keys - (seen + {t})) + {t};
    }
  }

  // ---------------------------------------------------------- when a walk fails

  /** The chain never leaves the whitelist: it runs in a circle. */
  ghost predicate Endless(f: Whitelist, t: Node) { forall k: nat :: ChainAt(f, t, k) in f }

  /** The chain comes to `x`, as a forwarder. */
  ghost predicate Meets(f: Whitelist, t: Node, x: Node) { x in f && exists k: nat :: ChainAt(f, t, k) == x }

  lemma EndlessShift(f: Whitelist, t: Node)
    requires t in f
    ensures Endless(f, t) <==> Endless(f, f[t].callee)
  {
    var next := f[t].callee;
    forall k: nat
      ensures ChainAt(f, t, k + 1) == ChainAt(f, next, k)
    {
      ChainFromCallee(f, t, k);
    }
    if Endless(f, next) {
      forall k: nat
        ensures ChainAt(f, t, k) in f
      {
        if k > 0 {
          assert ChainAt(f, t, k - 1 + 1) == ChainAt(f, next, k - 1);
        }
      }
    }
    if Endless(f, t) {
      forall k: nat
        ensures ChainAt(f, next, k) in f
      {
        assert ChainAt(f, t, k + 1) in f;
      }
    }
  }

  lemma MeetsShift(f: Whitelist, t: Node, x: Node)
    requires t in f
    ensures Meets(f, t, x) <==> t == x || Meets(f, f[t].callee, x)
  {
    if Meets(f, t, x) && t != x {
      var k: nat :| ChainAt(f, t, k) == x;
      ChainFromCallee(f, t, k - 1);
      assert ChainAt(f, f[t].callee, k - 1) == x;
    }
    if t == x {
      assert ChainAt(f, t, 0) == x;
    }
    if Meets(f, f[t].callee, x) {
      var k: nat :| ChainAt(f, f[t].callee, k) == x;
      ChainFromCallee(f, t, k);
      assert ChainAt(f, t, k + 1) == x;
    }
  }

  /** A chain that comes back to its start runs in a circle. */
  lemma {:induction false} ReturnIsEndless(f: Whitelist, t: Node, p: nat, k: nat)
    requires p > 0 && t in f && ChainAt(f, t, p) == t && (forall j: nat :: j < p ==> ChainAt(f, t, j) in f)
    ensures ChainAt(f, t, k) in f
    ensures k >= p ==> ChainAt(f, t, k) == ChainAt(f, t, k - p)
  {
    if k >= p {
      ReturnIsEndless(f, t, p, k - 1);
      if k > p {
        ReturnIsEndless(f, t, p, k - p);
      }
    }
  }

  /** Before an exit, every node of the chain is a forwarder. */
  lemma {:induction false} InsideBefore(f: Whitelist, t: Node, j: nat, k: nat)
    requires j <= k && ChainAt(f, t, k) in f
    ensures ChainAt(f, t, j) in f
  {
    if j < k {
      InsideBefore(f, t, j, k - 1);
    }
  }

  /** A forwarder whose chain meets it again runs in a circle. */
  lemma MeetsItselfIsEndless(f: Whitelist, t: Node)
    requires t in f && Meets(f, f[t].callee, t)
    ensures Endless(f, t)
  {
    var k: nat :| ChainAt(f, f[t].callee, k) == t;
    ChainFromCallee(f, t, k);
    forall j: nat
      ensures ChainAt(f, t, j) in f
    {
      forall i: nat | i < k + 1
        ensures ChainAt(f, t, i) in f
      {
        InsideBefore(f, t, i, k + 1);
      }
      ReturnIsEndless(f, t, k + 1, j);
    }
  }

  /** The walk fails exactly when the chain runs in a circle or meets a node seen before. */
  lemma {:induction false} WalkFailsIff(f: Whitelist, seen: set<Node>, t: Node)
    ensures Walk(f, seen, t).None? <==> Endless(f, t) || exists x :: x in seen && Meets(f, t, x)
    decreases f.Keys - seen
  {
    if t !in f {
      OutsideMeetsNothing(f, t);
    } else if t in seen {
      MeetsShift(f, t, t);
    } else {
      var next := f[t].callee;
      WalkFailsIff(f, seen + {t}, next);
      EndlessShift(f, t);
      forall x
        ensures Meets(f, t, x) <==> t == x || Meets(f, next, x)
      {
        MeetsShift(f, t, x);
      }
      if Meets(f, next, t) {
        MeetsItselfIsEndless(f, t);
      }
      assert forall x :: x in seen + {t} <==> x in seen || x == t;
    }
  }

  lemma OutsideMeetsNothing(f: Whitelist, t: Node)
    requires t !in f
    ensures !Endless(f, t) && forall x :: !Meets(f, t, x)
  {
    assert ChainAt(f, t, 0) !in f;
    forall k: nat
      ensures ChainAt(f, t, k) == t
    {
      StaysOutside(f, t, k);
    }
  }

  lemma {:induction false} StaysOutside(f: Whitelist, t: Node, k: nat)
    requires t !in f
    ensures ChainAt(f, t, k) == t
  {
    if k > 0 {
      StaysOutside(f, t, k - 1);
    }
  }

  /** The audit: the only call of a forwarder is the one to its callee. */
  ghost predicate Audited(f: Whitelist, e: Edge) { e.isCall && e.s in f ==> f[e.s].callee == e.t }

  /** On audited edges the reported failure is always a genuine cycle of forwarders. */
  lemma FailureIsACycle(f: Whitelist, e: Edge)
    requires Audited(f, e) && e.isCall
    ensures Redrawn(f, e).None? <==> Endless(f, e.t)
  {
    WalkFailsIff(f, {e.s}, e.t);
    if Meets(f, e.t, e.s) {
      MeetsItselfIsEndless(f, e.s);
      EndlessShift(f, e.s);
    }
  }

  // ------------------------------------------------------------- the whole view

  /** What redrawing does: nothing but to a call of a forwarder, which goes to the end of the chain. */
  lemma RedrawnIs(f: Whitelist, e: Edge)
    requires Redrawn(f, e).Some?
    ensures var r := Redrawn(f, e).value;
            if !e.isCall || e.t !in f then r == e
            else
              && r.path.Some? && r == e.(t := r.t, observed := false, path := r.path)
              && var path := r.path.value;
              && 0 < |path| <= |f| && r.t == ChainAt(f, e.t, |path|) && r.t !in f
              && forall k :: 0 <= k < |path| ==>
                   ChainAt(f, e.t, k) in f
                   && path[k] == Hop(ChainAt(f, e.t, k), f[ChainAt(f, e.t, k)].evidence)
  {
    if e.isCall {
      var path := Walk(f, {e.s}, e.t).value;
      PathIsTheChain(f, {e.s}, e.t, 0);
      forall k | 0 <= k < |path|
        ensures ChainAt(f, e.t, k) in f && path[k] == Hop(ChainAt(f, e.t, k), f[ChainAt(f, e.t, k)].evidence)
      {
        PathIsTheChain(f, {e.s}, e.t, k);
      }
      WalkIsShort(f, {e.s}, e.t);
      SubsetIsSmaller(f.Keys - {e.s}, f.Keys);
    }
  }

  /** Everything in the view is a redrawn edge of the input. */
  lemma {:induction false} ViewComesFromEdges(f: Whitelist, edges: seq<Edge>, e: Edge)
    requires BypassAll(f, edges).Some? && e in BypassAll(f, edges).value
    ensures e.s != e.t && exists i :: 0 <= i < |edges| && Redrawn(f, edges[i]) == Some(e)
  {
    var init := edges[..|edges| - 1];
    if e in BypassAll(f, init).value {
      ViewComesFromEdges(f, init, e);
      var i :| 0 <= i < |init| && Redrawn(f, init[i]) == Some(e);
      assert init[i] == edges[i];
    } else {
      assert Redrawn(f, edges[|edges| - 1]) == Some(e);
    }
  }

  /** No call in the view targets a forwarder, and its path is the chain from the observed target. */
  lemma CallsReachRealTargets(f: Whitelist, edges: seq<Edge>, e: Edge) returns (from: Edge)
    requires BypassAll(f, edges).Some? && e in BypassAll(f, edges).value && e.isCall
    ensures e.t !in f && from in edges && from.s == e.s && from.isCall
    ensures from.t !in f ==> e == from
    ensures from.t in f ==>
              && e.path.Some?
              && var path := e.path.value;
              && e == from.(t := e.t, observed := false, path := e.path)
              && 0 < |path| <= |f| && e.t == ChainAt(f, from.t, |path|)
              && forall k :: 0 <= k < |path| ==>
                   ChainAt(f, from.t, k) in f
                   && path[k] == Hop(ChainAt(f, from.t, k), f[ChainAt(f, from.t, k)].evidence)
  {
    ViewComesFromEdges(f, edges, e);
    var i :| 0 <= i < |edges| && Redrawn(f, edges[i]) == Some(e);
    from := edges[i];
    RedrawnIs(f, from);
  }

  /** An edge is dropped only when bypassing turned it into a self-loop. */
  lemma {:induction false} EdgeIsKept(f: Whitelist, edges: seq<Edge>, i: nat)
    requires BypassAll(f, edges).Some? && i < |edges|
    ensures Redrawn(f, edges[i]).Some?
    ensures Redrawn(f, edges[i]).value.s != Redrawn(f, edges[i]).value.t ==>
              Redrawn(f, edges[i]).value in BypassAll(f, edges).value
  {
    if i < |edges| - 1 {
      EdgeIsKept(f, edges[..|edges| - 1], i);
    }
  }

  /** The run reports a cycle exactly when some call's chain of forwarders never ends. */
  lemma {:induction false} CycleReportedIff(f: Whitelist, edges: seq<Edge>)
    requires forall i :: 0 <= i < |edges| ==> Audited(f, edges[i])
    ensures BypassAll(f, edges).None? <==> exists i :: 0 <= i < |edges| && edges[i].isCall && Endless(f, edges[i].t)
  {
    if edges != [] {
      var init, last := edges[..|edges| - 1], edges[|edges| - 1];
      CycleReportedIff(f, init);
      if last.isCall {
        FailureIsACycle(f, last);
      }
      assert forall i :: 0 <= i < |init| ==> init[i] == edges[i];
      if i :| 0 <= i < |edges| && edges[i].isCall && Endless(f, edges[i].t) {
        assert i < |init| ==> init[i].isCall && Endless(f, init[i].t);
      }
    }
  }

  function Others(edges: seq<Edge>): seq<Edge>
  {
    if edges == [] then []
    else Others(edges[..|edges| - 1]) + (if edges[|edges| - 1].isCall then [] else [edges[|edges| - 1]])
  }

  lemma OthersPush(edges: seq<Edge>, e: Edge)
    ensures Others(edges + [e]) == Others(edges) + (if e.isCall then [] else [e])
  {
    assert (edges + [e])[..|edges|] == edges;
  }

  /** Edges that are not calls come through unchanged, all of them, in order. */
  lemma {:induction false} OtherEdgesAreUntouched(f: Whitelist, edges: seq<Edge>)
    requires BypassAll(f, edges).Some? && forall i :: 0 <= i < |edges| ==> edges[i].s != edges[i].t
    ensures Others(BypassAll(f, edges).value) == Others(edges)
  {
    if edges != [] {
      var init := edges[..|edges| - 1];
      OtherEdgesAreUntouched(f, init);
      var last, before := edges[|edges| - 1], BypassAll(f, init).value;
      OthersPush(before, Redrawn(f, last).value);
      assert before + [] == before && Others(before) + [] == Others(before);
    }
  }

  /** Where no call targets a forwarder there is nothing to bypass. */
  lemma {:induction false} NothingToBypass(f: Whitelist, view: seq<Edge>)
    requires forall i :: 0 <= i < |view| ==> view[i].s != view[i].t && (view[i].isCall ==> view[i].t !in f)
    ensures BypassAll(f, view) == Some(view)
  {
    if view != [] {
      NothingToBypass(f, view[..|view| - 1]);
      assert view == view[..|view| - 1] + [view[|view| - 1]];
    }
  }

  /** Bypassing a bypassed view changes nothing. */
  lemma BypassIsIdempotent(f: Whitelist, edges: seq<Edge>)
    requires BypassAll(f, edges).Some?
    ensures BypassAll(f, BypassAll(f, edges).value) == BypassAll(f, edges)
  {
    var view := BypassAll(f, edges).value;
    forall i | 0 <= i < |view|
      ensures view[i].s != view[i].t && (view[i].isCall ==> view[i].t !in f)
    {
      ViewComesFromEdges(f, edges, view[i]);
      if view[i].isCall {
        var _ := CallsReachRealTargets(f, edges, view[i]);
      }
    }
    NothingToBypass(f, view);
  }
}
