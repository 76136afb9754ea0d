/** Every waiter can be served: from any reachable state there is a way on that ends with its grant. */
module BrokerLiveness {
  import opened Collections
  import opened Broker
  import opened BrokerProtocol
  import opened BrokerSafety
  import opened BrokerTheorems

  ghost predicate Feasible(s: State, events: seq<Event>)
    decreases |events|
  {
    events == [] || (Shape(s) && Enabled(s, events[0]) && Feasible(Next(s, events[0]), events[1..]))
  }

  ghost function After(s: State, events: seq<Event>): State
    requires Feasible(s, events)
    decreases |events|
  {
    if events == [] then s else After(Next(s, events[0]), events[1..])
  }

  /** A step of a call that is already inside: no arrival, no spurious wake-up, no failure, no panic. */
  predicate Plain(e: Event)
  {
    || e.Recheck? || e.CreateOk? || e.PublishGrant? || e.Uncount? || e.NotifyAll?
    || (e.DropGrant? && !e.panicking)
  }

  ghost predicate Served(s: State, c: Call, i: nat)
  {
    Claimed(s, c, i) && s.calls[c].Held? && s.calls[c].role == Role.Run
  }

  /** A way on from `s` by plain steps, at the end of which `c` holds the session of slot `i`. */
  ghost predicate LeadsToService(s: State, events: seq<Event>, c: Call, i: nat)
  {
    Feasible(s, events) && (forall k :: 0 <= k < |events| ==> Plain(events[k])) && Served(After(s, events), c, i)
  }

  lemma ServesFirst(s: State, e: Event, rest: seq<Event>, c: Call, i: nat)
    requires Shape(s) && Enabled(s, e) && Plain(e) && LeadsToService(Next(s, e), rest, c, i)
    ensures LeadsToService(s, [e] + rest, c, i)
  {
    hide Shape, Enabled, Next;
    assert ([e] + rest)[1..] == rest;
  }

  // ------------------------------------------------------------------ progress

  ghost function WaitersOn(s: State, i: nat): set<Call>
  {
    set c | c in s.calls && s.calls[c].Waiting? && s.calls[c].slot == i
  }

  ghost function Notifiers(s: State, i: nat): set<Call> { set c | c in s.calls && s.calls[c] == Notifying(i) }

  /** Steps a claim is away from its end. */
  ghost function Weight(p: Phase): nat
  {
    if p.Building? then 4 else if p.Made? then 3 else if p.Held? then (if p.role == Ensure then 2 else 1) else 0
  }

  ghost function Load(s: State, i: nat): nat
  {
    if exists c :: Claimed(s, c, i) then
      var c :| Claimed(s, c, i);
      Weight(s.calls[c])
    else 0
  }

  lemma LoadIs(s: State, i: nat, c: Call)
    requires Inv(s) && Claimed(s, c, i)
    ensures Load(s, i) == Weight(s.calls[c])
  {
    assert forall d :: Claimed(s, d, i) ==> d == c;
  }

  lemma FreeHasNoLoad(s: State, i: nat)
    requires Inv(s) && i < |s.slots| && s.slots[i].state.Free()
    ensures Load(s, i) == 0
  {
    assert forall c :: Claimed(s, c, i) ==> Fits(s.calls[c], s.slots[i].state);
  }

  /** The step brings the slot closer to the waiters' turn. */
  ghost predicate Closer(s: State, s': State, i: nat)
  {
    || |WaitersOn(s', i)| < |WaitersOn(s, i)|
    || (WaitersOn(s', i) == WaitersOn(s, i) && Load(s', i) < Load(s, i))
    || (WaitersOn(s', i) == WaitersOn(s, i) && Load(s', i) == Load(s, i) && |Notifiers(s', i)| < |Notifiers(s, i)|)
  }

  lemma DeliverMovesNobody(s: State, n: Call, i: nat)
    requires Shape(s) && n in s.calls && s.calls[n] == Notifying(i)
    ensures var s' := Next(s, NotifyAll(n));
            && Notifiers(s', i) == Notifiers(s, i) - {n} && WaitersOn(s', i) == WaitersOn(s, i)
            && forall c :: (Claimed(s', c, i) <==> Claimed(s, c, i)) && (Claimed(s, c, i) ==> s'.calls[c] == s.calls[c])
  {
    hide Shape;
  }

  lemma SameClaimSameLoad(s: State, s': State, i: nat)
    requires Inv(s) && Inv(s')
    requires forall c :: (Claimed(s', c, i) <==> Claimed(s, c, i)) && (Claimed(s, c, i) ==> s'.calls[c] == s.calls[c])
    ensures Load(s', i) == Load(s, i)
  {
    hide Inv;
    if c :| Claimed(s, c, i) {
      LoadIs(s, i, c);
      LoadIs(s', i, c);
    }
  }

  /** A pending notification is delivered. */
  lemma Deliver(s: State, n: Call, i: nat)
    requires Inv(s) && n in s.calls && s.calls[n] == Notifying(i)
    ensures Enabled(s, NotifyAll(n)) && Closer(s, Next(s, NotifyAll(n)), i)
  {
    NextKeepsInv(s, NotifyAll(n));
    DeliverMovesNobody(s, n, i);
    assert n in Notifiers(s, i);
    hide Next, Claimed, Load, WaitersOn, Notifiers;
    SameClaimSameLoad(s, Next(s, NotifyAll(n)), i);
  }

  /** A best-ranked waiter takes a free slot. */
  lemma TakeTurn(s: State, best: Call, i: nat)
    requires Inv(s) && i < |s.slots| && s.slots[i].state.Free() && BestWaiter(s, best, i) && !NotifyDue(s, i)
    ensures var e := Recheck(best, 0);
            && Enabled(s, e) && Closer(s, Next(s, e), i) && Claimed(Next(s, e), best, i)
            && (Next(s, e).calls[best].Building? || Next(s, e).calls[best].Held?)
            && Next(s, e).calls[best].role == Role.Run
            && (forall c :: c != best && c in s.calls ==> c in Next(s, e).calls && Next(s, e).calls[c] == s.calls[c])
  {
    BestIsNotOutranked(s, best, i);
    var s' := Next(s, Recheck(best, 0));
    assert WaitersOn(s', i) == WaitersOn(s, i) - {best};
  }

  /** The claimant of a busy slot takes its next step. */
  lemma MoveClaim(s: State, d: Call, i: nat) returns (e: Event)
    requires Inv(s) && Claimed(s, d, i)
    ensures Plain(e) && Enabled(s, e) && Closer(s, Next(s, e), i)
    ensures forall c :: c != d && c in s.calls ==> c in Next(s, e).calls && Next(s, e).calls[c] == s.calls[c]
  {
    var session := Above(s.home.Keys);
    e := if s.calls[d].Building? then CreateOk(d, session)
         else if s.calls[d].Made? then PublishGrant(d, 0)
         else if s.calls[d].role == Ensure then Uncount(d)
         else DropGrant(d, false, 0);
    NextKeepsInv(s, e);
    OwnStepMoves(s, e, i);
    LoadIs(s, i, d);
    var s' := Next(s, e);
    hide Inv, Enabled, Next, WaitersOn, Load;
    if Claimed(s', d, i) {
      LoadIs(s', i, d);
    } else {
      FreeHasNoLoad(s', i);
    }
  }

  /** A claimant's own step brings its claim closer to its end and leaves every other call alone. */
  lemma OwnStepMoves(s: State, e: Event, i: nat)
    requires e.CreateOk? || e.PublishGrant? || e.Uncount? || (e.DropGrant? && !e.panicking)
    requires Shape(s) && Enabled(s, e) && Claimed(s, e.call, i)
    ensures var s' := Next(s, e);
            && WaitersOn(s', i) == WaitersOn(s, i)
            && (forall c :: c != e.call && c in s.calls ==> c in s'.calls && s'.calls[c] == s.calls[c])
            && Weight(s.calls[e.call]) > 0
            && (if Claimed(s', e.call, i) then Weight(s'.calls[e.call]) < Weight(s.calls[e.call])
                else i < |s'.slots| && s'.slots[i].state.Free())
  {}

  /** While a call waits, some plain step brings its slot closer to its turn. */
  lemma Advance(s: State, c: Call, i: nat) returns (e: Event)
    requires Inv(s) && c in s.calls && s.calls[c].Waiting? && s.calls[c].slot == i
    ensures Plain(e) && Enabled(s, e) && Closer(s, Next(s, e), i) && c in Next(s, e).calls
    ensures if Next(s, e).calls[c].Waiting? then Next(s, e).calls[c].slot == i
            else
              && Claimed(Next(s, e), c, i) && Next(s, e).calls[c].role == Role.Run
              && (Next(s, e).calls[c].Building? || Next(s, e).calls[c].Held?)
  {
    if NotifyDue(s, i) {
      var n :| n in s.calls && s.calls[n] == Notifying(i);
      Deliver(s, n, i);
      e := NotifyAll(n);
    } else if s.slots[i].state.Free() {
      var best := SomeoneIsBest(s, c, i);
      TakeTurn(s, best, i);
      e := Recheck(best, 0);
    } else {
      var d :| Claimed(s, d, i);
      e := MoveClaim(s, d, i);
    }
  }

  /** A creation that a `grant` has begun can succeed. */
  lemma FinishCreation(s: State, c: Call, i: nat) returns (events: seq<Event>)
    requires Inv(s) && Claimed(s, c, i) && s.calls[c].Building? && s.calls[c].role == Role.Run
    ensures LeadsToService(s, events, c, i)
  {
    var session := Above(s.home.Keys);
    var e := CreateOk(c, session);
    NextKeepsInv(s, e);
    var s1 := Next(s, e);
    NextKeepsInv(s1, PublishGrant(c, 0));
    assert LeadsToService(Next(s1, PublishGrant(c, 0)), [], c, i);
    ServesFirst(s1, PublishGrant(c, 0), [], c, i);
    ServesFirst(s, e, [PublishGrant(c, 0)] + [], c, i);
    events := [e] + ([PublishGrant(c, 0)] + []);
  }

  lemma {:induction false} CanBeServed(s: State, c: Call, i: nat) returns (events: seq<Event>)
    requires Inv(s) && c in s.calls && s.calls[c].Waiting? && s.calls[c].slot == i
    ensures LeadsToService(s, events, c, i)
    decreases |WaitersOn(s, i)|, Load(s, i), |Notifiers(s, i)|
  {
    var e := Advance(s, c, i);
    var s' := Next(s, e);
    NextKeepsInv(s, e);
    hide Inv, Enabled, Next, Feasible, After;
    var rest: seq<Event> := [];
    if s'.calls[c].Waiting? {
      rest := CanBeServed(s', c, i);
    } else if s'.calls[c].Building? {
      rest := FinishCreation(s', c, i);
    } else {
      NothingLeft(s', c, i);
    }
    ServesFirst(s, e, rest, c, i);
    events := [e] + rest;
  }

  lemma NothingLeft(s: State, c: Call, i: nat)
    requires Served(s, c, i)
    ensures LeadsToService(s, [], c, i)
  {}

  /**
    No deadlock: at every moment of every run, whatever waits ahead of it, each waiting call has a
    way to its session that needs no new caller, no spurious wake-up, no failure and no panic. It
    need not come to that: a stream of new callers can keep passing it.
   */
  lemma EveryWaiterCanBeServed(run: Run, k: nat, c: Call) returns (events: seq<Event>)
    requires run.Valid() && k < |run.states|
    requires c in run.states[k].calls && run.states[k].calls[c].Waiting?
    ensures LeadsToService(run.states[k], events, c, run.states[k].calls[c].slot)
  {
    RunKeepsInv(run, k);
    events := CanBeServed(run.states[k], c, run.states[k].calls[c].slot);
  }
}
