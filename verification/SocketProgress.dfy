/** A client that wants a daemon can always get one, unless something else lies at the path. */
module SocketProgress {
  import opened Wrappers
  import opened Collections
  import opened Socket

  /** A step of the programs themselves: no crash, no failed spawn, no failed poll. */
  predicate Plain(e: Event) { !e.ClientDies? && !e.DaemonDies? && !e.SpawnFails? && !e.PollFails? }

  /** The client has a connection: enabled only while the path answers. */
  predicate Connects(e: Event, c: ClientId) { e == RecheckConnects(c) || e == ChildConnects(c) }

  /** The last of the events connects `c`, and all of them are plain. */
  ghost predicate LeadsToConnection(s: State, events: seq<Event>, c: ClientId)
  {
    && Feasible(s, events) && (forall k :: 0 <= k < |events| ==> Plain(events[k]))
    && events != [] && Connects(events[|events| - 1], c)
  }

  /** Nothing but daemons' sockets at the path. */
  ghost predicate Sound(s: State) { Inv(s) && !s.file.Foreign? }

  // ---------------------------------------------------------------- the holder

  /** Steps the lock holder is away from letting go. */
  function Weight(s: State, h: ClientId): nat
  {
    match s.ClientAt(h)
    case Outside => 0
    case Wanting => 0
    case Locked => 6
    case Refused => 5
    case Removing => 4
    case Cleared => 3
    case Awaiting(d) => if s.DaemonAt(d).Starting? then 2 else 1
  }

  /** If the holder awaits a child, the child is on its way or serving. */
  predicate Promising(s: State, h: ClientId)
  {
    s.ClientAt(h).Awaiting? ==> s.DaemonAt(s.ClientAt(h).child).Starting? || s.DaemonAt(s.ClientAt(h).child).Owns()
  }

  /** The next step of the lock holder, or of the child it awaits. */
  function HolderStep(s: State, h: ClientId, newborn: DaemonId): Event
  {
    match s.ClientAt(h)
    case Refused => Inspect(h)
    case Removing => Unlink(h)
    case Cleared => Spawn(h, newborn)
    case Awaiting(d) =>
      if s.DaemonAt(d).Starting? then Bind(d)
      else if s.Answers() then ChildConnects(h)
      else if s.DaemonAt(d).Dead? then ChildDied(h)
      else WaitTimesOut(h)
    case _ => if s.Answers() then RecheckConnects(h) else RecheckFails(h)
  }

  ghost predicate OthersStay(s: State, s': State, h: ClientId)
  {
    forall c: ClientId :: c != h ==> s'.ClientAt(c) == s.ClientAt(c)
  }

  /** The step is enabled, careful and plain, and brings the holder closer to letting go. */
  lemma HolderMoves(s: State, h: ClientId, newborn: DaemonId)
    requires Sound(s) && s.lock == Some(h) && newborn !in s.daemons
    ensures var e := HolderStep(s, h, newborn);
            && Enabled(s, e) && Careful(s, e) && Plain(e)
            && var s' := Next(s, e);
            && Sound(s') && OthersStay(s, s', h)
            && (s'.lock == None || (s'.lock == Some(h) && Weight(s', h) < Weight(s, h)))
            && (Promising(s, h) ==> if s'.lock == None then Connects(e, h) else Promising(s', h))
  {
    var e := HolderStep(s, h, newborn);
    assert s.ClientAt(h).HoldsLock();
    assert s.ClientAt(h).Awaiting? ==> s.ClientAt(h).child in s.daemons;
    NextKeepsInv(s, e);
  }

  /** The lock holder can finish; with a promising child it ends up connected. */
  lemma {:induction false} HolderFinishes(s: State, h: ClientId) returns (events: seq<Event>)
    requires Sound(s) && s.lock == Some(h)
    ensures Feasible(s, events) && forall k :: 0 <= k < |events| ==> Plain(events[k])
    ensures Sound(After(s, events)) && After(s, events).lock == None && OthersStay(s, After(s, events), h)
    ensures Promising(s, h) ==> events != [] && Connects(events[|events| - 1], h)
    decreases Weight(s, h)
  {
    var newborn := Above(s.daemons.Keys);
    var e := HolderStep(s, h, newborn);
    HolderMoves(s, h, newborn);
    var s', rest := Next(s, e), [];
    hide Inv, Enabled, Next, HolderStep, Weight, Promising;
    if s'.lock != None {
      rest := HolderFinishes(s', h);
    }
    Chain(s, e, rest);
    events := [e] + rest;
  }

  // ----------------------------------------------------------------- the client

  lemma {:induction false} FeasibleAppend(s: State, a: seq<Event>, b: seq<Event>)
    requires Feasible(s, a) && Feasible(After(s, a), b)
    ensures Feasible(s, a + b) && After(s, a + b) == After(After(s, a), b)
    decreases |a|
  {
    if a == [] {
      assert a + b == b;
    } else {
      FeasibleAppend(Next(s, a[0]), a[1..], b);
      assert a + b == [a[0]] + (a[1..] + b);
      Chain(s, a[0], a[1..] + b);
    }
  }

  /** With the lock free, a wanting client takes it and carries on until it is connected. */
  lemma TakesItsTurn(s: State, c: ClientId) returns (events: seq<Event>)
    requires Sound(s) && s.lock == None && s.ClientAt(c).Wanting?
    ensures LeadsToConnection(s, events, c)
  {
    NextKeepsInv(s, TakeLock(c));
    var s' := Next(s, TakeLock(c));
    var rest := HolderFinishes(s', c);
    Chain(s, TakeLock(c), rest);
    events := [TakeLock(c)] + rest;
  }

  lemma WantingCanConnect(s: State, c: ClientId) returns (events: seq<Event>)
    requires Sound(s) && s.ClientAt(c).Wanting?
    ensures LeadsToConnection(s, events, c)
  {
    if s.lock == None {
      events := TakesItsTurn(s, c);
    } else {
      var h := s.lock.value;
      assert s.ClientAt(h).HoldsLock();
      var first := HolderFinishes(s, h);
      var second := TakesItsTurn(After(s, first), c);
      FeasibleAppend(s, first, second);
      events := first + second;
    }
  }

  /** Something else at the path stays there, and nobody ever connects. */
  lemma ForeignStays(s: State, e: Event)
    requires Inv(s) && Enabled(s, e) && s.file.Foreign?
    ensures Next(s, e).file.Foreign? && forall c: ClientId :: !Connects(e, c)
  {
    assert forall d: DaemonId :: !s.DaemonAt(d).Owns();
    assert forall c: ClientId :: s.ClientAt(c).HoldsLock() ==> !s.ClientAt(c).Removing?;
  }

  ghost predicate AllCareful(s: State, events: seq<Event>)
    requires Feasible(s, events)
    decreases |events|
  {
    events == [] || (Careful(s, events[0]) && AllCareful(Next(s, events[0]), events[1..]))
  }

  lemma {:induction false} ForeignNeverConnects(s: State, events: seq<Event>, k: nat, c: ClientId)
    requires Inv(s) && s.file.Foreign? && Feasible(s, events) && AllCareful(s, events) && k < |events|
    ensures !Connects(events[k], c)
    decreases |events|
  {
    ForeignStays(s, events[0]);
    if k > 0 {
      NextKeepsInv(s, events[0]);
      ForeignNeverConnects(Next(s, events[0]), events[1..], k - 1, c);
    }
  }

  /**
    At every moment of every run with careful holders: a client whose first connect failed has a way to a
    connection by plain steps, whoever holds the lock, unless something other than a socket lies at the path.
    Then there is none, by any careful steps.
   */
  lemma ConnectionIsPossibleIff(run: Run, k: nat, c: ClientId)
    requires run.Valid() && run.HoldersCareful() && k < |run.states| && run.states[k].ClientAt(c).Wanting?
    ensures !run.states[k].file.Foreign? ==> exists events :: LeadsToConnection(run.states[k], events, c)
    ensures run.states[k].file.Foreign? ==>
              forall events, i | Feasible(run.states[k], events) && 0 <= i < |events| ::
                AllCareful(run.states[k], events) ==> !Connects(events[i], c)
  {
    var s := run.states[k];
    RunKeepsInv(run, k);
    if s.file.Foreign? {
      forall events, i | Feasible(s, events) && AllCareful(s, events) && 0 <= i < |events|
        ensures !Connects(events[i], c)
      {
        ForeignNeverConnects(s, events, i, c);
      }
    } else {
      var events := WantingCanConnect(s, c);
    }
  }
}
