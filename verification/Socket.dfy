/**
  Clients, daemons and one socket path. A client takes the spawn lock, checks
  again that nobody listens, clears a stale file, starts a daemon and waits for
  it to bind; a daemon binds, may retire by unlinking its file, and cleans up
  when it exits. Every system call on the path is an event of its own, so that
  other processes can act between a failed connect and the unlink that follows it,
  or between a daemon's last unlink and its end. `Bind` is the moment at which the
  socket is there and listening: the file cannot be seen in between.

  Assumed of the environment:
   - a connect succeeds exactly when the file at the path belongs to a process
     that is alive and listening;
   - only a client holding the lock starts daemons on this path, and nothing
     else touches the file (a file of another kind may lie there from the start);
   - a killed process is gone when `kill` returns;
   - between the spawn of a daemon and its bind or death, the client that holds
     the lock neither dies nor fails to poll the child (`Careful`;
     `CarelessHolderBreaksOwnership` shows that nothing less will do).
 */
module Socket {
  import opened Wrappers
  import opened Collections

  type ClientId = nat
  type DaemonId = nat

  datatype File = Absent | SocketOf(owner: DaemonId) | Foreign

  datatype Daemon =
    | Starting                  // spawned, not bound
    | Serving                   // bound, in its accept loop
    | Retired                   // unlinked its file, still serving its clients
    | Leaving(retiring: bool)   // out of the loop, listener still open
    | Exiting                   // its cleanup is done, listener still open
    | Dead
  {
    /** Bound and not retired: the path is meant to lead here. */
    predicate Owns() { Serving? || (Leaving? && !retiring) }

    predicate Listening() { Serving? || Retired? || Leaving? || Exiting? }
  }

  datatype Client =
    | Outside                   // has not asked, or is done
    | Wanting                   // the first connect failed
    | Locked                    // holds the lock
    | Refused                   // the re-check under the lock failed
    | Removing                  // found a socket at the path
    | Cleared                   // no file is in the way
    | Awaiting(child: DaemonId)
  {
    predicate HoldsLock() { !Outside? && !Wanting? }

    /** Between the failed re-check and the spawn. */
    predicate Clearing() { Refused? || Removing? || Cleared? }
  }

  datatype State = State(file: File, daemons: map<DaemonId, Daemon>, clients: map<ClientId, Client>,
                         lock: Option<ClientId>)
  {
    function ClientAt(c: ClientId): Client { if c in clients then clients[c] else Outside }

    function DaemonAt(d: DaemonId): Daemon { if d in daemons then daemons[d] else Dead }

    function WithClient(c: ClientId, phase: Client): State { this.(clients := clients[c := phase]) }

    function WithDaemon(d: DaemonId, phase: Daemon): State { this.(daemons := daemons[d := phase]) }

    /** The client is done, however it ended; its lock goes with it. */
    function Without(c: ClientId): State
    {
      WithClient(c, Outside).(lock := if lock == Some(c) then None else lock)
    }

    /** What a connect to the path answers. */
    predicate Answers() { file.SocketOf? && DaemonAt(file.owner).Listening() }
  }

  datatype Event =
    | ConnectFails(c: ClientId)
    | TakeLock(c: ClientId)
    | RecheckConnects(c: ClientId)
    | RecheckFails(c: ClientId)
    | Inspect(c: ClientId)
    | Unlink(c: ClientId)
    | Spawn(c: ClientId, d: DaemonId)
    | SpawnFails(c: ClientId)
    | ChildConnects(c: ClientId)
    | ChildDied(c: ClientId)
    | WaitTimesOut(c: ClientId)
    | PollFails(c: ClientId)
    | ClientDies(c: ClientId)
    | Bind(d: DaemonId)
    | Retire(d: DaemonId)
    | LeaveLoop(d: DaemonId)
    | CleanUp(d: DaemonId)
    | DaemonDies(d: DaemonId)

  predicate Enabled(s: State, e: Event)
  {
    match e
    case ConnectFails(c) => s.ClientAt(c).Outside? && !s.Answers()
    case TakeLock(c) => s.ClientAt(c).Wanting? && s.lock.None?
    case RecheckConnects(c) => s.ClientAt(c).Locked? && s.Answers()
    case RecheckFails(c) => s.ClientAt(c).Locked? && !s.Answers()
    case Inspect(c) => s.ClientAt(c).Refused?
    case Unlink(c) => s.ClientAt(c).Removing?
    case Spawn(c, d) => s.ClientAt(c).Cleared? && d !in s.daemons
    case SpawnFails(c) => s.ClientAt(c).Cleared?
    case ChildConnects(c) => s.ClientAt(c).Awaiting? && s.Answers()
    case ChildDied(c) => s.ClientAt(c).Awaiting? && s.DaemonAt(s.ClientAt(c).child).Dead?
    case WaitTimesOut(c) => s.ClientAt(c).Awaiting?
    case PollFails(c) => s.ClientAt(c).Awaiting?
    case ClientDies(c) => !s.ClientAt(c).Outside?
    case Bind(d) => s.DaemonAt(d).Starting?
    case Retire(d) => s.DaemonAt(d).Serving?
    case LeaveLoop(d) => s.DaemonAt(d).Serving? || s.DaemonAt(d).Retired?
    case CleanUp(d) => s.DaemonAt(d).Leaving?
    case DaemonDies(d) => !s.DaemonAt(d).Dead?
  }

  function Next(s: State, e: Event): State
    requires Enabled(s, e)
  {
    match e
    case ConnectFails(c) => s.WithClient(c, Wanting)
    case TakeLock(c) => s.WithClient(c, Locked).(lock := Some(c))
    case RecheckConnects(c) => s.Without(c)
    case RecheckFails(c) => s.WithClient(c, Refused)
    case Inspect(c) =>
      (match s.file
       case Absent => s.WithClient(c, Cleared)
       case SocketOf(_) => s.WithClient(c, Removing)
       case Foreign => s.Without(c))
    case Unlink(c) =>
      if s.file.Absent? then s.Without(c) else s.WithClient(c, Cleared).(file := Absent)
    case Spawn(c, d) => s.WithClient(c, Awaiting(d)).WithDaemon(d, Starting)
    case SpawnFails(c) => s.Without(c)
    case ChildConnects(c) => s.Without(c)
    case ChildDied(c) => s.Without(c)
    case WaitTimesOut(c) => s.WithDaemon(s.ClientAt(c).child, Dead).Without(c)
    case PollFails(c) => s.Without(c)
    case ClientDies(c) => s.Without(c)
    case Bind(d) =>
      if s.file.Absent? then s.WithDaemon(d, Serving).(file := SocketOf(d)) else s.WithDaemon(d, Dead)
    case Retire(d) => s.WithDaemon(d, Retired).(file := Absent)
    case LeaveLoop(d) => s.WithDaemon(d, Leaving(s.DaemonAt(d).Retired?))
    case CleanUp(d) =>
      if s.DaemonAt(d).retiring then s.WithDaemon(d, Exiting) else s.WithDaemon(d, Exiting).(file := Absent)
    case DaemonDies(d) => s.WithDaemon(d, Dead)
  }

  /** The lock holder outlives the start of its child. */
  predicate Careful(s: State, e: Event)
  {
    (e.ClientDies? || e.PollFails?) && s.ClientAt(e.c).Awaiting? ==>
      !s.DaemonAt(s.ClientAt(e.c).child).Starting?
  }

  /** The event removes the file at the path. */
  predicate RemovesFile(s: State, e: Event)
  {
    && s.file != Absent
    && (e.Unlink? || e.Retire? || (e.CleanUp? && s.DaemonAt(e.d).Leaving? && !s.DaemonAt(e.d).retiring))
  }

  /** Nobody is inside; the file is missing, a dead daemon's, or none of ours. */
  predicate Initial(s: State)
  {
    && s.clients == map[] && s.lock == None
    && (forall d :: d in s.daemons ==> s.daemons[d] == Dead)
    && (s.file.SocketOf? ==> s.file.owner in s.daemons)
  }

  // -------------------------------------------------------------- invariant

  ghost predicate LockHeld(s: State)
  {
    forall c: ClientId :: s.ClientAt(c).HoldsLock() <==> s.lock == Some(c)
  }

  /** A daemon that has not bound yet is being awaited. */
  ghost predicate StartsAwaited(s: State)
  {
    forall d :: s.DaemonAt(d).Starting? ==> s.lock.Some? && s.ClientAt(s.lock.value) == Awaiting(d)
  }

  /** The path leads to whoever owns it, and to nobody else alive. */
  ghost predicate PathOwned(s: State)
  {
    && (forall d :: s.DaemonAt(d).Owns() ==> s.file == SocketOf(d))
    && (s.file.SocketOf? ==> s.file.owner in s.daemons
                             && (s.DaemonAt(s.file.owner).Owns() || s.DaemonAt(s.file.owner).Dead?))
  }

  /** What the lock holder may rely on. */
  ghost predicate HolderKnows(s: State)
  {
    s.lock.Some? ==>
      var c := s.lock.value;
      && (s.ClientAt(c).Clearing() ==> forall d :: !s.DaemonAt(d).Owns())
      && (s.ClientAt(c).Cleared? ==> s.file == Absent)
      && (s.ClientAt(c).Removing? ==> s.file.SocketOf?)
      && (s.ClientAt(c).Awaiting? ==>
            && s.ClientAt(c).child in s.daemons
            && (forall d :: s.DaemonAt(d).Owns() ==> d == s.ClientAt(c).child)
            && (s.DaemonAt(s.ClientAt(c).child).Starting? ==> s.file == Absent))
  }

  ghost predicate Inv(s: State)
  {
    LockHeld(s) && StartsAwaited(s) && PathOwned(s) && HolderKnows(s)
  }

  /** Everything a client does on its own, short of spawning a daemon. */
  lemma ClientStepKeepsInv(s: State, e: Event)
    requires Inv(s) && Enabled(s, e) && Careful(s, e)
    requires !e.Bind? && !e.Retire? && !e.LeaveLoop? && !e.CleanUp? && !e.DaemonDies? && !e.Spawn?
    ensures Inv(Next(s, e))
  {
    var s' := Next(s, e);
    assert s.ClientAt(e.c).HoldsLock() ==> s.lock == Some(e.c);
    assert forall c: ClientId :: c != e.c ==> s'.ClientAt(c) == s.ClientAt(c);
    assert e.ChildConnects? ==> s.file.owner == s.ClientAt(e.c).child;
    forall d: DaemonId | s'.DaemonAt(d).Starting?
      ensures s'.lock.Some? && s'.ClientAt(s'.lock.value) == Awaiting(d)
    {
      assert s.DaemonAt(d).Starting?;
    }
  }

  lemma DaemonStepKeepsInv(s: State, e: Event)
    requires Inv(s) && Enabled(s, e)
    requires e.Bind? || e.Retire? || e.LeaveLoop? || e.CleanUp? || e.DaemonDies? || e.Spawn?
    ensures Inv(Next(s, e))
  {
    var s' := Next(s, e);
    assert forall d: DaemonId :: d != e.d ==> s'.DaemonAt(d) == s.DaemonAt(d);
    assert e.Spawn? ==> forall c: ClientId :: c != e.c ==> s'.ClientAt(c) == s.ClientAt(c);
  }

  lemma NextKeepsInv(s: State, e: Event)
    requires Inv(s) && Enabled(s, e) && Careful(s, e)
    ensures Inv(Next(s, e))
  {
    if e.Bind? || e.Retire? || e.LeaveLoop? || e.CleanUp? || e.DaemonDies? || e.Spawn? {
      DaemonStepKeepsInv(s, e);
    } else {
      ClientStepKeepsInv(s, e);
    }
  }

  // ------------------------------------------------------------ over a run

  datatype Run = Run(states: seq<State>, events: seq<Event>)
  {
    predicate Valid()
    {
      && |states| == |events| + 1 && Initial(states[0])
      && forall k :: 0 <= k < |events| ==>
           Enabled(states[k], events[k]) && states[k + 1] == Next(states[k], events[k])
    }

    predicate HoldersCareful()
      requires |states| == |events| + 1
    {
      forall k :: 0 <= k < |events| ==> Careful(states[k], events[k])
    }
  }

  lemma {:induction false} RunKeepsInv(run: Run, k: nat)
    requires run.Valid() && run.HoldersCareful() && k < |run.states|
    ensures Inv(run.states[k])
  {
    if k > 0 {
      RunKeepsInv(run, k - 1);
      NextKeepsInv(run.states[k - 1], run.events[k - 1]);
    }
  }

  /** At most one daemon owns the path at any time, and the path leads to it. */
  lemma OneOwner(run: Run, k: nat, d: DaemonId, other: DaemonId)
    requires run.Valid() && run.HoldersCareful() && k < |run.states|
    requires run.states[k].DaemonAt(d).Owns()
    ensures run.states[k].file == SocketOf(d) && run.states[k].Answers()
    ensures run.states[k].DaemonAt(other).Owns() ==> other == d
  {
    RunKeepsInv(run, k);
  }

  /** A client only ever removes the socket of a dead daemon, a daemon only its own. */
  lemma RemovalsAreOwnOrDead(run: Run, k: nat)
    requires run.Valid() && run.HoldersCareful() && k < |run.events|
    requires RemovesFile(run.states[k], run.events[k])
    ensures run.states[k].file.SocketOf?
    ensures run.events[k].Unlink? ==> run.states[k].DaemonAt(run.states[k].file.owner).Dead?
    ensures !run.events[k].Unlink? ==> run.states[k].file.owner == run.events[k].d
  {
    RunKeepsInv(run, k);
    assert Enabled(run.states[k], run.events[k]);
    assert run.events[k].Unlink? ==> run.states[k].ClientAt(run.events[k].c).HoldsLock();
  }

  predicate BeyondRetirement(s: State, d: DaemonId)
  {
    && d in s.daemons
    && (s.daemons[d].Retired? || s.daemons[d] == Leaving(true) || s.daemons[d].Exiting? || s.daemons[d].Dead?)
  }

  /** Once retired, a daemon never touches the path again, careful holders or not. */
  lemma {:induction false} RetiredLeavesThePathAlone(run: Run, j: nat, k: nat, d: DaemonId)
    requires run.Valid() && j <= k < |run.states|
    requires d in run.states[j].daemons && run.states[j].daemons[d].Retired?
    ensures BeyondRetirement(run.states[k], d)
    ensures k < |run.events| && (run.events[k].Retire? || run.events[k].CleanUp?) && run.events[k].d == d ==>
              !RemovesFile(run.states[k], run.events[k]) && run.states[k + 1].file == run.states[k].file
  {
    if j < k {
      RetiredLeavesThePathAlone(run, j, k - 1, d);
      assert run.states[k] == Next(run.states[k - 1], run.events[k - 1]);
      RetiredStep(run.states[k - 1], run.events[k - 1], d);
    }
    if k < |run.events| {
      assert Enabled(run.states[k], run.events[k]) && run.states[k + 1] == Next(run.states[k], run.events[k]);
      hide Next, Enabled;
      RetiredStep(run.states[k], run.events[k], d);
    }
  }

  lemma RetiredStep(s: State, e: Event, d: DaemonId)
    requires BeyondRetirement(s, d) && Enabled(s, e)
    ensures BeyondRetirement(Next(s, e), d)
    ensures (e.Retire? || e.CleanUp?) && e.d == d ==> !RemovesFile(s, e) && Next(s, e).file == s.file
  {}

  // ---------------------------------------------- why holders must be careful

  predicate Feasible(s: State, events: seq<Event>)
    decreases |events|
  {
    events == [] || (Enabled(s, events[0]) && Feasible(Next(s, events[0]), events[1..]))
  }

  function After(s: State, events: seq<Event>): State
    requires Feasible(s, events)
    decreases |events|
  {
    if events == [] then s else After(Next(s, events[0]), events[1..])
  }

  lemma Chain(s: State, e: Event, rest: seq<Event>)
    requires Enabled(s, e) && Feasible(Next(s, e), rest)
    ensures Feasible(s, [e] + rest) && After(s, [e] + rest) == After(Next(s, e), rest)
  {
    assert ([e] + rest)[1..] == rest;
  }

  /** A client `c` and a daemon `d`, both new, end up beside the orphan `orphan`. */
  function Takeover(c: ClientId, orphan: DaemonId, d: DaemonId): seq<Event>
  {
    [ConnectFails(c), TakeLock(c), RecheckFails(c), Bind(orphan), Inspect(c), Unlink(c), Spawn(c, d), Bind(d)]
  }

  /** The second half of the takeover: the holder unlinks the orphan's socket and starts its own daemon. */
  lemma UnlinkAndSpawn(s: State, c: ClientId, orphan: DaemonId, d: DaemonId)
    requires s.DaemonAt(orphan).Owns() && d !in s.daemons
    requires Enabled(s, Inspect(c)) && s.file.SocketOf?
    ensures var events := [Inspect(c), Unlink(c), Spawn(c, d), Bind(d)];
            && Feasible(s, events)
            && After(s, events).DaemonAt(orphan).Owns() && After(s, events).DaemonAt(d).Owns()
  {
    var s1 := Next(s, Inspect(c));
    var s2 := Next(s1, Unlink(c));
    var s3 := Next(s2, Spawn(c, d));
    var events := [Inspect(c), Unlink(c), Spawn(c, d), Bind(d)];
    Chain(s3, Bind(d), []);
    Chain(s2, Spawn(c, d), events[3..]);
    Chain(s1, Unlink(c), events[2..]);
    Chain(s, Inspect(c), events[1..]);
    assert events == [Inspect(c)] + events[1..];
  }

  lemma TakeoverWorks(s: State, c: ClientId, orphan: DaemonId, d: DaemonId)
    requires s.lock == None && s.file == Absent && s.DaemonAt(orphan).Starting?
    requires c !in s.clients && d !in s.daemons
    ensures Feasible(s, Takeover(c, orphan, d))
    ensures After(s, Takeover(c, orphan, d)).DaemonAt(orphan).Owns()
    ensures After(s, Takeover(c, orphan, d)).DaemonAt(d).Owns()
  {
    var events := Takeover(c, orphan, d);
    var s1 := Next(s, ConnectFails(c));
    var s2 := Next(s1, TakeLock(c));
    var s3 := Next(s2, RecheckFails(c));
    var s4 := Next(s3, Bind(orphan));
    UnlinkAndSpawn(s4, c, orphan, d);
    hide After, Feasible;
    assert events[4..] == [Inspect(c), Unlink(c), Spawn(c, d), Bind(d)];
    Chain(s3, Bind(orphan), events[4..]);
    Chain(s2, RecheckFails(c), events[3..]);
    Chain(s1, TakeLock(c), events[2..]);
    Chain(s, ConnectFails(c), events[1..]);
  }

  /**
    The assumption on holders is exactly what is needed: after any single
    careless step, other clients can lead the system to a state with two owners,
    by removing the socket of a live daemon.
   */
  lemma CarelessHolderBreaksOwnership(s: State, e: Event) returns (orphan: DaemonId, d: DaemonId, events: seq<Event>)
    requires Inv(s) && Enabled(s, e) && !Careful(s, e)
    ensures Feasible(Next(s, e), events) && orphan != d
    ensures After(Next(s, e), events).DaemonAt(orphan).Owns() && After(Next(s, e), events).DaemonAt(d).Owns()
  {
    var s0 := Next(s, e);
    orphan := s.ClientAt(e.c).child;
    var c := Above(s0.clients.Keys);
    d := Above(s0.daemons.Keys);
    events := Takeover(c, orphan, d);
    assert s.ClientAt(e.c).HoldsLock();
    TakeoverWorks(s0, c, orphan, d);
  }

  /** Client 0 has started daemon 0 on an empty path. */
  function FirstSpawned(): State { State(Absent, map[0 := Starting], map[0 := Awaiting(0)], Some(0)) }

  lemma ReachesFirstSpawned(rest: seq<Event>) returns (events: seq<Event>)
    requires Feasible(FirstSpawned(), rest)
    ensures var empty := State(Absent, map[], map[], None);
            Feasible(empty, events) && After(empty, events) == After(FirstSpawned(), rest)
  {
    var empty := State(Absent, map[], map[], None);
    var s1 := Next(empty, ConnectFails(0));
    var s2 := Next(s1, TakeLock(0));
    var s3 := Next(s2, RecheckFails(0));
    var s4 := Next(s3, Inspect(0));
    assert Next(s4, Spawn(0, 0)) == FirstSpawned();
    hide Feasible, After;
    Chain(s4, Spawn(0, 0), rest);
    events := [Spawn(0, 0)] + rest;
    Chain(s3, Inspect(0), events);
    events := [Inspect(0)] + events;
    Chain(s2, RecheckFails(0), events);
    events := [RecheckFails(0)] + events;
    Chain(s1, TakeLock(0), events);
    events := [TakeLock(0)] + events;
    Chain(empty, ConnectFails(0), events);
    events := [ConnectFails(0)] + events;
  }

  /** Careless steps do occur: two owners can be reached from an empty directory. */
  lemma TwoOwnersAreReachable() returns (orphan: DaemonId, d: DaemonId, events: seq<Event>)
    ensures var empty := State(Absent, map[], map[], None);
            && Initial(empty) && Feasible(empty, events) && orphan != d
            && After(empty, events).DaemonAt(orphan).Owns() && After(empty, events).DaemonAt(d).Owns()
  {
    var s, e := FirstSpawned(), ClientDies(0);
    assert Inv(s) && Enabled(s, e) && !Careful(s, e);
    hide Inv, Enabled, Next, Feasible, After;
    var rest;
    orphan, d, rest := CarelessHolderBreaksOwnership(s, e);
    Chain(s, e, rest);
    events := ReachesFirstSpawned([e] + rest);
  }
}
