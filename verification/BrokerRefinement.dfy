/**
  The broker's code takes the protocol's steps: each critical section, executed on the shared table,
  leaves the table and the calling thread where `BrokerProtocol.Next` says.
 */
module BrokerRefinement {
  import opened Wrappers
  import opened Broker
  import opened BrokerProtocol
  import opened BrokerTheorems

  /** Where the call that makes the step stands; nothing if it is gone, or if no call makes it. */
  ghost function PhaseOf(s: State, e: Event): Option<Phase>
  {
    if !e.TakeIdle? && e.call in s.calls then Some(s.calls[e.call]) else None
  }

  /** What a caller does with the outcome of a pass of the wait loop. */
  function AfterPass(outcome: Attempt, index: nat, owner: Owner): Phase
  {
    match outcome
    case Took(session) => Held(index, owner, Role.Run, session)
    case MustCreate => Building(index, owner, Role.Run)
    case Blocked => Waiting(index, owner, true)
  }

  lemma AddSlotIs(s: State, key: Key)
    requires Shape(s)
    ensures AddSlot(s, key).slots == WithKey(s.slots, key) && AddSlot(s, key).calls == s.calls
    ensures Shape(AddSlot(s, key))
  {}

  /** Entering `grant`, on the slots alone. */
  lemma EnterGrantIsStep(s: State, e: Event)
    requires Shape(s) && Enabled(s, e) && e.EnterGrant?
    ensures var slots, i := WithKey(s.slots, e.key), Find(s.slots, e.key);
            && slots[i].WellFormed()
            && var registered := Register(slots[i], e.owner);
            && Next(s, e).slots == slots[i := AfterAttempt(registered, e.owner, e.now)]
            && PhaseOf(Next(s, e), e) == Some(AfterPass(Decide(registered, e.owner), i, e.owner))
  {
    AddSlotIs(s, e.key);
    hide AddSlot, WithKey, Decide, AfterAttempt;
  }

  /** Entering `ensure`, on the slots alone. */
  lemma EnterEnsureIsStep(s: State, e: Event)
    requires Shape(s) && Enabled(s, e) && e.EnterEnsure?
    ensures var slots, i := WithKey(s.slots, e.key), Find(s.slots, e.key);
            var claims := slots[i].state.Empty?;
            && Next(s, e).slots == slots[i := if claims then slots[i].(state := Creating(e.owner)) else slots[i]]
            && PhaseOf(Next(s, e), e) == if claims then Some(Building(i, e.owner, Ensure)) else None
  {
    AddSlotIs(s, e.key);
    hide AddSlot, WithKey;
    var slots, i := WithKey(s.slots, e.key), Find(s.slots, e.key);
    assert slots[i := slots[i]] == slots;
  }

  /** Entering `grant` or `ensure`. */
  method PerformEnter(table: SlotTable, ghost s: State, e: Event) returns (phase: Option<Phase>)
    requires table.slots == s.slots && Shape(s) && Enabled(s, e) && (e.EnterGrant? || e.EnterEnsure?)
    modifies table
    ensures table.slots == Next(s, e).slots && phase == PhaseOf(Next(s, e), e)
  {
    hide Next, Decide, AfterAttempt;
    if e.EnterGrant? {
      EnterGrantIsStep(s, e);
      var index, outcome := table.Enter(e.key, e.owner, e.now);
      phase := Some(AfterPass(outcome, index, e.owner));
    } else {
      EnterEnsureIsStep(s, e);
      var index, mustCreate := table.EnterEnsure(e.key, e.owner);
      phase := if mustCreate then Some(Building(index, e.owner, Ensure)) else None;
    }
  }

  /** Everything after entering. `at` is the phase the calling thread is in. */
  method PerformInside(table: SlotTable, ghost s: State, e: Event, at: Phase) returns (phase: Option<Phase>)
    requires table.slots == s.slots && Shape(s) && Enabled(s, e)
    requires !e.EnterGrant? && !e.EnterEnsure? && !e.TakeIdle? && at == s.calls[e.call]
    modifies table
    ensures table.slots == Next(s, e).slots && phase == PhaseOf(Next(s, e), e)
  {
    match e {
      case Recheck(_, now) =>
        var outcome := table.TryTake(at.slot, at.owner, now);
        phase := Some(AfterPass(outcome, at.slot, at.owner));
      case SpuriousWake(_) => phase := Some(at.(asleep := false));
      case CreateOk(_, session) => phase := Some(Made(at.slot, at.owner, at.role, session));
      case CreateFails(_) =>
        table.AbandonCreation(at.slot);
        phase := Some(Notifying(at.slot));
      case PublishGrant(_, now) =>
        table.PublishCreated(at.slot, at.owner, now);
        phase := Some(Held(at.slot, at.owner, at.role, at.session));
      case Uncount(_) =>
        table.TakeBackGrant(at.slot);
        phase := Some(Held(at.slot, at.owner, EnsureSettled, at.session));
      case DropGrant(_, panicking, now) =>
        var _ := table.DropGrant(at.slot, at.session, panicking, now);
        phase := Some(Notifying(at.slot));
      case NotifyAll(_) => phase := None;
    }
  }

  /** The phases of all calls, once the one that makes the step has reached `phase`. */
  function Moved(calls: map<Call, Phase>, e: Event, phase: Option<Phase>): map<Call, Phase>
  {
    if e.NotifyAll? then Woken(calls - {e.call})
    else if e.TakeIdle? || phase.None? then calls
    else calls[e.call := phase.value]
  }

  /** No step moves any other call, except that `notify_all` wakes the sleepers. */
  lemma OnlyTheCallMoves(s: State, e: Event)
    requires Shape(s) && Enabled(s, e)
    ensures Next(s, e).calls == Moved(s.calls, e, PhaseOf(Next(s, e), e))
  {
    if e.EnterGrant? || e.EnterEnsure? {
      AddSlotIs(s, e.key);
      hide AddSlot, WithKey, Decide, AfterAttempt;
    } else if e.Recheck? {
      hide Decide, AfterAttempt;
    }
  }

  /** Any event at all, on the table and the phases of the calling threads. */
  method Perform(table: SlotTable, calls: map<Call, Phase>, ghost s: State, e: Event)
    returns (calls': map<Call, Phase>, taken: seq<(Key, Session)>)
    requires table.slots == s.slots && calls == s.calls && Shape(s) && Enabled(s, e)
    modifies table
    ensures table.slots == Next(s, e).slots && calls' == Next(s, e).calls
    ensures taken == if e.TakeIdle? then StaleSessions(s.slots, e.now, e.maxIdle) else []
  {
    OnlyTheCallMoves(s, e);
    taken := [];
    var phase: Option<Phase> := None;
    if e.TakeIdle? {
      ghost var from;
      taken, from := table.TakeIdle(e.now, e.maxIdle);
    } else if e.EnterGrant? || e.EnterEnsure? {
      phase := PerformEnter(table, s, e);
    } else {
      phase := PerformInside(table, s, e, calls[e.call]);
    }
    calls' := Moved(calls, e, phase);
  }

  /**
    The code follows every run: performed on an empty table, its sections lead the table and the phases
    of all threads through the run's states, given nothing but the events.
   */
  method Replay(events: seq<Event>, ghost run: BrokerTheorems.Run)
    returns (table: SlotTable, calls: map<Call, Phase>)
    requires run.Valid() && run.events == events
    ensures table.slots == run.states[|events|].slots && calls == run.states[|events|].calls && table.Valid()
  {
    table := new SlotTable();
    calls := map[];
    for k := 0 to |events|
      invariant table.slots == run.states[k].slots && calls == run.states[k].calls
    {
      StepAt(run, k);
      assert Shape(run.states[k]);
      hide Inv, Next, Enabled, Shape, StepOf;
      var taken;
      calls, taken := Perform(table, calls, run.states[k], events[k]);
    }
    RunKeepsInv(run, |events|);
  }
}
