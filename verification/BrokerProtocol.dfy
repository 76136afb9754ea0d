/**
  The broker under every interleaving. A state holds the slot table, the phase
  of every call inside the broker, and two histories that only proofs read.
  Each event is one critical section, one `create` result, or one wake-up; the
  notification that follows a critical section is an event of its own, so the
  window between unlocking and `notify_all` is part of the model.
 */
module BrokerProtocol {
  import opened Broker

  /** One call of `grant` or `ensure`, until the grant it made is gone. */
  type Call = nat

  /** `ensure` counts its grant like a run and takes the count back afterwards. */
  datatype Role = Run | Ensure | EnsureSettled

  datatype Phase =
    | Waiting(slot: nat, owner: Owner, asleep: bool)
    | Building(slot: nat, owner: Owner, role: Role)                   // guard armed
    | Made(slot: nat, owner: Owner, role: Role, session: Session)     // guard disarmed
    | Held(slot: nat, owner: Owner, role: Role, session: Session)
    | Notifying(slot: nat)                                            // unlocked, notify_all due
  {
    predicate Claiming() { Building? || Made? || Held? }

    predicate Claims(i: nat) { Claiming() && slot == i }

    predicate WaitsOn(i: nat, rank: nat) { Waiting? && slot == i && Rank(owner) == rank }

    predicate HasSession() { Made? || Held? }
  }

  /** What has left a slot for good, and the `grant` calls it has served. */
  datatype Tally = Tally(taken: nat, discarded: nat, served: nat)

  datatype State = State(slots: seq<Slot>, calls: map<Call, Phase>,
                         home: map<Session, nat>, tally: seq<Tally>)

  datatype Event =
    | EnterGrant(call: Call, key: Key, owner: Owner, now: Instant)
    | EnterEnsure(call: Call, key: Key, owner: Owner)
    | Recheck(call: Call, now: Instant)
    | SpuriousWake(call: Call)
    | CreateOk(call: Call, session: Session)
    | CreateFails(call: Call)
    | PublishGrant(call: Call, now: Instant)
    | Uncount(call: Call)
    | DropGrant(call: Call, panicking: bool, now: Instant)
    | NotifyAll(call: Call)
    | TakeIdle(now: Instant, maxIdle: nat)

  // ------------------------------------------------------------------ steps

  ghost predicate Shape(s: State)
  {
    && |s.tally| == |s.slots|
    && (forall i :: 0 <= i < |s.slots| ==> s.slots[i].WellFormed())
    && (forall c :: c in s.calls ==> s.calls[c].slot < |s.slots|)
    && DistinctKeys(s.slots)
  }

  ghost predicate Enabled(s: State, e: Event)
  {
    match e
    case EnterGrant(c, _, _, _) => c !in s.calls
    case EnterEnsure(c, _, _) => c !in s.calls
    case Recheck(c, _) => c in s.calls && s.calls[c].Waiting? && !s.calls[c].asleep
    case SpuriousWake(c) => c in s.calls && s.calls[c].Waiting? && s.calls[c].asleep
    case CreateOk(c, session) => c in s.calls && s.calls[c].Building? && session !in s.home
    case CreateFails(c) => c in s.calls && s.calls[c].Building?
    case PublishGrant(c, _) => c in s.calls && s.calls[c].Made?
    case Uncount(c) => c in s.calls && s.calls[c].Held? && s.calls[c].role == Ensure
    case DropGrant(c, panicking, _) =>
      && c in s.calls && s.calls[c].Held? && s.calls[c].role != Ensure
      && (panicking ==> s.calls[c].role == Run)
    case NotifyAll(c) => c in s.calls && s.calls[c].Notifying?
    case TakeIdle(_, _) => true
  }

  ghost function AddSlot(s: State, key: Key): State
    requires Shape(s)
  {
    if Find(s.slots, key) < |s.slots| then s
    else s.(slots := WithKey(s.slots, key), tally := s.tally + [Tally(0, 0, 0)])
  }

  ghost function RegisterCall(s: State, c: Call, i: nat, owner: Owner): State
    requires Shape(s) && i < |s.slots|
  {
    s.(slots := s.slots[i := Register(s.slots[i], owner)], calls := s.calls[c := Waiting(i, owner, false)])
  }

  /** One pass of the wait loop, ending in a grant, a creation or a sleep. */
  ghost function Pass(s: State, c: Call, now: Instant): State
    requires Shape(s) && c in s.calls && s.calls[c].Waiting?
  {
    var w := s.calls[c];
    var slot := s.slots[w.slot];
    var slots' := s.slots[w.slot := AfterAttempt(slot, w.owner, now)];
    match Decide(slot, w.owner)
    case Took(session) =>
      s.(slots := slots', calls := s.calls[c := Held(w.slot, w.owner, Run, session)],
         tally := s.tally[w.slot := s.tally[w.slot].(served := s.tally[w.slot].served + 1)])
    case MustCreate => s.(slots := slots', calls := s.calls[c := Building(w.slot, w.owner, Run)])
    case Blocked => s.(slots := slots', calls := s.calls[c := w.(asleep := true)])
  }

  function Woken(calls: map<Call, Phase>): (r: map<Call, Phase>)
    ensures r.Keys == calls.Keys
    ensures forall c :: c in calls ==>
              r[c] == if calls[c].Waiting? then calls[c].(asleep := false) else calls[c]
  {
    map c | c in calls :: if calls[c].Waiting? then calls[c].(asleep := false) else calls[c]
  }

  ghost function EnsureStep(s: State, c: Call, i: nat, owner: Owner): State
    requires Shape(s) && i < |s.slots|
  {
    if !s.slots[i].state.Empty? then s
    else s.(slots := s.slots[i := s.slots[i].(state := Creating(owner))],
            calls := s.calls[c := Building(i, owner, Ensure)])
  }

  ghost function Next(s: State, e: Event): State
    requires Shape(s) && Enabled(s, e)
  {
    match e
    case EnterGrant(c, key, owner, now) =>
      Pass(RegisterCall(AddSlot(s, key), c, Find(s.slots, key), owner), c, now)
    case EnterEnsure(c, key, owner) => EnsureStep(AddSlot(s, key), c, Find(s.slots, key), owner)
    case Recheck(c, now) => Pass(s, c, now)
    case SpuriousWake(c) => s.(calls := s.calls[c := s.calls[c].(asleep := false)])
    case CreateOk(c, session) =>
      var b := s.calls[c];
      s.(calls := s.calls[c := Made(b.slot, b.owner, b.role, session)], home := s.home[session := b.slot])
    case CreateFails(c) =>
      var i := s.calls[c].slot;
      s.(slots := s.slots[i := s.slots[i].(state := Empty)], calls := s.calls[c := Notifying(i)])
    case PublishGrant(c, now) =>
      var m := s.calls[c];
      var i := m.slot;
      s.(slots := s.slots[i := Publish(s.slots[i], m.owner, now)],
         calls := s.calls[c := Held(i, m.owner, m.role, m.session)],
         tally := if m.role == Run then s.tally[i := s.tally[i].(served := s.tally[i].served + 1)] else s.tally)
    case Uncount(c) =>
      var i := s.calls[c].slot;
      s.(slots := s.slots[i := s.slots[i].(grants := s.slots[i].grants - 1)],
         calls := s.calls[c := s.calls[c].(role := EnsureSettled)])
    case DropGrant(c, panicking, now) =>
      var h := s.calls[c];
      var i := h.slot;
      s.(slots := s.slots[i := Return(s.slots[i], h.session, panicking, now)],
         calls := s.calls[c := Notifying(i)],
         tally := if panicking then s.tally[i := s.tally[i].(discarded := s.tally[i].discarded + 1)] else s.tally)
    case NotifyAll(c) => s.(calls := Woken(s.calls - {c}))
    case TakeIdle(now, maxIdle) =>
      s.(slots := ReleaseAll(s.slots, now, maxIdle),
         tally := seq(|s.tally|, i requires 0 <= i < |s.tally| =>
           if s.slots[i].Stale(now, maxIdle) then s.tally[i].(taken := s.tally[i].taken + 1) else s.tally[i]))
  }

  ghost const INITIAL := State([], map[], map[], [])

  // ------------------------------------------------------------- invariants

  ghost predicate Fits(p: Phase, state: SlotState)
  {
    && (p.Building? || p.Made? ==> state == Creating(p.owner) && p.role != EnsureSettled)
    && (p.Held? ==> state.Granted? && state.to == p.owner)
  }

  /** A slot is in the state its claimant put it in. */
  ghost predicate ClaimsFit(s: State)
    requires Shape(s)
  {
    forall c :: c in s.calls && s.calls[c].Claiming() ==> Fits(s.calls[c], s.slots[s.calls[c].slot].state)
  }

  ghost predicate ClaimsUnique(s: State)
  {
    forall c, d :: c in s.calls && d in s.calls && s.calls[c].Claiming() && s.calls[d].Claiming() && c != d ==>
      s.calls[c].slot != s.calls[d].slot
  }

  ghost predicate Claimed(s: State, c: Call, i: nat) { c in s.calls && s.calls[c].Claims(i) }

  ghost predicate BusyIsClaimed(s: State)
  {
    forall i :: 0 <= i < |s.slots| && !s.slots[i].state.Free() ==> exists c :: Claimed(s, c, i)
  }

  /** Busy slots and claims correspond one to one, state for state. */
  ghost predicate OneClaimant(s: State)
    requires Shape(s)
  {
    ClaimsFit(s) && ClaimsUnique(s) && BusyIsClaimed(s)
  }

  /** Every session in the broker belongs to the slot it was made for. */
  ghost predicate SessionsAtHome(s: State)
    requires Shape(s)
  {
    && (forall i :: 0 <= i < |s.slots| && s.slots[i].state.Idle? ==>
          s.slots[i].state.session in s.home && s.home[s.slots[i].state.session] == i)
    && (forall c :: c in s.calls && s.calls[c].HasSession() ==>
          s.calls[c].session in s.home && s.home[s.calls[c].session] == s.calls[c].slot)
  }

  ghost function Waiters(calls: map<Call, Phase>, i: nat, rank: nat): set<Call>
  {
    set c | c in calls && calls[c].WaitsOn(i, rank)
  }

  /** `waiting[r]` is the number of calls of rank `r` registered on the slot. */
  ghost predicate Counted(s: State)
    requires Shape(s)
  {
    forall i, r {:trigger s.slots[i].waiting[r]} :: 0 <= i < |s.slots| && 0 <= r < PRIORITIES ==>
      s.slots[i].waiting[r] == |Waiters(s.calls, i, r)|
  }

  function Live(state: SlotState): nat { if state.Idle? || state.Granted? then 1 else 0 }

  ghost predicate UncountDue(s: State, i: nat)
  {
    exists c :: Claimed(s, c, i) && s.calls[c].Held? && s.calls[c].role == Ensure
  }

  /** The two counters of a slot, in terms of what has happened to it. */
  ghost predicate Balanced(s: State)
    requires Shape(s)
  {
    forall i :: 0 <= i < |s.slots| ==>
      && s.slots[i].created == Live(s.slots[i].state) + s.tally[i].taken + s.tally[i].discarded
      && s.slots[i].grants == s.tally[i].served + (if UncountDue(s, i) then 1 else 0)
  }

  /** A call has changed slot `i` and unlocked, and has not reached its `notify_all` yet. */
  ghost predicate NotifyDue(s: State, i: nat) { exists c :: c in s.calls && s.calls[c] == Notifying(i) }

  /** A sleeper has a reason: its slot is busy, it is outranked, or the slot's notification is on its way. */
  ghost predicate SleepersExcused(s: State)
    requires Shape(s)
  {
    forall c :: c in s.calls && s.calls[c].Waiting? && s.calls[c].asleep ==>
      var slot := s.slots[s.calls[c].slot];
      !slot.state.Free() || slot.Outranks(Rank(s.calls[c].owner)) || NotifyDue(s, s.calls[c].slot)
  }

  ghost predicate Inv(s: State)
  {
    Shape(s) && OneClaimant(s) && SessionsAtHome(s) && Counted(s) && Balanced(s) && SleepersExcused(s)
  }
}
