/**
  The GPU session broker: the slots it keeps under its mutex, and the critical
  sections that update them. `BrokerProtocol` puts these sections under every
  interleaving of callers.
 */
module Broker {
  import opened Wrappers
  import opened Collections

  type Key = nat
  type Session = nat
  type Instant = nat

  /** Who asks for a session, and the priority the broker gives it. */
  datatype Owner = Index | Search | GraphCache | CodemapRerank | ProviderCensus | Tool

  const PRIORITIES := 3

  /** Lower goes first. */
  function Rank(owner: Owner): (r: nat)
    ensures r < PRIORITIES
  {
    match owner
    case Search | CodemapRerank => 0
    case Index | Tool => 1
    case GraphCache | ProviderCensus => 2
  }

  datatype SlotState =
    | Empty
    | Creating(forOwner: Owner)
    | Idle(session: Session, idleSince: Instant)
    | Granted(to: Owner, grantedSince: Instant)
  {
    predicate Free() { Empty? || Idle? }
  }

  /** The counters are `int`, so that "never below zero" is something to prove. */
  datatype Slot = Slot(key: Key, state: SlotState, waiting: seq<int>, created: int, grants: int)
  {
    ghost predicate WellFormed() { |waiting| == PRIORITIES }

    /** Some strictly better rank is registered on this slot. */
    predicate Outranks(rank: nat)
      requires |waiting| == PRIORITIES && rank <= PRIORITIES
    {
      exists r :: 0 <= r < rank && waiting[r] > 0
    }

    /** Time spent idle, zero if the clock has not moved (or `now` lies before). */
    function IdleFor(now: Instant): nat
      requires state.Idle?
    {
      if now >= state.idleSince then now - state.idleSince else 0
    }

    predicate Stale(now: Instant, maxIdle: nat) { state.Idle? && IdleFor(now) >= maxIdle }
  }

  function FreshSlot(key: Key): Slot { Slot(key, Empty, [0, 0, 0], 0, 0) }

  /** Position of the slot of `key`, or the number of slots. */
  function Find(slots: seq<Slot>, key: Key): (i: nat)
    ensures i <= |slots|
    ensures i < |slots| ==> slots[i].key == key
    ensures forall j :: 0 <= j < i ==> slots[j].key != key
  {
    if slots == [] then 0
    else if slots[0].key == key then 0
    else 1 + Find(slots[1..], key)
  }

  /** The slots once `key` has one. */
  function WithKey(slots: seq<Slot>, key: Key): (r: seq<Slot>)
    ensures slots <= r && Find(slots, key) < |r| && r[Find(slots, key)].key == key
  {
    if Find(slots, key) < |slots| then slots else slots + [FreshSlot(key)]
  }

  /** What one pass of the wait loop in `grant` came to. */
  datatype Attempt = Took(session: Session) | MustCreate | Blocked

  function Decide(slot: Slot, owner: Owner): Attempt
    requires slot.WellFormed()
  {
    if slot.Outranks(Rank(owner)) then Blocked
    else match slot.state
      case Idle(session, _) => Took(session)
      case Empty => MustCreate
      case _ => Blocked
  }

  function Register(slot: Slot, owner: Owner): (r: Slot)
    requires slot.WellFormed()
    ensures r.WellFormed()
  {
    slot.(waiting := slot.waiting[Rank(owner) := slot.waiting[Rank(owner)] + 1])
  }

  function Unregister(slot: Slot, owner: Owner): (r: Slot)
    requires slot.WellFormed()
    ensures r.WellFormed()
  {
    slot.(waiting := slot.waiting[Rank(owner) := slot.waiting[Rank(owner)] - 1])
  }

  /** The slot after one pass of the wait loop. */
  function AfterAttempt(slot: Slot, owner: Owner, now: Instant): (r: Slot)
    requires slot.WellFormed()
    ensures r.WellFormed()
  {
    match Decide(slot, owner)
    case Took(_) => Unregister(slot, owner).(grants := slot.grants + 1, state := Granted(owner, now))
    case MustCreate => Unregister(slot, owner).(state := Creating(owner))
    case Blocked => slot
  }

  function Publish(slot: Slot, owner: Owner, now: Instant): Slot
  {
    slot.(created := slot.created + 1, grants := slot.grants + 1, state := Granted(owner, now))
  }

  /** A dropped grant: the session goes back, unless its run panicked. */
  function Return(slot: Slot, session: Session, panicking: bool, now: Instant): Slot
  {
    slot.(state := if panicking then Empty else Idle(session, now))
  }

  function Released(slot: Slot, now: Instant, maxIdle: nat): Slot
  {
    if slot.Stale(now, maxIdle) then slot.(state := Empty) else slot
  }

  function ReleaseAll(slots: seq<Slot>, now: Instant, maxIdle: nat): (r: seq<Slot>)
    ensures |r| == |slots|
    ensures forall i :: 0 <= i < |slots| ==> r[i] == Released(slots[i], now, maxIdle)
  {
    seq(|slots|, i requires 0 <= i < |slots| => Released(slots[i], now, maxIdle))
  }

  /** The sessions idle for at least `maxIdle`, in slot order. */
  function StaleSessions(slots: seq<Slot>, now: Instant, maxIdle: nat): seq<(Key, Session)>
  {
    if slots == [] then []
    else
      var last := slots[|slots| - 1];
      StaleSessions(slots[..|slots| - 1], now, maxIdle) +
      (if last.Stale(now, maxIdle) then [(last.key, last.state.session)] else [])
  }

  /** Whose session is handed out: that of a slot idle for long enough. */
  lemma {:induction false} StaleSessionsAre(slots: seq<Slot>, now: Instant, maxIdle: nat, key: Key, session: Session)
    ensures (key, session) in StaleSessions(slots, now, maxIdle) <==>
            exists i :: 0 <= i < |slots| && slots[i].key == key && slots[i].Stale(now, maxIdle)
                        && slots[i].state.session == session
  {
    if slots != [] {
      var init := slots[..|slots| - 1];
      StaleSessionsAre(init, now, maxIdle, key, session);
      assert forall i :: 0 <= i < |init| ==> init[i] == slots[i];
      if i :| 0 <= i < |slots| && slots[i].key == key && slots[i].Stale(now, maxIdle)
              && slots[i].state.session == session {
        assert i < |init| ==> init[i].Stale(now, maxIdle);
      }
    }
  }

  /** `from` are the positions of the stale slots, ascending, and `taken` is what lies there. */
  ghost predicate TakenFrom(slots: seq<Slot>, now: Instant, maxIdle: nat, taken: seq<(Key, Session)>, from: seq<nat>)
  {
    && taken == StaleSessions(slots, now, maxIdle)
    && Increasing(from) && |taken| == |from|
    && (forall i :: 0 <= i < |slots| ==> (i in from <==> slots[i].Stale(now, maxIdle)))
    && (forall k :: 0 <= k < |from| ==>
          from[k] < |slots| && slots[from[k]].state.Idle?
          && taken[k] == (slots[from[k]].key, slots[from[k]].state.session))
  }

  lemma TakeNext(slots: seq<Slot>, n: nat, now: Instant, maxIdle: nat, taken: seq<(Key, Session)>, from: seq<nat>)
    requires n < |slots| && TakenFrom(slots[..n], now, maxIdle, taken, from)
    ensures if slots[n].Stale(now, maxIdle)
            then TakenFrom(slots[..n + 1], now, maxIdle, taken + [(slots[n].key, slots[n].state.session)], from + [n])
            else TakenFrom(slots[..n + 1], now, maxIdle, taken, from)
  {
    assert slots[..n + 1][..n] == slots[..n];
  }

  /** What that comes to, in terms of the clock. */
  lemma TakenAre(slots: seq<Slot>, now: Instant, maxIdle: nat, taken: seq<(Key, Session)>, from: seq<nat>)
    requires TakenFrom(slots, now, maxIdle, taken, from)
    ensures taken == StaleSessions(slots, now, maxIdle) && Increasing(from) && |taken| == |from|
    ensures forall i :: 0 <= i < |slots| ==>
              && (i in from <==> slots[i].state.Idle? && (maxIdle == 0 || slots[i].state.idleSince + maxIdle <= now))
              && Released(slots[i], now, maxIdle) == if i in from then slots[i].(state := Empty) else slots[i]
    ensures forall k :: 0 <= k < |from| ==>
              from[k] < |slots| && slots[from[k]].state.Idle?
              && taken[k] == (slots[from[k]].key, slots[from[k]].state.session)
  {
    hide StaleSessions;
  }

  ghost predicate DistinctKeys(slots: seq<Slot>)
  {
    forall i, j :: 0 <= i < j < |slots| ==> slots[i].key != slots[j].key
  }

  /**
    The shared vector. Each method is one critical section: the mutex is held
    from its first statement to its last.
   */
  class SlotTable {
    var slots: seq<Slot>

    ghost predicate Valid()
      reads this
    {
      DistinctKeys(slots) && forall i :: 0 <= i < |slots| ==> slots[i].WellFormed()
    }

    constructor ()
      ensures Valid() && slots == []
    {
      slots := [];
    }

    /** `slot_index`: find the slot of `key`, appending one if there is none. */
    method SlotIndex(key: Key) returns (index: nat)
      requires Valid()
      modifies this
      ensures Valid()
      ensures slots == WithKey(old(slots), key)
      ensures index == Find(old(slots), key) < |slots|
    {
      index := 0;
      while index < |slots| && slots[index].key != key
        invariant 0 <= index <= |slots|
        invariant forall j :: 0 <= j < index ==> slots[j].key != key
        invariant slots == old(slots)
      {
        index := index + 1;
      }
      if index == |slots| {
        slots := slots + [FreshSlot(key)];
      }
    }

    /** `grant` up to the first wait or the first return. */
    method Enter(key: Key, owner: Owner, now: Instant) returns (index: nat, outcome: Attempt)
      requires Valid()
      modifies this
      ensures Valid()
      ensures index == Find(old(slots), key) < |slots|
      ensures var registered := Register(WithKey(old(slots), key)[index], owner);
              && registered.WellFormed()
              && outcome == Decide(registered, owner)
              && slots == WithKey(old(slots), key)[index := AfterAttempt(registered, owner, now)]
    {
      index := SlotIndex(key);
      slots := slots[index := Register(slots[index], owner)];
      outcome := TryTake(index, owner, now);
    }

    /** One pass of the wait loop, for a caller registered on the slot. */
    method TryTake(index: nat, owner: Owner, now: Instant) returns (outcome: Attempt)
      requires Valid() && index < |slots|
      modifies this
      ensures Valid()
      ensures outcome == Decide(old(slots[index]), owner)
      ensures slots == old(slots)[index := AfterAttempt(old(slots[index]), owner, now)]
    {
      var rank := Rank(owner);
      var slot := slots[index];
      var outranked := false;
      var r := 0;
      while r < rank
        invariant 0 <= r <= rank
        invariant outranked <==> slot.Outranks(r)
      {
        outranked := outranked || slot.waiting[r] > 0;
        r := r + 1;
      }
      outcome := Blocked;
      if !outranked {
        match slot.state {
          case Idle(session, _) =>
            slot := Unregister(slot, owner);
            slot := slot.(grants := slot.grants + 1);
            slot := slot.(state := Granted(owner, now));
            outcome := Took(session);
          case Empty =>
            slot := Unregister(slot, owner);
            slot := slot.(state := Creating(owner));
            outcome := MustCreate;
          case Creating(_) =>
          case Granted(_, _) =>
        }
      }
      slots := slots[index := slot];
    }

    /** `ensure` before any building: claims the slot only if it is empty. */
    method EnterEnsure(key: Key, owner: Owner) returns (index: nat, mustCreate: bool)
      requires Valid()
      modifies this
      ensures Valid()
      ensures index == Find(old(slots), key) < |slots|
      ensures var slot := WithKey(old(slots), key)[index];
              && mustCreate == slot.state.Empty?
              && slots == WithKey(old(slots), key)[index :=
                            if mustCreate then slot.(state := Creating(owner)) else slot]
    {
      index := SlotIndex(key);
      mustCreate := slots[index].state.Empty?;
      if mustCreate {
        slots := slots[index := slots[index].(state := Creating(owner))];
      }
    }

    /** The drop of an armed creation guard: the creation failed or unwound. */
    method AbandonCreation(index: nat)
      requires Valid() && index < |slots|
      modifies this
      ensures Valid() && slots == old(slots)[index := old(slots[index]).(state := Empty)]
    {
      slots := slots[index := slots[index].(state := Empty)];
    }

    /** The end of `ensure`: its creation counts, its grant does not. */
    method TakeBackGrant(index: nat)
      requires Valid() && index < |slots|
      modifies this
      ensures Valid() && slots == old(slots)[index := old(slots[index]).(grants := old(slots[index]).grants - 1)]
    {
      slots := slots[index := slots[index].(grants := slots[index].grants - 1)];
    }

    /** The end of `create_as_grant`. */
    method PublishCreated(index: nat, owner: Owner, now: Instant)
      requires Valid() && index < |slots|
      modifies this
      ensures Valid() && slots == old(slots)[index := Publish(old(slots[index]), owner, now)]
    {
      var slot := slots[index];
      slot := slot.(created := slot.created + 1);
      slot := slot.(grants := slot.grants + 1);
      slot := slot.(state := Granted(owner, now));
      slots := slots[index := slot];
    }

    /** The drop of a grant; the session of a panicked run is handed back to be dropped. */
    method DropGrant(index: nat, session: Session, panicking: bool, now: Instant)
      returns (discarded: Option<Session>)
      requires Valid() && index < |slots|
      modifies this
      ensures Valid() && slots == old(slots)[index := Return(old(slots[index]), session, panicking, now)]
      ensures discarded == if panicking then Some(session) else None
    {
      if panicking {
        slots := slots[index := slots[index].(state := Empty)];
        discarded := Some(session);
      } else {
        slots := slots[index := slots[index].(state := Idle(session, now))];
        discarded := None;
      }
    }

    /**
      `take_idle`: hands out every session idle for at least `maxIdle`, in slot order and once each, and
      empties exactly their slots. `from` lists the positions of these slots.
     */
    method TakeIdle(now: Instant, maxIdle: nat) returns (taken: seq<(Key, Session)>, ghost from: seq<nat>)
      requires Valid()
      modifies this
      ensures Valid()
      ensures |slots| == |old(slots)|
      ensures forall i :: 0 <= i < |slots| ==>
                (i in from <==> old(slots)[i].state.Idle?
                                && (maxIdle == 0 || old(slots)[i].state.idleSince + maxIdle <= now))
      ensures forall i :: 0 <= i < |slots| ==>
                slots[i] == if i in from then old(slots)[i].(state := Empty) else old(slots)[i]
      ensures Increasing(from) && |taken| == |from|
      ensures forall k :: 0 <= k < |from| ==>
                from[k] < |old(slots)| && old(slots)[from[k]].state.Idle?
                && taken[k] == (old(slots)[from[k]].key, old(slots)[from[k]].state.session)
      ensures slots == ReleaseAll(old(slots), now, maxIdle)
      ensures taken == StaleSessions(old(slots), now, maxIdle)
    {
      taken, from := [], [];
      ghost var was := slots;
      assert TakenFrom(was[..0], now, maxIdle, taken, from);
      hide TakenFrom, StaleSessions;
      var i := 0;
      while i < |slots|
        invariant 0 <= i <= |slots| == |was|
        invariant forall k :: 0 <= k < i ==> slots[k] == Released(was[k], now, maxIdle)
        invariant forall k :: i <= k < |slots| ==> slots[k] == was[k]
        invariant TakenFrom(was[..i], now, maxIdle, taken, from)
      {
        TakeNext(was, i, now, maxIdle, taken, from);
        if slots[i].Stale(now, maxIdle) {
          taken := taken + [(slots[i].key, slots[i].state.session)];
          slots := slots[i := slots[i].(state := Empty)];
          from := from + [i];
        }
        i := i + 1;
      }
      assert was[..i] == was;
      TakenAre(was, now, maxIdle, taken, from);
    }
  }
}
