/** The promises of the broker, over every run. */
module BrokerTheorems {
  import opened Broker
  import opened BrokerProtocol
  import opened BrokerSafety

  /** A run: any finite sequence of enabled events, from an empty broker. */
  datatype Run = Run(states: seq<State>, events: seq<Event>)
  {
    ghost predicate Valid()
    {
      && |states| == |events| + 1 && states[0] == INITIAL
      && forall k :: 0 <= k < |events| ==> StepOf(states[k], events[k], states[k + 1])
    }
  }

  ghost predicate StepOf(s: State, e: Event, s': State)
  {
    Enabled(s, e) && (Shape(s) ==> s' == Next(s, e))
  }

  lemma {:induction false} RunKeepsInv(run: Run, k: nat)
    requires run.Valid() && k < |run.states|
    ensures Inv(run.states[k])
  {
    if k > 0 {
      RunKeepsInv(run, k - 1);
      assert StepOf(run.states[k - 1], run.events[k - 1], run.states[k]);
      NextKeepsInv(run.states[k - 1], run.events[k - 1]);
    }
  }

  // ---------------------------------------------------------------- wake-ups

  /** `c` waits on slot `i`, and nobody registered there has a better rank. */
  ghost predicate BestWaiter(s: State, c: Call, i: nat)
  {
    && c in s.calls && s.calls[c].Waiting? && s.calls[c].slot == i
    && forall d :: d in s.calls && s.calls[d].Waiting? && s.calls[d].slot == i ==>
         Rank(s.calls[c].owner) <= Rank(s.calls[d].owner)
  }

  lemma BestIsNotOutranked(s: State, c: Call, i: nat)
    requires Inv(s) && i < |s.slots| && BestWaiter(s, c, i)
    ensures !s.slots[i].Outranks(Rank(s.calls[c].owner))
  {
    forall r | 0 <= r < Rank(s.calls[c].owner)
      ensures s.slots[i].waiting[r] == 0
    {
      assert Waiters(s.calls, i, r) == {};
      assert s.slots[i].waiting[r] == |Waiters(s.calls, i, r)|;
    }
  }

  lemma {:induction false} SomeoneIsBest(s: State, c: Call, i: nat) returns (best: Call)
    requires Inv(s) && i < |s.slots| && c in s.calls && s.calls[c].Waiting? && s.calls[c].slot == i
    ensures BestWaiter(s, best, i)
    decreases Rank(s.calls[c].owner)
  {
    best := c;
    if !BestWaiter(s, c, i) {
      var d :| d in s.calls && s.calls[d].Waiting? && s.calls[d].slot == i
               && Rank(s.calls[d].owner) < Rank(s.calls[c].owner);
      best := SomeoneIsBest(s, d, i);
    }
  }

  /** No lost wake-up: nobody sleeps at the head of a free slot, unless the
      `notify_all` that will wake it has not been reached yet. */
  lemma NoLostWakeup(run: Run, k: nat, i: nat, c: Call)
    requires run.Valid() && k < |run.states|
    requires i < |run.states[k].slots| && run.states[k].slots[i].state.Free()
    requires BestWaiter(run.states[k], c, i) && !NotifyDue(run.states[k], i)
    ensures !run.states[k].calls[c].asleep
  {
    RunKeepsInv(run, k);
    BestIsNotOutranked(run.states[k], c, i);
  }

  /** A free slot somebody waits for can be taken right now, by a best-ranked waiter. */
  lemma FreeSlotIsNotStranded(run: Run, k: nat, i: nat, c: Call, now: Instant) returns (best: Call)
    requires run.Valid() && k < |run.states|
    requires i < |run.states[k].slots| && run.states[k].slots[i].state.Free()
    requires c in run.states[k].calls && run.states[k].calls[c].Waiting? && run.states[k].calls[c].slot == i
    requires !NotifyDue(run.states[k], i)
    ensures Shape(run.states[k]) && BestWaiter(run.states[k], best, i)
    ensures Enabled(run.states[k], Recheck(best, now))
    ensures Claimed(Next(run.states[k], Recheck(best, now)), best, i)
  {
    var s := run.states[k];
    RunKeepsInv(run, k);
    best := SomeoneIsBest(s, c, i);
    NoLostWakeup(run, k, i, best);
    BestIsNotOutranked(s, best, i);
  }

  // --------------------------------------------------------------- ownership

  datatype Place = InSlot(i: nat) | WithCall(c: Call)

  /** Where a session is, among the places from which it can be run. */
  ghost predicate At(s: State, session: Session, place: Place)
  {
    match place
    case InSlot(i) => i < |s.slots| && s.slots[i].state.Idle? && s.slots[i].state.session == session
    case WithCall(c) => c in s.calls && s.calls[c].HasSession() && s.calls[c].session == session
  }

  ghost function SlotOf(s: State, place: Place): nat
    requires place.WithCall? ==> place.c in s.calls && s.calls[place.c].HasSession()
  {
    match place case InSlot(i) => i case WithCall(c) => s.calls[c].slot
  }

  /** A session is in one place, and a slot has one session. */
  lemma OneSessionOnePlace(run: Run, k: nat, a: Session, p: Place, b: Session, q: Place)
    requires run.Valid() && k < |run.states|
    requires At(run.states[k], a, p) && At(run.states[k], b, q)
    requires a == b || SlotOf(run.states[k], p) == SlotOf(run.states[k], q)
    ensures a == b && p == q
  {
    RunKeepsInv(run, k);
  }

  /** No two grants or creations of one key coexist, and none beside an idle session. */
  lemma OneClaimPerKey(run: Run, k: nat, c: Call, i: nat, d: Call, j: nat)
    requires run.Valid() && k < |run.states|
    requires Claimed(run.states[k], c, i) && Claimed(run.states[k], d, j)
    ensures i < |run.states[k].slots| && j < |run.states[k].slots|
    ensures run.states[k].slots[i].key == run.states[k].slots[j].key ==> c == d
    ensures !run.states[k].slots[i].state.Free()
  {
    RunKeepsInv(run, k);
  }

  // ---------------------------------------------------------------- priority

  /** The event starts a `grant` of rank `r` on slot `i`: from its idle session, or by creating one. */
  ghost predicate Begins(s: State, e: Event, i: nat, r: nat)
    requires Shape(s) && Enabled(s, e)
  {
    && (e.EnterGrant? || e.Recheck?)
    && Claimed(Next(s, e), e.call, i)
    && Rank(Next(s, e).calls[e.call].owner) == r
  }

  lemma BeginIsNotOutranked(s: State, e: Event, i: nat, r: nat, d: Call)
    requires Inv(s) && Enabled(s, e) && Begins(s, e, i, r)
    requires d in s.calls && s.calls[d].Waiting? && s.calls[d].slot == i
    ensures r <= Rank(s.calls[d].owner)
  {
    if e.EnterGrant? {
      AddSlotKeeps(s, e.key);
      var s1 := AddSlot(s, e.key);
      RegisterKeeps(s1, e.call, Find(s.slots, e.key), e.owner);
      var s2 := RegisterCall(s1, e.call, Find(s.slots, e.key), e.owner);
      assert s2.calls[d] == s.calls[d] && e.call in s2.calls && s2.calls[e.call].Waiting?;
      hide Inv, AddSlot, RegisterCall, Pass;
      PassIsNotOutranked(s2, e.call, e.now, i, r, d);
    } else {
      PassIsNotOutranked(s, e.call, e.now, i, r, d);
    }
  }

  lemma PassIsNotOutranked(s: State, c: Call, now: Instant, i: nat, r: nat, d: Call)
    requires Inv(s) && c in s.calls && s.calls[c].Waiting?
    requires Claimed(Pass(s, c, now), c, i) && Rank(Pass(s, c, now).calls[c].owner) == r
    requires d in s.calls && s.calls[d].Waiting? && s.calls[d].slot == i
    ensures r <= Rank(s.calls[d].owner)
  {
    RegisteredIsCounted(s, d);
  }

  /** A registered call stays registered, on its slot and under its rank, until it is served. */
  lemma WaitsUntilServed(s: State, e: Event, d: Call, i: nat, r: nat)
    requires Shape(s) && Enabled(s, e) && d in s.calls && s.calls[d].WaitsOn(i, r)
    ensures d in Next(s, e).calls
    ensures Claimed(Next(s, e), d, i) || Next(s, e).calls[d].WaitsOn(i, r)
  {
    if !StepBy(e, d) {
      OthersKeepPhase(s, e, d);
      hide Next, Enabled, Shape;
    }
  }

  /** The event is a step of `c`. */
  predicate StepBy(e: Event, c: Call) { !e.TakeIdle? && e.call == c }

  /** Nobody else moves a call, except that a notification wakes it. */
  lemma OthersKeepPhase(s: State, e: Event, d: Call)
    requires Shape(s) && Enabled(s, e) && d in s.calls && !StepBy(e, d)
    ensures d in Next(s, e).calls
    ensures Next(s, e).calls[d]
            == if e.NotifyAll? && s.calls[d].Waiting? then s.calls[d].(asleep := false) else s.calls[d]
  {
    if e.EnterGrant? || e.EnterEnsure? {
      EnterKeepsPhase(s, e, d);
    }
  }

  lemma EnterKeepsPhase(s: State, e: Event, d: Call)
    requires Shape(s) && Enabled(s, e) && d in s.calls && (e.EnterGrant? || e.EnterEnsure?)
    ensures d in Next(s, e).calls && Next(s, e).calls[d] == s.calls[d]
  {
    var s1, at := AddSlot(s, e.key), Find(s.slots, e.key);
    assert s1.calls == s.calls && Shape(s1) && at < |s1.slots|;
    hide Shape, AddSlot;
  }

  lemma {:induction false} WaitsThroughout(run: Run, from: nat, k: nat, d: Call, i: nat, r: nat)
    requires run.Valid() && from <= k < |run.states|
    requires d in run.states[from].calls && run.states[from].calls[d].WaitsOn(i, r)
    requires forall j :: from < j <= k ==> !Claimed(run.states[j], d, i)
    ensures d in run.states[k].calls && run.states[k].calls[d].WaitsOn(i, r)
  {
    if from < k {
      WaitsThroughout(run, from, k - 1, d, i, r);
      StepAt(run, k - 1);
      assert Shape(run.states[k - 1]);
      hide Inv, Next, Enabled, Shape, StepOf;
      WaitsUntilServed(run.states[k - 1], run.events[k - 1], d, i, r);
    }
  }

  /** From the moment `d` is registered until it is served, nothing of a worse
      rank begins on its slot, whatever happens in between. */
  lemma NoOvertaking(run: Run, from: nat, k: nat, d: Call, i: nat, r: nat)
    requires run.Valid() && from <= k < |run.events|
    requires d in run.states[from].calls && run.states[from].calls[d].WaitsOn(i, r)
    requires forall j :: from < j <= k ==> !Claimed(run.states[j], d, i)
    ensures Shape(run.states[k]) && Enabled(run.states[k], run.events[k])
    ensures forall worse: nat :: worse > r ==> !Begins(run.states[k], run.events[k], i, worse)
  {
    WaitsThroughout(run, from, k, d, i, r);
    RunKeepsInv(run, k);
    var s, e := run.states[k], run.events[k];
    assert StepOf(s, e, run.states[k + 1]);
    forall worse: nat | worse > r
      ensures !Begins(s, e, i, worse)
    {
      if Begins(s, e, i, worse) {
        BeginIsNotOutranked(s, e, i, worse, d);
      }
    }
  }

  /** Someone waits for the answer of `a` and not of `b`; or `a` is a pass of the index and `b` a cache. */
  predicate GoesBefore(a: Owner, b: Owner)
  {
    || ((a.Search? || a.CodemapRerank?) && !b.Search? && !b.CodemapRerank?)
    || ((a.Index? || a.Tool?) && (b.GraphCache? || b.ProviderCensus?))
  }

  /** In terms of owners: while `d` waits, the step just made started no `grant` of anyone `d` goes before. */
  lemma UrgentIsNotOvertaken(run: Run, from: nat, k: nat, d: Call, i: nat, starter: Call)
    requires run.Valid() && from <= k < |run.events|
    requires d in run.states[from].calls && run.states[from].calls[d].Waiting? && run.states[from].calls[d].slot == i
    requires forall j :: from < j <= k ==> !Claimed(run.states[j], d, i)
    requires (run.events[k].EnterGrant? || run.events[k].Recheck?) && run.events[k].call == starter
    requires Claimed(run.states[k + 1], starter, i)
    ensures !GoesBefore(run.states[from].calls[d].owner, run.states[k + 1].calls[starter].owner)
  {
    var a, b := run.states[from].calls[d].owner, run.states[k + 1].calls[starter].owner;
    assert GoesBefore(a, b) ==> Rank(a) < Rank(b);
    assert run.states[from].calls[d].WaitsOn(i, Rank(a));
    hide *;
    NoOvertaking(run, from, k, d, i, Rank(a));
    StarterBegins(run, k, i, starter);
  }

  lemma StarterBegins(run: Run, k: nat, i: nat, starter: Call)
    requires run.Valid() && k < |run.events|
    requires (run.events[k].EnterGrant? || run.events[k].Recheck?) && run.events[k].call == starter
    requires Claimed(run.states[k + 1], starter, i)
    ensures Shape(run.states[k]) && Enabled(run.states[k], run.events[k])
    ensures Begins(run.states[k], run.events[k], i, Rank(run.states[k + 1].calls[starter].owner))
  {
    StepAt(run, k);
    hide Next, Enabled, StepOf;
  }

  // -------------------------------------------------------------- whole claims

  /** Everything of a slot but its waiting counters; a slot not there yet counts as fresh. */
  datatype Ledger = Ledger(state: SlotState, created: int, grants: int)

  ghost function LedgerOf(s: State, i: nat): Ledger
  {
    if i < |s.slots| then Ledger(s.slots[i].state, s.slots[i].created, s.slots[i].grants) else Ledger(Empty, 0, 0)
  }

  /** Slot `i` and its claimant `c` are as before, up to the waiting counters. */
  ghost predicate PassedBy(s: State, s': State, c: Call, i: nat)
  {
    LedgerOf(s', i) == LedgerOf(s, i) && c in s.calls && c in s'.calls && s'.calls[c] == s.calls[c]
  }

  lemma ClaimedIsBusy(s: State, c: Call, i: nat)
    requires Inv(s) && Claimed(s, c, i)
    ensures i < |s.slots| && !s.slots[i].state.Free()
  {
    assert Fits(s.calls[c], s.slots[i].state);
  }

  lemma PassPassesBy(s: State, d: Call, now: Instant, c: Call, i: nat)
    requires Inv(s) && Claimed(s, c, i) && c != d && d in s.calls && s.calls[d].Waiting?
    ensures PassedBy(s, Pass(s, d, now), c, i)
  {
    ClaimedIsBusy(s, c, i);
    hide Inv;
  }

  lemma RegisteredPassesBy(s: State, d: Call, at: nat, owner: Owner, now: Instant, c: Call, i: nat)
    requires Inv(s) && Claimed(s, c, i) && d !in s.calls && at < |s.slots|
    ensures var s2 := RegisterCall(s, d, at, owner);
            && Shape(s2) && d in s2.calls && s2.calls[d].Waiting? && PassedBy(s, Pass(s2, d, now), c, i)
  {
    RegisterKeeps(s, d, at, owner);
    RegisterLedger(s, d, at, owner, i);
    var s2 := RegisterCall(s, d, at, owner);
    assert d in s2.calls && s2.calls[d].Waiting? && c in s2.calls && s2.calls[c] == s.calls[c];
    hide RegisterCall, Pass, LedgerOf;
    PassPassesBy(s2, d, now, c, i);
  }

  lemma EnsurePassesBy(s: State, d: Call, at: nat, owner: Owner, c: Call, i: nat)
    requires Inv(s) && Claimed(s, c, i) && d !in s.calls && at < |s.slots|
    ensures PassedBy(s, EnsureStep(s, d, at, owner), c, i)
  {
    ClaimedIsBusy(s, c, i);
    hide Inv;
  }

  lemma EnterPassesBy(s: State, e: Event, c: Call, i: nat)
    requires Inv(s) && Claimed(s, c, i) && Enabled(s, e) && !StepBy(e, c) && (e.EnterGrant? || e.EnterEnsure?)
    ensures PassedBy(s, Next(s, e), c, i)
  {
    AddSlotKeeps(s, e.key);
    AddSlotLedger(s, e.key, i);
    var s1, at := AddSlot(s, e.key), Find(s.slots, e.key);
    hide Inv, AddSlot, RegisterCall, Pass, EnsureStep, LedgerOf;
    if e.EnterGrant? {
      RegisteredPassesBy(s1, e.call, at, e.owner, e.now, c, i);
    } else {
      EnsurePassesBy(s1, e.call, at, e.owner, c, i);
    }
  }

  lemma AddSlotLedger(s: State, key: Key, i: nat)
    requires Shape(s)
    ensures LedgerOf(AddSlot(s, key), i) == LedgerOf(s, i) && AddSlot(s, key).calls == s.calls
  {}

  lemma RegisterLedger(s: State, c: Call, at: nat, owner: Owner, i: nat)
    requires Shape(s) && at < |s.slots|
    ensures LedgerOf(RegisterCall(s, c, at, owner), i) == LedgerOf(s, i)
  {}

  lemma InsidePassesBy(s: State, e: Event, c: Call, i: nat)
    requires Inv(s) && Claimed(s, c, i) && Enabled(s, e) && !StepBy(e, c)
    requires !e.EnterGrant? && !e.EnterEnsure? && !e.Recheck?
    ensures PassedBy(s, Next(s, e), c, i)
  {
    ClaimedIsBusy(s, c, i);
    if e.TakeIdle? {
      assert Next(s, e).slots[i] == Released(s.slots[i], e.now, e.maxIdle);
    } else if !e.NotifyAll? && s.calls[e.call].Claiming() {
      assert s.calls[e.call].slot != i;
    }
  }

  lemma OthersPassBy(s: State, e: Event, c: Call, i: nat)
    requires Inv(s) && Claimed(s, c, i) && Enabled(s, e) && !StepBy(e, c)
    ensures PassedBy(s, Next(s, e), c, i)
  {
    if e.EnterGrant? || e.EnterEnsure? {
      EnterPassesBy(s, e, c, i);
    } else if e.Recheck? {
      PassPassesBy(s, e.call, e.now, c, i);
    } else {
      InsidePassesBy(s, e, c, i);
    }
  }

  lemma StepAt(run: Run, k: nat)
    requires run.Valid() && k < |run.events|
    ensures Inv(run.states[k]) && Enabled(run.states[k], run.events[k])
    ensures run.states[k + 1] == Next(run.states[k], run.events[k])
  {
    RunKeepsInv(run, k);
    assert StepOf(run.states[k], run.events[k], run.states[k + 1]);
    hide Next, Enabled;
  }

  /** Between two steps of the claimant nobody else changes its slot, whatever they do. */
  lemma {:induction false} ClaimIsUndisturbed(run: Run, j: nat, k: nat, c: Call, i: nat)
    requires run.Valid() && j <= k < |run.states| && Claimed(run.states[j], c, i)
    requires forall n :: j <= n < k ==> !StepBy(run.events[n], c)
    ensures LedgerOf(run.states[k], i) == LedgerOf(run.states[j], i)
    ensures c in run.states[k].calls && run.states[k].calls[c] == run.states[j].calls[c]
  {
    if j < k {
      StepAt(run, k - 1);
      hide Inv, Next, Enabled, Shape, StepOf, LedgerOf;
      ClaimIsUndisturbed(run, j, k - 1, c, i);
      OthersPassBy(run.states[k - 1], run.events[k - 1], c, i);
    }
  }

  /** What claiming, publishing, uncounting and abandoning do to the slot's ledger. */
  ghost predicate LedgerStep(s: State, e: Event, s': State, i: nat)
    requires !e.TakeIdle?
  {
    var before, after := LedgerOf(s, i), LedgerOf(s', i);
    && (Claimed(s', e.call, i) && (s'.calls[e.call].Building? || e.EnterEnsure?) && !Claimed(s, e.call, i) ==>
          before.state == Empty && after == before.(state := after.state))
    && (Claimed(s, e.call, i) ==>
          match e
          case CreateOk(_, _) => after == before && Claimed(s', e.call, i)
          case CreateFails(_) => after == before.(state := Empty)
          case PublishGrant(_, _) =>
            after == Ledger(after.state, before.created + 1, before.grants + 1) && Claimed(s', e.call, i)
          case Uncount(_) => after == before.(grants := before.grants - 1)
          case _ => true)
  }

  lemma ClaimSteps(s: State, e: Event, i: nat)
    requires Inv(s) && Enabled(s, e) && !e.TakeIdle?
    ensures LedgerStep(s, e, Next(s, e), i)
  {
    if e.EnterGrant? || e.EnterEnsure? {
      EnterClaims(s, e, i);
    } else if e.Recheck? {
      PassClaims(s, e.call, e.now, i);
      hide Inv, Pass, LedgerOf;
    } else {
      hide Inv;
    }
  }

  lemma PassClaims(s: State, c: Call, now: Instant, i: nat)
    requires Shape(s) && c in s.calls && s.calls[c].Waiting?
    ensures var s' := Pass(s, c, now);
            Claimed(s', c, i) && s'.calls[c].Building? ==>
              LedgerOf(s, i).state == Empty && LedgerOf(s', i) == LedgerOf(s, i).(state := LedgerOf(s', i).state)
  {}

  lemma EnterClaims(s: State, e: Event, i: nat)
    requires Inv(s) && Enabled(s, e) && (e.EnterGrant? || e.EnterEnsure?)
    ensures LedgerStep(s, e, Next(s, e), i)
  {
    AddSlotKeeps(s, e.key);
    var s1, at := AddSlot(s, e.key), Find(s.slots, e.key);
    AddSlotLedger(s, e.key, i);
    hide AddSlot;
    if e.EnterGrant? {
      RegisterKeeps(s1, e.call, at, e.owner);
      RegisterLedger(s1, e.call, at, e.owner, i);
      var s2 := RegisterCall(s1, e.call, at, e.owner);
      assert s2.calls[e.call].Waiting?;
      hide Inv, RegisterCall, Pass, LedgerOf;
      PassClaims(s2, e.call, e.now, i);
    } else {
      hide Inv;
    }
  }

  /**
    A creation that fails or unwinds leaves no trace: whatever others do meanwhile, the slot is afterwards
    what it was before the claim, and only the waiting counters can differ.
   */
  lemma FailedCreationLeavesNoTrace(run: Run, j: nat, k: nat, c: Call, i: nat)
    requires run.Valid() && j < k < |run.events|
    requires Claimed(run.states[j + 1], c, i) && run.states[j + 1].calls[c].Building? && !Claimed(run.states[j], c, i)
    requires StepBy(run.events[j], c) && run.events[k] == CreateFails(c)
    requires forall n :: j < n < k ==> !StepBy(run.events[n], c)
    ensures LedgerOf(run.states[k + 1], i) == LedgerOf(run.states[j], i)
  {
    OwnStep(run, j, i);
    ClaimIsUndisturbed(run, j + 1, k, c, i);
    OwnStep(run, k, i);
  }

  /** Between claiming and publishing, the slot gains one creation and one grant. */
  lemma CreationIsCounted(run: Run, j: nat, made: nat, published: nat, c: Call, i: nat)
    requires run.Valid() && j <= made < published < |run.events| && Claimed(run.states[j], c, i)
    requires run.events[made].CreateOk? && run.events[made].call == c
    requires run.events[published].PublishGrant? && run.events[published].call == c
    requires forall n :: j <= n < published && n != made ==> !StepBy(run.events[n], c)
    ensures var before, after := LedgerOf(run.states[j], i), LedgerOf(run.states[published + 1], i);
            && after == Ledger(after.state, before.created + 1, before.grants + 1)
            && Claimed(run.states[published + 1], c, i)
  {
    hide Next, Inv, Enabled, StepOf, LedgerOf;
    ClaimIsUndisturbed(run, j, made, c, i);
    OwnStep(run, made, i);
    ClaimIsUndisturbed(run, made + 1, published, c, i);
    OwnStep(run, published, i);
  }

  /** The creation of a completed `ensure` is counted, its grant is not, whatever others do meanwhile. */
  lemma EnsureCountsOneCreation(run: Run, j: nat, made: nat, published: nat, k: nat, c: Call, i: nat)
    requires run.Valid() && j < made < published < k < |run.events|
    requires run.events[j].EnterEnsure? && run.events[j].call == c && Claimed(run.states[j + 1], c, i)
    requires run.events[made].CreateOk? && run.events[made].call == c
    requires run.events[published].PublishGrant? && run.events[published].call == c && run.events[k] == Uncount(c)
    requires forall n :: j < n < k && n != made && n != published ==> !StepBy(run.events[n], c)
    ensures var before, after := LedgerOf(run.states[j], i), LedgerOf(run.states[k + 1], i);
            after.created == before.created + 1 && after.grants == before.grants
  {
    OwnStep(run, j, i);
    assert !Claimed(run.states[j], c, i);
    hide Next, Inv, Enabled, StepOf, LedgerOf;
    CreationIsCounted(run, j + 1, made, published, c, i);
    ClaimIsUndisturbed(run, published + 1, k, c, i);
    OwnStep(run, k, i);
  }

  lemma OwnStep(run: Run, k: nat, i: nat)
    requires run.Valid() && k < |run.events| && !run.events[k].TakeIdle?
    ensures Inv(run.states[k]) && Enabled(run.states[k], run.events[k])
    ensures run.states[k + 1] == Next(run.states[k], run.events[k])
    ensures LedgerStep(run.states[k], run.events[k], run.states[k + 1], i)
  {
    StepAt(run, k);
    hide Inv, Next, Enabled, StepOf, LedgerStep;
    ClaimSteps(run.states[k], run.events[k], i);
  }

  // ------------------------------------------------------- what the slot records

  lemma PassGrants(s: State, c: Call, now: Instant)
    requires Shape(s) && c in s.calls && s.calls[c].Waiting?
    ensures var s' := Pass(s, c, now);
            && c in s'.calls && s'.calls[c].slot < |s'.slots| && s'.calls[c].slot == s.calls[c].slot
            && (s'.calls[c].Held? ==> s'.slots[s'.calls[c].slot].state == Granted(s'.calls[c].owner, now))
  {}

  /** A slot taken or published says who holds it, and since when: the owner of the call, and this very moment. */
  lemma GrantIsRecorded(run: Run, k: nat, c: Call, i: nat, now: Instant)
    requires run.Valid() && k < |run.events| && Claimed(run.states[k + 1], c, i) && run.states[k + 1].calls[c].Held?
    requires run.events[k].EnterGrant? || run.events[k].Recheck? || run.events[k].PublishGrant?
    requires run.events[k].call == c && run.events[k].now == now
    ensures i < |run.states[k + 1].slots|
    ensures run.states[k + 1].slots[i].state == Granted(run.states[k + 1].calls[c].owner, now)
  {
    var s, e := run.states[k], run.events[k];
    StepAt(run, k);
    if e.EnterGrant? {
      var at := Find(s.slots, e.key);
      AddSlotKeeps(s, e.key);
      AddSlotLedger(s, e.key, i);
      RegisterShape(AddSlot(s, e.key), c, at, e.owner);
      PassGrants(RegisterCall(AddSlot(s, e.key), c, at, e.owner), c, now);
      hide Inv, AddSlot, RegisterCall, Pass;
    } else if e.Recheck? {
      PassGrants(s, c, now);
      hide Inv, Pass;
    } else {
      hide Inv;
    }
  }

  // ------------------------------------------------------------- idle release

  /** A session that lies idle before and after a step has not been touched by it. */
  lemma IdleIsUntouched(s: State, e: Event, i: nat)
    requires Inv(s) && Enabled(s, e) && i < |s.slots| && s.slots[i].state.Idle?
    requires i < |Next(s, e).slots| && Next(s, e).slots[i].state.Idle?
    ensures Next(s, e).slots[i].state == s.slots[i].state
  {
    if e.EnterGrant? || e.EnterEnsure? {
      EnterKeepsIdle(s, e, i);
    } else if e.Recheck? {
      PassKeepsIdle(s, e.call, e.now, i);
      hide Inv, Pass;
    } else if e.TakeIdle? {
      assert Next(s, e).slots[i] == Released(s.slots[i], e.now, e.maxIdle);
    } else if !e.SpuriousWake? && !e.NotifyAll? {
      assert s.calls[e.call].Claiming();
      ClaimedIsBusy(s, e.call, s.calls[e.call].slot);
      hide Inv;
    }
  }

  lemma EnterKeepsIdle(s: State, e: Event, i: nat)
    requires Inv(s) && Enabled(s, e) && (e.EnterGrant? || e.EnterEnsure?) && i < |s.slots| && s.slots[i].state.Idle?
    requires i < |Next(s, e).slots| && Next(s, e).slots[i].state.Idle?
    ensures Next(s, e).slots[i].state == s.slots[i].state
  {
    AddSlotKeeps(s, e.key);
    AddSlotLedger(s, e.key, i);
    var s1, at := AddSlot(s, e.key), Find(s.slots, e.key);
    assert Shape(s1) && i < |s1.slots| && s1.slots[i].state == s.slots[i].state;
    hide Inv, Shape, AddSlot, LedgerOf;
    if e.EnterGrant? {
      RegisterShape(s1, e.call, at, e.owner);
      PassKeepsIdle(RegisterCall(s1, e.call, at, e.owner), e.call, e.now, i);
    }
  }

  lemma RegisterShape(s: State, c: Call, at: nat, owner: Owner)
    requires Shape(s) && at < |s.slots| && c !in s.calls
    ensures var s' := RegisterCall(s, c, at, owner);
            && Shape(s') && |s'.slots| == |s.slots| && c in s'.calls && s'.calls[c].Waiting?
            && forall i :: 0 <= i < |s.slots| ==> s'.slots[i].state == s.slots[i].state
  {}

  lemma PassKeepsIdle(s: State, c: Call, now: Instant, i: nat)
    requires Shape(s) && c in s.calls && s.calls[c].Waiting? && i < |s.slots| && s.slots[i].state.Idle?
    requires i < |Pass(s, c, now).slots| && Pass(s, c, now).slots[i].state.Idle?
    ensures Pass(s, c, now).slots[i].state == s.slots[i].state
  {}

  lemma IdleStep(run: Run, k: nat, i: nat)
    requires run.Valid() && k < |run.events|
    requires i < |run.states[k].slots| && run.states[k].slots[i].state.Idle?
    requires i < |run.states[k + 1].slots| && run.states[k + 1].slots[i].state.Idle?
    ensures run.states[k + 1].slots[i].state == run.states[k].slots[i].state
  {
    StepAt(run, k);
    assert Shape(run.states[k]);
    hide Inv, Next, Enabled, Shape, StepOf;
    IdleIsUntouched(run.states[k], run.events[k], i);
  }

  lemma {:induction false} IdleThroughout(run: Run, j: nat, k: nat, i: nat)
    requires run.Valid() && j <= k < |run.states|
    requires forall n :: j <= n <= k ==> i < |run.states[n].slots| && run.states[n].slots[i].state.Idle?
    ensures run.states[k].slots[i].state == run.states[j].slots[i].state
  {
    if j < k {
      hide StepOf;
      IdleThroughout(run, j, k - 1, i);
      IdleStep(run, k - 1, i);
    }
  }

  /**
    A session dropped by a run that did not panic, and idle in its slot ever since, is handed out by the
    next `take_idle` exactly if the time since the drop has reached the limit; otherwise it stays where it is.
   */
  lemma IdleSessionIsTakenIff(run: Run, j: nat, k: nat, c: Call, i: nat, session: Session,
                              dropped: Instant, now: Instant, maxIdle: nat)
    requires run.Valid() && j < k < |run.events|
    requires run.events[j] == DropGrant(c, false, dropped) && run.events[k] == TakeIdle(now, maxIdle) && dropped <= now
    requires Claimed(run.states[j], c, i) && run.states[j].calls[c] == Held(i, run.states[j].calls[c].owner,
                                                                            run.states[j].calls[c].role, session)
    requires forall n :: j < n <= k ==> i < |run.states[n].slots| && run.states[n].slots[i].state.Idle?
    ensures (run.states[k].slots[i].key, session) in StaleSessions(run.states[k].slots, now, maxIdle)
            <==> now - dropped >= maxIdle
    ensures i < |run.states[k + 1].slots|
    ensures run.states[k + 1].slots[i].state
            == if now - dropped >= maxIdle then Empty else Idle(session, dropped)
  {
    StepAt(run, j);
    StepAt(run, k);
    assert run.states[j + 1].slots[i].state == Idle(session, dropped);
    IdleThroughout(run, j + 1, k, i);
    var slots := run.states[k].slots;
    assert run.states[k + 1].slots[i] == Released(slots[i], now, maxIdle);
    StaleSessionsAre(slots, now, maxIdle, slots[i].key, session);
    assert DistinctKeys(slots);
  }

  // -------------------------------------------------------------- accounting

  datatype Deed = Serves | Takes | Discards

  /** The step served a `grant` call from slot `i`, took its idle session out,
      or threw away the session of a panicked run. */
  ghost predicate Did(deed: Deed, s: State, e: Event, s': State, i: nat)
  {
    match deed
    case Serves =>
      && (e.EnterGrant? || e.Recheck? || e.PublishGrant?)
      && Claimed(s', e.call, i) && s'.calls[e.call].Held? && s'.calls[e.call].role == Role.Run
    case Takes =>
      e.TakeIdle? && i < |s.slots| == |s'.slots| && s.slots[i].state.Idle? && s'.slots[i].state.Empty?
    case Discards =>
      e.DropGrant? && Claimed(s, e.call, i) && i < |s'.slots| && s'.slots[i].state.Empty?
  }

  /** How many of the first `k` steps of the run did it. */
  ghost function Steps(deed: Deed, run: Run, k: nat, i: nat): nat
    requires run.Valid() && k < |run.states|
  {
    if k == 0 then 0
    else Steps(deed, run, k - 1, i) + One(Did(deed, run.states[k - 1], run.events[k - 1], run.states[k], i))
  }

  ghost function TallyAt(s: State, deed: Deed, i: nat): nat
  {
    if i >= |s.tally| then 0
    else match deed
      case Serves => s.tally[i].served
      case Takes => s.tally[i].taken
      case Discards => s.tally[i].discarded
  }

  lemma PassTally(s: State, c: Call, now: Instant, i: nat)
    requires Inv(s) && c in s.calls && s.calls[c].Waiting?
    ensures var s' := Pass(s, c, now);
            && TallyAt(s', Serves, i) == TallyAt(s, Serves, i) + One(Claimed(s', c, i) && s'.calls[c].Held?)
            && TallyAt(s', Takes, i) == TallyAt(s, Takes, i)
            && TallyAt(s', Discards, i) == TallyAt(s, Discards, i)
            && c in s'.calls && (s'.calls[c].Held? ==> s'.calls[c].role == Role.Run)
  {}

  lemma AddSlotTally(s: State, key: Key, i: nat, deed: Deed)
    requires Shape(s)
    ensures TallyAt(AddSlot(s, key), deed, i) == TallyAt(s, deed, i)
  {}

  lemma EnterGrantTally(s: State, e: Event, i: nat, deed: Deed)
    requires Inv(s) && Enabled(s, e) && e.EnterGrant?
    ensures TallyAt(Next(s, e), deed, i) == TallyAt(s, deed, i) + One(Did(deed, s, e, Next(s, e), i))
  {
    AddSlotTally(s, e.key, i, deed);
    AddSlotKeeps(s, e.key);
    var s1, at := AddSlot(s, e.key), Find(s.slots, e.key);
    RegisterKeeps(s1, e.call, at, e.owner);
    var s2 := RegisterCall(s1, e.call, at, e.owner);
    assert TallyAt(s2, deed, i) == TallyAt(s1, deed, i) && e.call in s2.calls && s2.calls[e.call].Waiting?;
    hide AddSlot, RegisterCall, Pass, Claimed, TallyAt;
    PassTally(s2, e.call, e.now, i);
  }

  lemma EnterEnsureTally(s: State, e: Event, i: nat, deed: Deed)
    requires Inv(s) && Enabled(s, e) && e.EnterEnsure?
    ensures TallyAt(Next(s, e), deed, i) == TallyAt(s, deed, i) + One(Did(deed, s, e, Next(s, e), i))
  {
    AddSlotTally(s, e.key, i, deed);
    AddSlotKeeps(s, e.key);
    hide AddSlot;
  }

  lemma InsideTally(s: State, e: Event, i: nat, deed: Deed)
    requires Inv(s) && Enabled(s, e) && !e.EnterGrant? && !e.EnterEnsure? && !e.Recheck?
    ensures TallyAt(Next(s, e), deed, i) == TallyAt(s, deed, i) + One(Did(deed, s, e, Next(s, e), i))
  {
    var s' := Next(s, e);
    if e.DropGrant? {
      assert s'.slots[s.calls[e.call].slot].state.Empty? <==> e.panicking;
    } else if e.TakeIdle? && i < |s.slots| {
      assert s'.slots[i] == Released(s.slots[i], e.now, e.maxIdle);
    }
  }

  lemma NextTally(s: State, e: Event, i: nat, deed: Deed)
    requires Inv(s) && Enabled(s, e)
    ensures TallyAt(Next(s, e), deed, i) == TallyAt(s, deed, i) + One(Did(deed, s, e, Next(s, e), i))
  {
    if e.EnterGrant? {
      EnterGrantTally(s, e, i, deed);
    } else if e.EnterEnsure? {
      EnterEnsureTally(s, e, i, deed);
    } else if e.Recheck? {
      PassTally(s, e.call, e.now, i);
    } else {
      InsideTally(s, e, i, deed);
    }
  }

  lemma StepTally(run: Run, k: nat, i: nat, deed: Deed)
    requires run.Valid() && k < |run.events|
    ensures TallyAt(run.states[k + 1], deed, i)
            == TallyAt(run.states[k], deed, i) + One(Did(deed, run.states[k], run.events[k], run.states[k + 1], i))
  {
    StepAt(run, k);
    hide Inv, Next, Enabled, StepOf, TallyAt, Did;
    NextTally(run.states[k], run.events[k], i, deed);
  }

  /** The tallies are what the run did: nothing is counted that did not happen. */
  lemma {:induction false} TallyIsHistory(run: Run, k: nat, i: nat, deed: Deed)
    requires run.Valid() && k < |run.states|
    ensures TallyAt(run.states[k], deed, i) == Steps(deed, run, k, i)
  {
    if k > 0 {
      hide TallyAt, Did, StepOf;
      TallyIsHistory(run, k - 1, i, deed);
      StepTally(run, k - 1, i, deed);
    }
  }

  /** The counters of a slot, at every moment of every run. */
  lemma Accounting(run: Run, k: nat, i: nat)
    requires run.Valid() && k < |run.states| && i < |run.states[k].slots|
    ensures var slot := run.states[k].slots[i];
            && |slot.waiting| == PRIORITIES
            && (forall r :: 0 <= r < PRIORITIES ==> slot.waiting[r] == |Waiters(run.states[k].calls, i, r)|)
            && slot.created == Live(slot.state) + Steps(Takes, run, k, i) + Steps(Discards, run, k, i)
            && slot.grants == Steps(Serves, run, k, i) + One(UncountDue(run.states[k], i))
  {
    RunKeepsInv(run, k);
    TallyIsHistory(run, k, i, Serves);
    TallyIsHistory(run, k, i, Takes);
    TallyIsHistory(run, k, i, Discards);
  }

  /** No decrement takes a counter below zero. */
  lemma NoUnderflow(run: Run, k: nat, c: Call)
    requires run.Valid() && k < |run.states| && c in run.states[k].calls
    ensures Shape(run.states[k])
    ensures run.states[k].calls[c].Waiting? ==>
              run.states[k].slots[run.states[k].calls[c].slot].waiting[Rank(run.states[k].calls[c].owner)] >= 1
    ensures Enabled(run.states[k], Uncount(c)) ==> run.states[k].slots[run.states[k].calls[c].slot].grants >= 1
  {
    var s := run.states[k];
    RunKeepsInv(run, k);
    if s.calls[c].Waiting? {
      RegisteredIsCounted(s, c);
    }
    if Enabled(s, Uncount(c)) {
      assert Claimed(s, c, s.calls[c].slot);
    }
  }
}
