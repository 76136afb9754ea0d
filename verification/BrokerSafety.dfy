/** What every run of the broker keeps, and what follows from it. */
module BrokerSafety {
  import opened Broker
  import opened BrokerProtocol

  function One(b: bool): nat { if b then 1 else 0 }

  /** Changing the phase of one call moves each waiter count by at most one. */
  lemma WaitersPut(calls: map<Call, Phase>, c: Call, p: Phase, i: nat, r: nat)
    ensures |Waiters(calls[c := p], i, r)| ==
            |Waiters(calls, i, r)| - One(c in calls && calls[c].WaitsOn(i, r)) + One(p.WaitsOn(i, r))
  {
    var before, after := Waiters(calls, i, r), Waiters(calls[c := p], i, r);
    assert after == if p.WaitsOn(i, r) then before + {c} else before - {c};
  }

  lemma CountedPut(s: State, s': State, c: Call, p: Phase)
    requires Shape(s) && Shape(s') && Counted(s) && |s'.slots| == |s.slots|
    requires s'.calls == s.calls[c := p]
    requires forall i, r {:trigger s'.slots[i].waiting[r]} :: 0 <= i < |s.slots| && 0 <= r < PRIORITIES ==>
               s'.slots[i].waiting[r] == s.slots[i].waiting[r]
                 - One(c in s.calls && s.calls[c].WaitsOn(i, r)) + One(p.WaitsOn(i, r))
    ensures Counted(s')
  {
    forall i, r | 0 <= i < |s'.slots| && 0 <= r < PRIORITIES
      ensures s'.slots[i].waiting[r] == |Waiters(s'.calls, i, r)|
    {
      WaitersPut(s.calls, c, p, i, r);
    }
  }

  lemma CountedSame(s: State, s': State)
    requires Shape(s) && Shape(s') && Counted(s) && |s'.slots| == |s.slots|
    requires forall c :: c in s'.calls && s'.calls[c].Waiting? ==>
               c in s.calls && s.calls[c].Waiting? && s.calls[c].slot == s'.calls[c].slot
               && s.calls[c].owner == s'.calls[c].owner
    requires forall c :: c in s.calls && s.calls[c].Waiting? ==>
               c in s'.calls && s'.calls[c].Waiting?
    requires forall i :: 0 <= i < |s.slots| ==> s'.slots[i].waiting == s.slots[i].waiting
    ensures Counted(s')
  {
    forall i, r | 0 <= i < |s'.slots| && 0 <= r < PRIORITIES
      ensures s'.slots[i].waiting[r] == |Waiters(s'.calls, i, r)|
    {
      assert Waiters(s'.calls, i, r) == Waiters(s.calls, i, r);
      assert s.slots[i].waiting[r] == |Waiters(s.calls, i, r)|;
    }
  }

  /** A registered call shows in the counter of its rank. */
  lemma RegisteredIsCounted(s: State, c: Call)
    requires Shape(s) && Counted(s) && c in s.calls && s.calls[c].Waiting?
    ensures s.slots[s.calls[c].slot].waiting[Rank(s.calls[c].owner)] > 0
  {
    assert c in Waiters(s.calls, s.calls[c].slot, Rank(s.calls[c].owner));
  }

  // ------------------------------------- one slot and one call change at once

  /** `s'` differs from `s` in slot `i` and in the phase `p` of call `c` only. */
  ghost predicate Put(s: State, s': State, i: nat, c: Call, p: Phase)
  {
    && Shape(s) && Shape(s') && i < |s.slots| == |s'.slots|
    && (forall j :: 0 <= j < |s.slots| && j != i ==> s'.slots[j] == s.slots[j] && s'.tally[j] == s.tally[j])
    && s'.calls == s.calls[c := p]
    && p.slot == i
    && (c in s.calls ==> !s.calls[c].Notifying? && s.calls[c].slot == i)
  }

  lemma ClaimantPut(s: State, s': State, i: nat, c: Call, p: Phase)
    requires Put(s, s', i, c, p) && OneClaimant(s)
    requires Fits(p, s'.slots[i].state)
    requires p.Claims(i) ==> Claimed(s, c, i) || s.slots[i].state.Free()
    requires !p.Claims(i) && Claimed(s, c, i) ==> s'.slots[i].state.Free()
    requires !p.Claims(i) && !Claimed(s, c, i) ==> s'.slots[i].state == s.slots[i].state
    ensures OneClaimant(s')
  {
    ClaimsPut(s, s', i, c, p);
    BusyPut(s, s', i, c, p);
  }

  lemma ClaimsPut(s: State, s': State, i: nat, c: Call, p: Phase)
    requires Put(s, s', i, c, p) && ClaimsFit(s) && ClaimsUnique(s)
    requires Fits(p, s'.slots[i].state)
    requires p.Claims(i) ==> Claimed(s, c, i) || s.slots[i].state.Free()
    requires !p.Claims(i) && !Claimed(s, c, i) ==> s'.slots[i].state == s.slots[i].state
    ensures ClaimsFit(s') && ClaimsUnique(s')
  {
    forall d | d in s.calls && d != c && (Claimed(s, c, i) || p.Claims(i))
      ensures !s.calls[d].Claims(i)
    {}
  }

  lemma BusyPut(s: State, s': State, i: nat, c: Call, p: Phase)
    requires Put(s, s', i, c, p) && BusyIsClaimed(s)
    requires !p.Claims(i) && Claimed(s, c, i) ==> s'.slots[i].state.Free()
    requires !p.Claims(i) && !Claimed(s, c, i) ==> s'.slots[i].state == s.slots[i].state
    ensures BusyIsClaimed(s')
  {
    forall j | 0 <= j < |s'.slots| && !s'.slots[j].state.Free()
      ensures exists d :: Claimed(s', d, j)
    {
      if j == i && p.Claims(i) {
        assert Claimed(s', c, j);
      } else {
        var d :| Claimed(s, d, j);
        assert Claimed(s', d, j);
      }
    }
  }

  lemma SessionsPut(s: State, s': State, i: nat, c: Call, p: Phase)
    requires Put(s, s', i, c, p) && SessionsAtHome(s)
    requires forall k :: k in s.home ==> k in s'.home && s'.home[k] == s.home[k]
    requires p.HasSession() ==> p.session in s'.home && s'.home[p.session] == i
    requires s'.slots[i].state.Idle? ==>
               s'.slots[i].state.session in s'.home && s'.home[s'.slots[i].state.session] == i
    ensures SessionsAtHome(s')
  {}

  lemma BalancedPut(s: State, s': State, i: nat, c: Call, p: Phase)
    requires Put(s, s', i, c, p) && ClaimsUnique(s) && ClaimsUnique(s') && Balanced(s)
    requires s'.slots[i].created - s.slots[i].created ==
             Live(s'.slots[i].state) - Live(s.slots[i].state)
             + s'.tally[i].taken - s.tally[i].taken + s'.tally[i].discarded - s.tally[i].discarded
    requires s'.slots[i].grants - s.slots[i].grants ==
             s'.tally[i].served - s.tally[i].served
             + One(p.Held? && p.role == Ensure) - One(c in s.calls && s.calls[c].Held? && s.calls[c].role == Ensure)
    ensures Balanced(s')
  {
    forall j | 0 <= j < |s.slots| && j != i
      ensures UncountDue(s', j) == UncountDue(s, j)
    {
      if UncountDue(s, j) {
        var d :| Claimed(s, d, j) && s.calls[d].Held? && s.calls[d].role == Ensure;
        assert Claimed(s', d, j);
      }
      if UncountDue(s', j) {
        var d :| Claimed(s', d, j) && s'.calls[d].Held? && s'.calls[d].role == Ensure;
        assert Claimed(s, d, j);
      }
    }
    UncountAt(s, s', i, c, p);
  }

  lemma UncountAt(s: State, s': State, i: nat, c: Call, p: Phase)
    requires Put(s, s', i, c, p) && ClaimsUnique(s) && ClaimsUnique(s')
    ensures One(UncountDue(s', i)) - One(UncountDue(s, i)) ==
            One(p.Held? && p.role == Ensure) - One(c in s.calls && s.calls[c].Held? && s.calls[c].role == Ensure)
  {
    if UncountDue(s, i) {
      var d :| Claimed(s, d, i) && s.calls[d].Held? && s.calls[d].role == Ensure;
      assert d != c ==> Claimed(s', d, i);
    }
    if UncountDue(s', i) {
      var d :| Claimed(s', d, i) && s'.calls[d].Held? && s'.calls[d].role == Ensure;
      assert d != c ==> Claimed(s, d, i);
    }
    if p.Held? && p.role == Ensure {
      assert Claimed(s', c, i);
    }
    if c in s.calls && s.calls[c].Held? && s.calls[c].role == Ensure {
      assert Claimed(s, c, i);
    }
  }

  /** Every rank registered before is still registered on slot `i`. */
  ghost predicate StillRegistered(before: Slot, after: Slot)
    requires before.WellFormed() && after.WellFormed()
  {
    forall r :: 0 <= r < PRIORITIES && before.waiting[r] > 0 ==> after.waiting[r] > 0
  }

  lemma SleepersPut(s: State, s': State, i: nat, c: Call, p: Phase)
    requires Put(s, s', i, c, p) && SleepersExcused(s)
    requires p.Notifying? || !s'.slots[i].state.Free() ||
             (s'.slots[i].state == s.slots[i].state && StillRegistered(s.slots[i], s'.slots[i]))
    requires p.Waiting? && p.asleep ==> !s'.slots[i].state.Free() || s'.slots[i].Outranks(Rank(p.owner))
    ensures SleepersExcused(s')
  {
    forall d | d in s'.calls && s'.calls[d].Waiting? && s'.calls[d].asleep
      ensures !s'.slots[s'.calls[d].slot].state.Free() ||
              s'.slots[s'.calls[d].slot].Outranks(Rank(s'.calls[d].owner)) || NotifyDue(s', s'.calls[d].slot)
    {
      if p.Notifying? && s'.calls[d].slot == i {
        assert s'.calls[c] == Notifying(i);
      } else if d != c {
        var j := s.calls[d].slot;
        if NotifyDue(s, j) {
          var n :| n in s.calls && s.calls[n] == Notifying(j);
          assert s'.calls[n] == Notifying(j);
        } else if s.slots[j].Outranks(Rank(s.calls[d].owner)) {
          var r :| 0 <= r < Rank(s.calls[d].owner) && s.slots[j].waiting[r] > 0;
          assert s'.slots[j].state.Free() ==> s'.slots[j].waiting[r] > 0;
        }
      }
    }
  }

  /** What a change of slot `i` by call `c` has to respect, said at slot `i` only. */
  ghost predicate Respects(s: State, s': State, i: nat, c: Call, p: Phase)
    requires Put(s, s', i, c, p)
  {
    && RespectsClaims(s, s', i, c, p) && RespectsSessions(s, s', i, p)
    && RespectsCounters(s, s', i, c, p) && RespectsSleepers(s, s', i, p)
  }

  ghost predicate RespectsClaims(s: State, s': State, i: nat, c: Call, p: Phase)
    requires i < |s.slots| == |s'.slots|
  {
    var before, after := s.slots[i], s'.slots[i];
    && Fits(p, after.state)
    && (p.Claims(i) ==> Claimed(s, c, i) || before.state.Free())
    && (!p.Claims(i) ==> if Claimed(s, c, i) then after.state.Free() else after.state == before.state)
  }

  ghost predicate RespectsSessions(s: State, s': State, i: nat, p: Phase)
    requires i < |s'.slots|
  {
    var after := s'.slots[i];
    && (forall k :: k in s.home ==> k in s'.home && s'.home[k] == s.home[k])
    && (p.HasSession() ==> p.session in s'.home && s'.home[p.session] == i)
    && (after.state.Idle? ==> after.state.session in s'.home && s'.home[after.state.session] == i)
  }

  ghost predicate RespectsCounters(s: State, s': State, i: nat, c: Call, p: Phase)
    requires Shape(s) && Shape(s') && i < |s.slots| == |s'.slots|
  {
    var before, after := s.slots[i], s'.slots[i];
    && (forall r :: 0 <= r < PRIORITIES ==>
          after.waiting[r] == before.waiting[r]
            - One(c in s.calls && s.calls[c].WaitsOn(i, r)) + One(p.WaitsOn(i, r)))
    && after.created - before.created == Live(after.state) - Live(before.state)
         + s'.tally[i].taken - s.tally[i].taken + s'.tally[i].discarded - s.tally[i].discarded
    && after.grants - before.grants == s'.tally[i].served - s.tally[i].served
         + One(p.Held? && p.role == Ensure) - One(c in s.calls && s.calls[c].Held? && s.calls[c].role == Ensure)
  }

  ghost predicate RespectsSleepers(s: State, s': State, i: nat, p: Phase)
    requires Shape(s) && Shape(s') && i < |s.slots| == |s'.slots|
  {
    var before, after := s.slots[i], s'.slots[i];
    && (p.Notifying? || !after.state.Free() || (after.state == before.state && StillRegistered(before, after)))
    && (p.Waiting? && p.asleep ==> !after.state.Free() || after.Outranks(Rank(p.owner)))
  }

  lemma PutKeeps(s: State, s': State, i: nat, c: Call, p: Phase)
    requires Inv(s) && Put(s, s', i, c, p) && Respects(s, s', i, c, p)
    ensures Inv(s')
  {
    CountedPut(s, s', c, p);
    ClaimantPut(s, s', i, c, p);
    SessionsPut(s, s', i, c, p);
    BalancedPut(s, s', i, c, p);
    SleepersPut(s, s', i, c, p);
  }

  // ------------------------------------------------- one lemma per operation

  lemma AddSlotKeeps(s: State, key: Key)
    requires Inv(s)
    ensures Inv(AddSlot(s, key)) && Find(s.slots, key) < |AddSlot(s, key).slots|
  {
    var s', n := AddSlot(s, key), |s.slots|;
    if Find(s.slots, key) == n {
      assert s'.slots == s.slots + [FreshSlot(key)];
      AddSlotCounted(s, s');
      AddSlotClaims(s, s');
      AddSlotBalanced(s, s');
    }
  }

  /** `s'` has one more slot, empty and untouched. */
  ghost predicate Grown(s: State, s': State)
  {
    && Shape(s) && Shape(s') && s'.calls == s.calls && |s'.slots| == |s.slots| + 1
    && (forall i :: 0 <= i < |s.slots| ==> s'.slots[i] == s.slots[i] && s'.tally[i] == s.tally[i])
    && s'.slots[|s.slots|].state == Empty && s'.slots[|s.slots|].waiting == [0, 0, 0]
    && s'.slots[|s.slots|].created == s'.slots[|s.slots|].grants == 0
    && s'.tally[|s.slots|] == Tally(0, 0, 0)
  }

  lemma AddSlotClaims(s: State, s': State)
    requires Grown(s, s') && OneClaimant(s)
    ensures OneClaimant(s')
  {
    forall i | 0 <= i < |s'.slots| && !s'.slots[i].state.Free()
      ensures exists c :: Claimed(s', c, i)
    {
      var c :| Claimed(s, c, i);
      assert Claimed(s', c, i);
    }
  }

  lemma AddSlotBalanced(s: State, s': State)
    requires Grown(s, s') && Balanced(s)
    ensures Balanced(s')
  {
    assert forall c, i :: Claimed(s', c, i) == Claimed(s, c, i);
    forall i | 0 <= i < |s'.slots|
      ensures i < |s.slots| ==> UncountDue(s', i) == UncountDue(s, i)
      ensures i == |s.slots| ==> !UncountDue(s', i)
    {}
  }

  lemma AddSlotCounted(s: State, s': State)
    requires Grown(s, s') && Counted(s)
    ensures Counted(s')
  {
    forall i, r | 0 <= i < |s'.slots| && 0 <= r < PRIORITIES
      ensures s'.slots[i].waiting[r] == |Waiters(s'.calls, i, r)|
    {
      if i < |s.slots| {
        assert s.slots[i].waiting[r] == |Waiters(s.calls, i, r)|;
      } else {
        assert Waiters(s.calls, i, r) == {};
      }
    }
  }

  lemma RegisterKeeps(s: State, c: Call, i: nat, owner: Owner)
    requires Inv(s) && i < |s.slots| && c !in s.calls
    ensures Inv(RegisterCall(s, c, i, owner))
  {
    var s', p := RegisterCall(s, c, i, owner), Waiting(i, owner, false);
    PutKeeps(s, s', i, c, p);
  }

  lemma PassPuts(s: State, c: Call, now: Instant)
    requires Shape(s) && c in s.calls && s.calls[c].Waiting?
    ensures var s', i := Pass(s, c, now), s.calls[c].slot; c in s'.calls && Put(s, s', i, c, s'.calls[c])
  {
    var i := s.calls[c].slot;
    assert AfterAttempt(s.slots[i], s.calls[c].owner, now).key == s.slots[i].key;
  }

  lemma PassRespectsClaims(s: State, c: Call, now: Instant)
    requires Shape(s) && ClaimsFit(s) && SessionsAtHome(s) && c in s.calls && s.calls[c].Waiting?
    ensures var s', i := Pass(s, c, now), s.calls[c].slot;
            RespectsClaims(s, s', i, c, s'.calls[c]) && RespectsSessions(s, s', i, s'.calls[c])
  {}

  lemma PassRespectsCounters(s: State, c: Call, now: Instant)
    requires Shape(s) && c in s.calls && s.calls[c].Waiting? && Shape(Pass(s, c, now))
    ensures var s', i := Pass(s, c, now), s.calls[c].slot;
            RespectsCounters(s, s', i, c, s'.calls[c]) && RespectsSleepers(s, s', i, s'.calls[c])
  {}

  lemma PassRespects(s: State, c: Call, now: Instant)
    requires Shape(s) && ClaimsFit(s) && SessionsAtHome(s) && c in s.calls && s.calls[c].Waiting?
    ensures var s', i := Pass(s, c, now), s.calls[c].slot;
            c in s'.calls && Put(s, s', i, c, s'.calls[c]) && Respects(s, s', i, c, s'.calls[c])
  {
    PassPuts(s, c, now);
    PassRespectsClaims(s, c, now);
    assert Shape(Pass(s, c, now));
    hide Pass, RespectsClaims, RespectsSessions, RespectsCounters, RespectsSleepers;
    PassRespectsCounters(s, c, now);
  }

  lemma PassKeeps(s: State, c: Call, now: Instant)
    requires Inv(s) && c in s.calls && s.calls[c].Waiting?
    ensures Inv(Pass(s, c, now))
  {
    var s', i := Pass(s, c, now), s.calls[c].slot;
    PassRespects(s, c, now);
    PutKeeps(s, s', i, c, s'.calls[c]);
  }

  lemma EnsureKeeps(s: State, c: Call, i: nat, owner: Owner)
    requires Inv(s) && i < |s.slots| && c !in s.calls
    ensures Inv(EnsureStep(s, c, i, owner))
  {
    var s' := EnsureStep(s, c, i, owner);
    if s.slots[i].state.Empty? {
      var p := s'.calls[c];
      PutKeeps(s, s', i, c, p);
    }
  }

  /** The events of a call that is already inside, other than a pass or a notification. */
  ghost predicate Inside(e: Event)
  {
    e.SpuriousWake? || e.CreateOk? || e.CreateFails? || e.PublishGrant? || e.Uncount? || e.DropGrant?
  }

  lemma InsidePuts(s: State, e: Event)
    requires Shape(s) && Enabled(s, e) && Inside(e)
    ensures var s', c := Next(s, e), e.call;
            Put(s, s', s.calls[c].slot, c, s'.calls[c])
  {
    var s', i := Next(s, e), s.calls[e.call].slot;
    assert s'.slots[i].key == s.slots[i].key;
  }

  lemma InsideRespectsClaims(s: State, e: Event)
    requires Shape(s) && ClaimsFit(s) && SessionsAtHome(s) && Enabled(s, e) && Inside(e)
    ensures var s', c := Next(s, e), e.call;
            var i := s.calls[c].slot;
            && c in s'.calls && |s'.slots| == |s.slots|
            && RespectsClaims(s, s', i, c, s'.calls[c]) && RespectsSessions(s, s', i, s'.calls[c])
  {
    assert s.calls[e.call].Claiming() ==> Fits(s.calls[e.call], s.slots[s.calls[e.call].slot].state);
  }

  lemma InsideRespectsCounters(s: State, e: Event)
    requires Shape(s) && ClaimsFit(s) && Enabled(s, e) && Inside(e) && Shape(Next(s, e))
    ensures var s', c := Next(s, e), e.call;
            var i := s.calls[c].slot;
            && c in s'.calls && |s'.slots| == |s.slots|
            && RespectsCounters(s, s', i, c, s'.calls[c]) && RespectsSleepers(s, s', i, s'.calls[c])
  {
    var s', i := Next(s, e), s.calls[e.call].slot;
    assert s'.slots[i].waiting == s.slots[i].waiting;
    assert s.calls[e.call].Claiming() ==> Fits(s.calls[e.call], s.slots[i].state);
    assert forall r :: s'.calls[e.call].WaitsOn(i, r) <==> s.calls[e.call].WaitsOn(i, r);
  }

  lemma InsideRespects(s: State, e: Event)
    requires Shape(s) && ClaimsFit(s) && SessionsAtHome(s) && Enabled(s, e) && Inside(e)
    ensures var s', c := Next(s, e), e.call;
            var i := s.calls[c].slot;
            Put(s, s', i, c, s'.calls[c]) && Respects(s, s', i, c, s'.calls[c])
  {
    InsidePuts(s, e);
    assert Shape(Next(s, e));
    hide Next, RespectsClaims, RespectsSessions, RespectsCounters, RespectsSleepers;
    InsideRespectsClaims(s, e);
    InsideRespectsCounters(s, e);
  }

  lemma InsideKeeps(s: State, e: Event)
    requires Inv(s) && Enabled(s, e) && Inside(e)
    ensures Inv(Next(s, e))
  {
    InsideRespects(s, e);
    PutKeeps(s, Next(s, e), s.calls[e.call].slot, e.call, Next(s, e).calls[e.call]);
  }

  lemma SameClaims(s: State, s': State)
    requires Shape(s) && Shape(s') && |s'.slots| == |s.slots| && ClaimsUnique(s) && BusyIsClaimed(s)
    requires forall c, i :: Claimed(s', c, i) <==> Claimed(s, c, i)
    requires forall c, i :: Claimed(s', c, i) ==> c in s.calls && s'.calls[c] == s.calls[c]
    requires forall i :: 0 <= i < |s.slots| && !s'.slots[i].state.Free() ==> !s.slots[i].state.Free()
    ensures ClaimsUnique(s') && BusyIsClaimed(s')
    ensures forall i :: 0 <= i < |s.slots| ==> UncountDue(s', i) == UncountDue(s, i)
  {
    forall c, d | c in s'.calls && d in s'.calls && s'.calls[c].Claiming() && s'.calls[d].Claiming() && c != d
      ensures s'.calls[c].slot != s'.calls[d].slot
    {
      assert Claimed(s', c, s'.calls[c].slot) && Claimed(s', d, s'.calls[d].slot);
    }
    forall i | 0 <= i < |s.slots| && !s'.slots[i].state.Free()
      ensures exists c :: Claimed(s', c, i)
    {
      var c :| Claimed(s, c, i);
      assert Claimed(s', c, i);
    }
  }

  lemma NotifyKeepsClaims(s: State, c: Call)
    requires Shape(s) && OneClaimant(s) && Balanced(s) && Enabled(s, NotifyAll(c))
    ensures Shape(Next(s, NotifyAll(c)))
    ensures OneClaimant(Next(s, NotifyAll(c))) && Balanced(Next(s, NotifyAll(c)))
  {
    SameClaims(s, Next(s, NotifyAll(c)));
  }

  lemma NotifyWakes(s: State, c: Call)
    requires Shape(s) && SessionsAtHome(s) && Counted(s) && Enabled(s, NotifyAll(c)) && Shape(Next(s, NotifyAll(c)))
    ensures var s' := Next(s, NotifyAll(c)); SessionsAtHome(s') && SleepersExcused(s')
  {}

  lemma NotifyKeepsCounted(s: State, c: Call)
    requires Shape(s) && Counted(s) && Enabled(s, NotifyAll(c)) && Shape(Next(s, NotifyAll(c)))
    ensures Counted(Next(s, NotifyAll(c)))
  {
    CountedSame(s, Next(s, NotifyAll(c)));
  }

  lemma NotifyKeeps(s: State, c: Call)
    requires Inv(s) && Enabled(s, NotifyAll(c))
    ensures Inv(Next(s, NotifyAll(c)))
  {
    NotifyKeepsClaims(s, c);
    hide Shape, OneClaimant, Balanced, Counted, SessionsAtHome, SleepersExcused, Next, Enabled;
    NotifyWakes(s, c);
    NotifyKeepsCounted(s, c);
  }

  lemma TakeIdleKeepsClaims(s: State, now: Instant, maxIdle: nat)
    requires Shape(s) && OneClaimant(s) && Balanced(s)
    ensures Shape(Next(s, TakeIdle(now, maxIdle)))
    ensures OneClaimant(Next(s, TakeIdle(now, maxIdle))) && Balanced(Next(s, TakeIdle(now, maxIdle)))
  {
    var s' := Next(s, TakeIdle(now, maxIdle));
    assert DistinctKeys(s'.slots);
    SameClaims(s, s');
  }

  lemma TakeIdleKeepsSleepers(s: State, now: Instant, maxIdle: nat)
    requires Shape(s) && SleepersExcused(s) && Shape(Next(s, TakeIdle(now, maxIdle)))
    ensures SleepersExcused(Next(s, TakeIdle(now, maxIdle)))
  {
    var s' := Next(s, TakeIdle(now, maxIdle));
    forall c | c in s'.calls && s'.calls[c].Waiting? && s'.calls[c].asleep
      ensures s.slots[s.calls[c].slot].Outranks(Rank(s.calls[c].owner)) ==>
              s'.slots[s.calls[c].slot].Outranks(Rank(s.calls[c].owner))
      ensures NotifyDue(s, s.calls[c].slot) ==> NotifyDue(s', s.calls[c].slot)
    {}
  }

  lemma TakeIdleKeepsTheRest(s: State, now: Instant, maxIdle: nat)
    requires Shape(s) && SessionsAtHome(s) && Counted(s) && Shape(Next(s, TakeIdle(now, maxIdle)))
    ensures var s' := Next(s, TakeIdle(now, maxIdle)); SessionsAtHome(s') && Counted(s')
  {
    CountedSame(s, Next(s, TakeIdle(now, maxIdle)));
  }

  lemma TakeIdleKeeps(s: State, now: Instant, maxIdle: nat)
    requires Inv(s)
    ensures Inv(Next(s, TakeIdle(now, maxIdle)))
  {
    TakeIdleKeepsClaims(s, now, maxIdle);
    hide Shape, OneClaimant, Balanced, Counted, SessionsAtHome, SleepersExcused, Next;
    TakeIdleKeepsSleepers(s, now, maxIdle);
    TakeIdleKeepsTheRest(s, now, maxIdle);
  }

  lemma NextKeepsInv(s: State, e: Event)
    requires Inv(s) && Enabled(s, e)
    ensures Inv(Next(s, e))
  {
    match e
    case EnterGrant(c, key, owner, now) =>
      AddSlotKeeps(s, key);
      RegisterKeeps(AddSlot(s, key), c, Find(s.slots, key), owner);
      PassKeeps(RegisterCall(AddSlot(s, key), c, Find(s.slots, key), owner), c, now);
    case EnterEnsure(c, key, owner) =>
      AddSlotKeeps(s, key);
      EnsureKeeps(AddSlot(s, key), c, Find(s.slots, key), owner);
    case Recheck(c, now) => PassKeeps(s, c, now);
    case NotifyAll(c) => NotifyKeeps(s, c);
    case TakeIdle(now, maxIdle) => TakeIdleKeeps(s, now, maxIdle);
    case _ => InsideKeeps(s, e);
  }
}
