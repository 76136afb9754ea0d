/**
  A run into the window between an unlock and its `notify_all`: one call holds the session,
  another falls asleep behind it, and the grant has just been dropped.
 */
module BrokerWindow {
  import opened Broker
  import opened BrokerProtocol
  import opened BrokerTheorems

  ghost const BUILT :=
    State([Slot(0, Creating(Index), [0, 0, 0], 0, 0)], map[0 := Building(0, Index, Role.Run)], map[], [Tally(0, 0, 0)])

  ghost const FINISHED := BUILT.(calls := map[0 := Made(0, Index, Role.Run, 0)], home := map[0 := 0])

  ghost const LENT :=
    State([Slot(0, Granted(Index, 0), [0, 0, 0], 1, 1)], map[0 := Held(0, Index, Role.Run, 0)],
          map[0 := 0], [Tally(0, 0, 1)])

  ghost const AWAITED :=
    State([Slot(0, Granted(Index, 0), [1, 0, 0], 1, 1)],
          map[0 := Held(0, Index, Role.Run, 0), 1 := Waiting(0, Search, true)], map[0 := 0], [Tally(0, 0, 1)])

  ghost const DROPPED :=
    AWAITED.(slots := [Slot(0, Idle(0, 0), [1, 0, 0], 1, 1)],
             calls := map[0 := Notifying(0), 1 := Waiting(0, Search, true)])

  lemma BuildsFirst()
    ensures StepOf(INITIAL, EnterGrant(0, 0, Index, 0), BUILT)
  {
    var s1 := AddSlot(INITIAL, 0);
    assert s1 == State([FreshSlot(0)], map[], map[], [Tally(0, 0, 0)]);
    var s2 := RegisterCall(s1, 0, 0, Index);
    assert [0, 0, 0][1 := 1] == [0, 1, 0] && [0, 1, 0][1 := 0] == [0, 0, 0];
    assert s2.slots == [Slot(0, Empty, [0, 1, 0], 0, 0)];
    var s3 := Pass(s2, 0, 0);
    assert Decide(s2.slots[0], Index) == MustCreate;
    assert s3.slots == BUILT.slots;
    assert s3.calls == BUILT.calls;
  }

  lemma FinishesAndLends()
    ensures StepOf(BUILT, CreateOk(0, 0), FINISHED) && StepOf(FINISHED, PublishGrant(0, 0), LENT)
  {
    assert Shape(BUILT) && Shape(FINISHED);
    assert Next(BUILT, CreateOk(0, 0)).calls == FINISHED.calls;
    var s := Next(FINISHED, PublishGrant(0, 0));
    assert s.slots == LENT.slots && s.calls == LENT.calls && s.tally == LENT.tally;
  }

  lemma SecondSleeps()
    ensures StepOf(LENT, EnterGrant(1, 0, Search, 0), AWAITED)
  {
    assert Find(LENT.slots, 0) == 0 && AddSlot(LENT, 0) == LENT;
    var s2 := RegisterCall(LENT, 1, 0, Search);
    assert [0, 0, 0][0 := 1] == [1, 0, 0];
    assert s2.slots == AWAITED.slots;
    var s3 := Pass(s2, 1, 0);
    assert Decide(s2.slots[0], Search) == Blocked;
    assert s3.slots == AWAITED.slots;
    assert s3.calls == AWAITED.calls;
  }

  lemma FirstDrops()
    ensures StepOf(AWAITED, DropGrant(0, false, 0), DROPPED)
  {
    var s := Next(AWAITED, DropGrant(0, false, 0));
    assert s.slots == DROPPED.slots && s.calls == DROPPED.calls;
  }

  lemma HeadIsAsleep()
    ensures BestWaiter(DROPPED, 1, 0) && NotifyDue(DROPPED, 0)
    ensures DROPPED.calls[1].asleep && DROPPED.slots[0].state.Free()
  {
    assert DROPPED.calls[0] == Notifying(0);
  }

  /** In this window the head of a free slot is asleep, with the notification still to come. */
  lemma SleeperInTheWindow() returns (run: Run)
    ensures run.Valid() && |run.states| == 6
    ensures |run.states[5].slots| == 1 && run.states[5].slots[0].state.Free()
    ensures BestWaiter(run.states[5], 1, 0) && run.states[5].calls[1].asleep && NotifyDue(run.states[5], 0)
  {
    hide StepOf, BestWaiter, NotifyDue;
    BuildsFirst();
    FinishesAndLends();
    SecondSleeps();
    FirstDrops();
    HeadIsAsleep();
    run := Run.Run([INITIAL], []);
    run := Extended(run, EnterGrant(0, 0, Index, 0), BUILT);
    run := Extended(run, CreateOk(0, 0), FINISHED);
    run := Extended(run, PublishGrant(0, 0), LENT);
    run := Extended(run, EnterGrant(1, 0, Search, 0), AWAITED);
    run := Extended(run, DropGrant(0, false, 0), DROPPED);
  }

  lemma Extended(run: Run, e: Event, s: State) returns (longer: Run)
    requires run.Valid() && StepOf(run.states[|run.events|], e, s)
    ensures longer.Valid() && longer.states == run.states + [s] && longer.events == run.events + [e]
  {
    hide StepOf;
    longer := Run.Run(run.states + [s], run.events + [e]);
  }
}
