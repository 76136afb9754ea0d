/**
  The daemon's memory watchdog: the decision, the trim that may settle it, and
  the loop that carries its memory from tick to tick. Times are seconds on a
  clock that does not run backwards; memory readings are arbitrary.
 */
module Watchdog {
  import opened Wrappers

  type Secs = nat

  const U64_MAX: nat := 0xFFFF_FFFF_FFFF_FFFF
  const TRIM_COOLDOWN: Secs := 60
  const GROWTH_TRIM_COOLDOWN: Secs := 300

  datatype Action = Nothing | Unload | RetireAndUnload
  {
    function Severity(): nat { match this case Nothing => 0 case Unload => 1 case RetireAndUnload => 2 }
  }

  datatype Limits = Limits(softMb: nat, hardMb: nat, minAvailableMb: nat, cooldown: Secs)

  datatype Reading = Reading(rssMb: nat, availableMb: Option<nat>)

  function Decide(r: Reading, limits: Limits, sinceUnload: Option<Secs>, retiring: bool): Action
  {
    if !retiring && limits.hardMb > 0 && r.rssMb >= limits.hardMb then RetireAndUnload
    else
      var overOwnLimit := limits.softMb > 0 && r.rssMb >= limits.softMb;
      var machineIsShort :=
        limits.minAvailableMb > 0 && r.availableMb.Some? && r.availableMb.value < limits.minAvailableMb;
      if !overOwnLimit && !machineIsShort then Nothing
      else if sinceUnload.Some? && sinceUnload.value < limits.cooldown then Nothing
      else Unload
  }

  datatype Tick = Tick(action: Action, trimmed: Option<Reading>)

  /** `after` is what the trim reads, should there be one. */
  function WatchdogTick(r: Reading, limits: Limits, sinceUnload: Option<Secs>, sinceTrim: Option<Secs>,
                        retiring: bool, after: Reading): Tick
  {
    var raw := Decide(r, limits, sinceUnload, retiring);
    var trimIsDue := sinceTrim.None? || sinceTrim.value >= TRIM_COOLDOWN;
    if raw.Nothing? || !trimIsDue then Tick(raw, None)
    else Tick(Decide(after, limits, sinceUnload, retiring), Some(after))
  }

  function SaturatingAdd(a: nat, b: nat): nat { Min(a + b, U64_MAX) }

  predicate GrowthTrimIsDue(rssMb: nat, baselineMb: nat, growthMb: nat, sinceTrim: Option<Secs>)
  {
    && growthMb != 0
    && (sinceTrim.Some? ==> sinceTrim.value >= GROWTH_TRIM_COOLDOWN)
    && rssMb >= SaturatingAdd(baselineMb, growthMb)
  }

  predicate RetireGraceExpired(retiringFor: Option<Secs>, grace: Secs)
  {
    grace != 0 && retiringFor.Some? && retiringFor.value >= grace
  }

  /** Time since a recorded moment; nothing if the clock stands before it. */
  function Elapsed(at: Option<Secs>, now: Secs): Option<Secs>
  {
    if at.Some? && now >= at.value then Some(now - at.value) else None
  }

  // ------------------------------------------------------- one decision

  /** The machine is known to have less than the floor left. */
  predicate MachineIsShort(r: Reading, limits: Limits)
  {
    r.availableMb.Some? && r.availableMb.value < limits.minAvailableMb
  }

  /** What a reading demands: retiring at the hard limit; unloading, once rested, for either of two reasons. */
  function Demanded(r: Reading, limits: Limits, rested: bool, retiring: bool): Action
  {
    if 0 < limits.hardMb <= r.rssMb && !retiring then RetireAndUnload
    else if rested && (0 < limits.softMb <= r.rssMb || MachineIsShort(r, limits)) then Unload
    else Nothing
  }

  lemma DecideIsDemanded(r: Reading, limits: Limits, sinceUnload: Option<Secs>, retiring: bool)
    ensures Decide(r, limits, sinceUnload, retiring)
            == Demanded(r, limits, sinceUnload.None? || sinceUnload.value >= limits.cooldown, retiring)
  {}

  /** Exactly when a decision is which; the machine's floor and the unreadable reading count as said. */
  lemma UnloadIff(r: Reading, limits: Limits, sinceUnload: Option<Secs>, retiring: bool)
    ensures var action := Decide(r, limits, sinceUnload, retiring);
            var rested := sinceUnload.None? || sinceUnload.value >= limits.cooldown;
            var overHard := limits.hardMb != 0 && limits.hardMb <= r.rssMb && !retiring;
            var overSoft := limits.softMb != 0 && limits.softMb <= r.rssMb;
            && (action == RetireAndUnload <==> overHard)
            && (r.availableMb.None? || r.availableMb.value >= limits.minAvailableMb ==>
                  (action == Unload <==> !overHard && rested && overSoft))
            && (r.availableMb.Some? && r.availableMb.value < limits.minAvailableMb ==>
                  (action == Unload <==> !overHard && rested))
  {
    DecideIsDemanded(r, limits, sinceUnload, retiring);
  }

  /** Readings compared: less held, and no less known to be available. */
  predicate NoWorse(a: Reading, b: Reading)
  {
    a.rssMb <= b.rssMb
    && (a.availableMb.Some? ==> b.availableMb.Some? && b.availableMb.value <= a.availableMb.value)
  }

  lemma DecideMonotone(a: Reading, b: Reading, limits: Limits, sinceUnload: Option<Secs>, retiring: bool)
    requires NoWorse(a, b)
    ensures Decide(a, limits, sinceUnload, retiring).Severity() <= Decide(b, limits, sinceUnload, retiring).Severity()
  {}

  /** Retiring bars the hard limit and nothing else. */
  lemma RetiringOnlyBarsTheHardLimit(r: Reading, limits: Limits, sinceUnload: Option<Secs>)
    ensures Decide(r, limits, sinceUnload, true) == Decide(r, limits.(hardMb := 0), sinceUnload, false)
  {}

  /**
    When a tick acts more harshly than the raw reading asked for: only if a trim
    was made and RSS rose across the hard limit while it ran. What the trim does
    to available memory cannot matter.
   */
  lemma HarsherExactlyWhen(r: Reading, limits: Limits, sinceUnload: Option<Secs>, sinceTrim: Option<Secs>,
                           retiring: bool, after: Reading)
    ensures WatchdogTick(r, limits, sinceUnload, sinceTrim, retiring, after).action.Severity()
              > Decide(r, limits, sinceUnload, retiring).Severity()
            <==> && Decide(r, limits, sinceUnload, retiring) == Unload
                 && (sinceTrim.None? || sinceTrim.value >= TRIM_COOLDOWN)
                 && !retiring && 0 < limits.hardMb && r.rssMb < limits.hardMb <= after.rssMb
  {}

  /** RSS rises from 15 to 25 MB during a trim, across a hard limit of 20. */
  lemma TrimCanEndInRetirement()
    ensures var limits, r, after := Limits(10, 20, 0, 300), Reading(15, None), Reading(25, None);
            && Decide(r, limits, None, false) == Unload
            && WatchdogTick(r, limits, None, None, false, after).action == RetireAndUnload
  {}

  /** A trim that only improves the reading is never followed by a harsher action than the raw reading asked for. */
  lemma ImprovingTrimIsNoHarsher(r: Reading, limits: Limits, sinceUnload: Option<Secs>, sinceTrim: Option<Secs>,
                                 retiring: bool, after: Reading)
    requires NoWorse(after, r)
    ensures WatchdogTick(r, limits, sinceUnload, sinceTrim, retiring, after).action.Severity()
            <= Decide(r, limits, sinceUnload, retiring).Severity()
  {
    DecideMonotone(after, r, limits, sinceUnload, retiring);
  }

  // ------------------------------------------------------------ the loop

  datatype Config = Config(limits: Limits, growthMb: nat, grace: Secs)

  /** What the world supplies to one pass of the daemon's loop. */
  datatype Turn = Turn(
    reading: Option<Reading>, now: Secs,       // at the top of the watchdog
    afterTrim: Option<Reading>, trimEnd: Secs, // read after a trim, if one is made
    retiredAt: Secs, unloadEnd: Secs,          // during and after the action
    replaced: bool, replacedAt: Secs,          // the binary at the launch path
    live: nat, checkedAt: Secs,                // at the exit checks
    idleExpired: bool)
  {
    predicate Ordered()
    {
      now <= trimEnd <= retiredAt <= unloadEnd <= replacedAt <= checkedAt
    }
  }

  datatype Memory = Memory(retiring: bool, retiringSince: Option<Secs>, lastUnload: Option<Secs>,
                           lastTrim: Option<Secs>, baselineMb: nat)

  datatype Trim = NoTrim | PressureTrim | GrowthTrim

  /** What one pass did. */
  datatype Entry = Entry(turn: Turn, action: Action, trim: Trim, finalRss: Option<nat>,
                         memoryRetired: bool, binaryRetired: bool, after: Memory)
  {
    predicate Retired() { memoryRetired || binaryRetired }

    predicate Unloaded() { !action.Nothing? }
  }

  function Startup(reading: Option<Reading>): Memory
  {
    Memory(false, None, None, None, if reading.Some? then reading.value.rssMb else 0)
  }

  /** The watchdog part of a pass: memory, action, trim and the RSS it settled on. */
  function Watch(cfg: Config, m: Memory, t: Turn): (Memory, Action, Trim, Option<nat>)
  {
    if t.reading.None? then (m, Nothing, NoTrim, None)
    else
      var r := t.reading.value;
      var sinceTrim := Elapsed(m.lastTrim, t.now);
      var after := if t.afterTrim.Some? then t.afterTrim.value else r;
      var tick := WatchdogTick(r, cfg.limits, Elapsed(m.lastUnload, t.now), sinceTrim, m.retiring, after);
      var trim := if tick.trimmed.Some? then PressureTrim
                  else if GrowthTrimIsDue(r.rssMb, m.baselineMb, cfg.growthMb, sinceTrim) then GrowthTrim
                  else NoTrim;
      var rss := if trim.NoTrim? then r.rssMb else after.rssMb;
      var m1 := if trim.NoTrim? then m.(baselineMb := Min(m.baselineMb, rss))
                else m.(lastTrim := Some(t.trimEnd), baselineMb := rss);
      var m2 := match tick.action
        case Nothing => m1
        case Unload => m1.(lastUnload := Some(t.unloadEnd))
        case RetireAndUnload =>
          m1.(retiring := true, retiringSince := Some(t.retiredAt), lastUnload := Some(t.unloadEnd));
      (m2, tick.action, trim, Some(rss))
  }

  function Pass(cfg: Config, m: Memory, t: Turn): Entry
  {
    var (m1, action, trim, rss) := Watch(cfg, m, t);
    var binaryRetired := !m1.retiring && t.replaced;
    var m2 := if binaryRetired then m1.(retiring := true, retiringSince := Some(t.replacedAt)) else m1;
    Entry(t, action, trim, rss, action.RetireAndUnload?, binaryRetired, m2)
  }

  /** The loop ends after this pass. */
  predicate Exits(cfg: Config, e: Entry)
  {
    || (e.after.retiring && e.turn.live == 0)
    || (e.after.retiring && RetireGraceExpired(Elapsed(e.after.retiringSince, e.turn.checkedAt), cfg.grace))
    || e.turn.idleExpired
  }

  /** Everything the loop does when the world supplies `turns`. */
  function Log(cfg: Config, m: Memory, turns: seq<Turn>): (log: seq<Entry>)
    ensures |log| <= |turns|
    decreases |turns|
  {
    if turns == [] then []
    else
      var e := Pass(cfg, m, turns[0]);
      [e] + (if Exits(cfg, e) then [] else Log(cfg, e.after, turns[1..]))
  }

  ghost predicate ClockMonotone(turns: seq<Turn>)
  {
    && (forall k :: 0 <= k < |turns| ==> turns[k].Ordered())
    && (forall j, k :: 0 <= j < k < |turns| ==> turns[j].checkedAt <= turns[k].now)
  }

  /** The watchdog block of the loop, updating the variables one by one. */
  method RunWatchdog(cfg: Config, m0: Memory, t: Turn)
    returns (m: Memory, action: Action, trim: Trim, finalRss: Option<nat>)
    ensures (m, action, trim, finalRss) == Watch(cfg, m0, t)
  {
    m, action, trim, finalRss := m0, Nothing, NoTrim, None;
    if t.reading.None? {
      return;
    }
    var r := t.reading.value;
    var sinceTrim := Elapsed(m.lastTrim, t.now);
    var after := if t.afterTrim.Some? then t.afterTrim.value else r;
    var tick := WatchdogTick(r, cfg.limits, Elapsed(m.lastUnload, t.now), sinceTrim, m.retiring, after);
    action := tick.action;
    var rss := r.rssMb;
    if tick.trimmed.Some? {
      trim, rss := PressureTrim, tick.trimmed.value.rssMb;
      m := m.(lastTrim := Some(t.trimEnd), baselineMb := rss);
    } else if GrowthTrimIsDue(r.rssMb, m.baselineMb, cfg.growthMb, sinceTrim) {
      trim, rss := GrowthTrim, after.rssMb;
      m := m.(lastTrim := Some(t.trimEnd), baselineMb := rss);
    }
    m := m.(baselineMb := Min(m.baselineMb, rss));
    finalRss := Some(rss);
    match action {
      case Nothing =>
      case Unload =>
        m := m.(lastUnload := Some(t.unloadEnd));
      case RetireAndUnload =>
        m := m.(retiring := true, retiringSince := Some(t.retiredAt));
        m := m.(lastUnload := Some(t.unloadEnd));
    }
  }

  /** One pass: the watchdog, then the check for a replaced binary. */
  method RunPass(cfg: Config, m0: Memory, t: Turn) returns (entry: Entry)
    ensures entry == Pass(cfg, m0, t)
  {
    var m, action, trim, finalRss := RunWatchdog(cfg, m0, t);
    var binaryRetired := false;
    if !m.retiring && t.replaced {
      binaryRetired := true;
      m := m.(retiring := true, retiringSince := Some(t.replacedAt));
    }
    entry := Entry(t, action, trim, finalRss, action.RetireAndUnload?, binaryRetired, m);
  }

  /** `run_daemon`'s loop, from startup until it exits or the turns run out. */
  method RunLoop(cfg: Config, startup: Option<Reading>, turns: seq<Turn>) returns (log: seq<Entry>)
    ensures var rss := if startup.Some? then startup.value.rssMb else 0;
            log == Log(cfg, Memory(false, None, None, None, rss), turns)
  {
    log := [];
    var m := Startup(startup);
    var k, running := 0, true;
    ghost var whole := Log(cfg, m, turns);
    ghost var rest := whole;
    assert turns[0..] == turns && forall m' :: Log(cfg, m', []) == [];
    hide Pass, Exits, Log;
    while running && k < |turns|
      invariant 0 <= k <= |turns|
      invariant rest == if running then Log(cfg, m, turns[k..]) else []
      invariant log + rest == whole
      decreases |turns| - k
    {
      var entry := RunPass(cfg, m, turns[k]);
      LogSplit(cfg, m, turns, k, entry);
      MoveOver(log, rest, entry);
      log := log + [entry];
      rest := rest[1..];
      m, running, k := entry.after, !Exits(cfg, entry), k + 1;
    }
  }

  lemma MoveOver(log: seq<Entry>, rest: seq<Entry>, e: Entry)
    requires rest != [] && rest[0] == e
    ensures log + rest == log + [e] + rest[1..]
  {}

  lemma LogSplit(cfg: Config, m: Memory, turns: seq<Turn>, k: nat, e: Entry)
    requires k < |turns| && e == Pass(cfg, m, turns[k])
    ensures Log(cfg, m, turns[k..]) == [e] + (if Exits(cfg, e) then [] else Log(cfg, e.after, turns[k + 1..]))
  {
    assert turns[k..][1..] == turns[k + 1..];
  }

  // ---------------------------------------------------- over every run

  /** Every moment the loop remembers has passed. */
  ghost predicate Past(m: Memory, now: Secs)
  {
    && (m.lastUnload.Some? ==> m.lastUnload.value <= now)
    && (m.lastTrim.Some? ==> m.lastTrim.value <= now)
    && (m.retiringSince.Some? ==> m.retiringSince.value <= now)
  }

  lemma TickSteps(r: Reading, limits: Limits, sinceUnload: Option<Secs>,
                  sinceTrim: Option<Secs>, retiring: bool, after: Reading)
    ensures var tick := WatchdogTick(r, limits, sinceUnload, sinceTrim, retiring, after);
            && (tick.action.Unload? && sinceUnload.Some? ==> sinceUnload.value >= limits.cooldown)
            && (tick.trimmed.Some? && sinceTrim.Some? ==> sinceTrim.value >= TRIM_COOLDOWN)
            && (tick.action.RetireAndUnload? ==> !retiring)
  {}

  /** What one pass does to the three moments the loop remembers. */
  lemma PassSteps(cfg: Config, m: Memory, t: Turn)
    requires t.Ordered() && Past(m, t.now)
    ensures var e := Pass(cfg, m, t);
            && e.turn == t && Past(e.after, t.checkedAt)
            && e.after.lastUnload == (if e.Unloaded() then Some(t.unloadEnd) else m.lastUnload)
            && e.after.lastTrim == (if e.trim.NoTrim? then m.lastTrim else Some(t.trimEnd))
            && (e.action.Unload? && m.lastUnload.Some? ==> t.now >= m.lastUnload.value + cfg.limits.cooldown)
            && (m.lastTrim.Some? ==> t.now >= m.lastTrim.value + TrimCooldown(e.trim))
            && (m.retiring ==> e.after.retiring && e.after.retiringSince == m.retiringSince)
            && (e.Retired() ==> e.after.retiring && e.after.retiringSince ==
                                                    Some(if e.memoryRetired then t.retiredAt else t.replacedAt))
  {
    hide WatchdogTick;
    if t.reading.Some? {
      var r, after := t.reading.value, if t.afterTrim.Some? then t.afterTrim.value else t.reading.value;
      TickSteps(r, cfg.limits, Elapsed(m.lastUnload, t.now), Elapsed(m.lastTrim, t.now), m.retiring, after);
    }
  }

  /** Stepping the log: the rest of it is the log of the rest of the turns. */
  lemma LogTail(cfg: Config, m: Memory, turns: seq<Turn>)
    requires turns != [] && ClockMonotone(turns) && Past(m, turns[0].now)
    ensures var e := Pass(cfg, m, turns[0]);
            && Log(cfg, m, turns)[0] == e
            && Log(cfg, m, turns)[1..] == (if Exits(cfg, e) then [] else Log(cfg, e.after, turns[1..]))
            && ClockMonotone(turns[1..])
            && (|turns| > 1 ==> Past(e.after, turns[1].now))
  {
    PassSteps(cfg, m, turns[0]);
    var rest := turns[1..];
    assert forall k :: 0 <= k < |rest| ==> rest[k] == turns[k + 1];
  }

  /** A later entry of the log is an entry of the rest. */
  lemma LogAt(cfg: Config, m: Memory, turns: seq<Turn>, k: nat)
    requires ClockMonotone(turns) && (turns != [] ==> Past(m, turns[0].now)) && 0 < k < |Log(cfg, m, turns)|
    ensures var e, rest := Pass(cfg, m, turns[0]), turns[1..];
            && k - 1 < |Log(cfg, e.after, rest)| && Log(cfg, m, turns)[k] == Log(cfg, e.after, rest)[k - 1]
            && ClockMonotone(rest) && (rest != [] ==> Past(e.after, rest[0].now))
  {
    LogTail(cfg, m, turns);
    hide Pass, Exits, Past, ClockMonotone;
    assert Log(cfg, m, turns)[k] == Log(cfg, m, turns)[1..][k - 1];
  }

  function One(b: bool): nat { if b then 1 else 0 }

  /** How often the daemon retired, by memory or by a replaced binary. */
  function Retirements(log: seq<Entry>): nat
  {
    if log == [] then 0
    else One(log[0].memoryRetired) + One(log[0].binaryRetired) + Retirements(log[1..])
  }

  /** Over every run, whatever its last pass does: one retirement at most, none once retired. */
  lemma {:induction false} RetiresAtMostOnce(cfg: Config, m: Memory, turns: seq<Turn>)
    ensures Retirements(Log(cfg, m, turns)) <= One(!m.retiring)
    decreases |turns|
  {
    if turns != [] {
      var e := Pass(cfg, m, turns[0]);
      var rest := if Exits(cfg, e) then [] else Log(cfg, e.after, turns[1..]);
      assert Log(cfg, m, turns) == [e] + rest && Log(cfg, m, turns)[1..] == rest;
      RetiresAtMostOnce(cfg, e.after, turns[1..]);
    }
  }

  /** The daemon retires exactly when it ends up retired without having started so. */
  lemma {:induction false} RetiredIffItRetired(cfg: Config, m: Memory, turns: seq<Turn>)
    requires Log(cfg, m, turns) != []
    ensures var log := Log(cfg, m, turns);
            log[|log| - 1].after.retiring <==> m.retiring || Retirements(log) == 1
    decreases |turns|
  {
    var e := Pass(cfg, m, turns[0]);
    var rest := if Exits(cfg, e) then [] else Log(cfg, e.after, turns[1..]);
    var log := Log(cfg, m, turns);
    assert log == [e] + rest && log[1..] == rest;
    RetiresAtMostOnce(cfg, m, turns);
    if rest != [] {
      RetiredIffItRetired(cfg, e.after, turns[1..]);
      assert log[|log| - 1] == rest[|rest| - 1];
    }
  }

  /** A plain unload comes at least the cooldown after the last one remembered. */
  lemma {:induction false} UnloadAfterMemory(cfg: Config, m: Memory, turns: seq<Turn>, j: nat)
    requires ClockMonotone(turns) && (turns != [] ==> Past(m, turns[0].now))
    requires j < |Log(cfg, m, turns)| && Log(cfg, m, turns)[j].action == Unload && m.lastUnload.Some?
    ensures Log(cfg, m, turns)[j].turn.now >= m.lastUnload.value + cfg.limits.cooldown
    decreases |turns|
  {
    LogTail(cfg, m, turns);
    PassSteps(cfg, m, turns[0]);
    if j > 0 {
      UnloadAfterMemory(cfg, Pass(cfg, m, turns[0]).after, turns[1..], j - 1);
    }
  }

  /** Unloads keep their distance: from the end of any earlier one, of either kind. */
  lemma {:induction false} UnloadsKeepCooldown(cfg: Config, m: Memory, turns: seq<Turn>, i: nat, j: nat)
    requires ClockMonotone(turns) && (turns != [] ==> Past(m, turns[0].now))
    requires i < j < |Log(cfg, m, turns)|
    requires Log(cfg, m, turns)[i].Unloaded() && Log(cfg, m, turns)[j].action == Unload
    ensures Log(cfg, m, turns)[j].turn.now >= Log(cfg, m, turns)[i].turn.unloadEnd + cfg.limits.cooldown
    decreases |turns|
  {
    hide Pass, Exits, Past;
    LogTail(cfg, m, turns);
    PassSteps(cfg, m, turns[0]);
    hide Log, ClockMonotone;
    LogAt(cfg, m, turns, j);
    var e := Pass(cfg, m, turns[0]);
    if i > 0 {
      LogAt(cfg, m, turns, i);
      UnloadsKeepCooldown(cfg, e.after, turns[1..], i - 1, j - 1);
    } else {
      UnloadAfterMemory(cfg, e.after, turns[1..], j - 1);
    }
  }

  function TrimCooldown(trim: Trim): Secs
  {
    match trim case NoTrim => 0 case PressureTrim => TRIM_COOLDOWN case GrowthTrim => GROWTH_TRIM_COOLDOWN
  }

  lemma {:induction false} TrimAfterMemory(cfg: Config, m: Memory, turns: seq<Turn>, j: nat)
    requires ClockMonotone(turns) && (turns != [] ==> Past(m, turns[0].now))
    requires j < |Log(cfg, m, turns)| && m.lastTrim.Some?
    ensures Log(cfg, m, turns)[j].turn.now >= m.lastTrim.value + TrimCooldown(Log(cfg, m, turns)[j].trim)
    decreases |turns|
  {
    LogTail(cfg, m, turns);
    PassSteps(cfg, m, turns[0]);
    if j > 0 {
      TrimAfterMemory(cfg, Pass(cfg, m, turns[0]).after, turns[1..], j - 1);
    }
  }

  /** Each kind of trim keeps its own cooldown from any earlier trim of either kind. */
  lemma {:induction false} TrimsKeepCooldown(cfg: Config, m: Memory, turns: seq<Turn>, i: nat, j: nat)
    requires ClockMonotone(turns) && (turns != [] ==> Past(m, turns[0].now))
    requires i < j < |Log(cfg, m, turns)| && !Log(cfg, m, turns)[i].trim.NoTrim?
    ensures Log(cfg, m, turns)[j].turn.now >=
            Log(cfg, m, turns)[i].turn.trimEnd + TrimCooldown(Log(cfg, m, turns)[j].trim)
    decreases |turns|
  {
    hide Pass, Exits, Past;
    LogTail(cfg, m, turns);
    PassSteps(cfg, m, turns[0]);
    hide Log, ClockMonotone;
    LogAt(cfg, m, turns, j);
    var e := Pass(cfg, m, turns[0]);
    if i > 0 {
      LogAt(cfg, m, turns, i);
      TrimsKeepCooldown(cfg, e.after, turns[1..], i - 1, j - 1);
    } else {
      TrimAfterMemory(cfg, e.after, turns[1..], j - 1);
    }
  }

  /** The growth baseline never exceeds the RSS a pass settled on; only a trim can raise it. */
  lemma {:induction false} BaselineFollowsRss(cfg: Config, m: Memory, turns: seq<Turn>, j: nat)
    requires j < |Log(cfg, m, turns)|
    ensures var e := Log(cfg, m, turns)[j];
            && (e.finalRss.Some? ==> e.after.baselineMb <= e.finalRss.value)
            && (e.after.baselineMb > (if j == 0 then m else Log(cfg, m, turns)[j - 1].after).baselineMb ==>
                  !e.trim.NoTrim?)
    decreases |turns|
  {
    if j > 0 {
      var e := Pass(cfg, m, turns[0]);
      BaselineFollowsRss(cfg, e.after, turns[1..], j - 1);
      assert Log(cfg, m, turns)[1..] == Log(cfg, e.after, turns[1..]);
    }
  }

  /** Readings are `u64`. */
  predicate ReadingsFit(turns: seq<Turn>)
  {
    forall k :: 0 <= k < |turns| ==>
      && (turns[k].reading.Some? ==> turns[k].reading.value.rssMb <= U64_MAX)
      && (turns[k].afterTrim.Some? ==> turns[k].afterTrim.value.rssMb <= U64_MAX)
  }

  /** Over every run, the growth that the log line of a growth trim subtracts does not underflow. */
  lemma {:induction false} GrowthIsNotNegative(cfg: Config, m: Memory, turns: seq<Turn>, j: nat)
    requires ReadingsFit(turns) && m.baselineMb <= U64_MAX
    requires j < |Log(cfg, m, turns)| && Log(cfg, m, turns)[j].trim == GrowthTrim
    ensures var before := if j == 0 then m else Log(cfg, m, turns)[j - 1].after;
            && Log(cfg, m, turns)[j].turn.reading.Some?
            && Log(cfg, m, turns)[j].turn.reading.value.rssMb >= before.baselineMb
    decreases |turns|
  {
    var e := Pass(cfg, m, turns[0]);
    if j > 0 {
      assert e.after.baselineMb <= U64_MAX;
      assert Log(cfg, m, turns)[1..] == Log(cfg, e.after, turns[1..]);
      GrowthIsNotNegative(cfg, e.after, turns[1..], j - 1);
    }
  }

  /** A daemon that goes on to another pass after retiring was still within its grace. */
  lemma {:induction false} RetiredDaemonMeetsItsDeadline(cfg: Config, m: Memory, turns: seq<Turn>, i: nat, j: nat)
    requires ClockMonotone(turns) && (turns != [] ==> Past(m, turns[0].now))
    requires i <= j < |Log(cfg, m, turns)| - 1 && Log(cfg, m, turns)[i].Retired()
    ensures var since := Log(cfg, m, turns)[i].after.retiringSince;
            && since == Some(if Log(cfg, m, turns)[i].memoryRetired
                             then Log(cfg, m, turns)[i].turn.retiredAt else Log(cfg, m, turns)[i].turn.replacedAt)
            && Log(cfg, m, turns)[j].after.retiringSince == since
            && Log(cfg, m, turns)[j].turn.live > 0
            && (cfg.grace > 0 ==> Log(cfg, m, turns)[j].turn.checkedAt < since.value + cfg.grace)
    decreases |turns|
  {
    LogTail(cfg, m, turns);
    PassSteps(cfg, m, turns[0]);
    var e, rest := Pass(cfg, m, turns[0]), Log(cfg, m, turns)[1..];
    hide Pass, Log, Past, ClockMonotone;
    assert forall k :: 0 < k < |rest| + 1 ==> Log(cfg, m, turns)[k] == rest[k - 1];
    if i > 0 {
      RetiredDaemonMeetsItsDeadline(cfg, e.after, turns[1..], i - 1, j - 1);
    } else if j > 0 {
      RetiringSinceIsFixed(cfg, e.after, turns[1..], j - 1);
    }
  }

  lemma {:induction false} RetiringSinceIsFixed(cfg: Config, m: Memory, turns: seq<Turn>, j: nat)
    requires ClockMonotone(turns) && (turns != [] ==> Past(m, turns[0].now))
    requires j < |Log(cfg, m, turns)| - 1 && m.retiring && m.retiringSince.Some?
    ensures var e := Log(cfg, m, turns)[j];
            && e.after.retiring && e.after.retiringSince == m.retiringSince && e.turn.live > 0
            && (cfg.grace > 0 ==> e.turn.checkedAt < m.retiringSince.value + cfg.grace)
    decreases |turns|
  {
    LogTail(cfg, m, turns);
    PassSteps(cfg, m, turns[0]);
    if j > 0 {
      RetiringSinceIsFixed(cfg, Pass(cfg, m, turns[0]).after, turns[1..], j - 1);
    }
  }

  // ------------------------------------------------- what each pass must do

  /** The memory the `j`-th pass starts with. */
  function Before(log: seq<Entry>, m: Memory, j: nat): Memory
    requires j <= |log|
  {
    if j == 0 then m else log[j - 1].after
  }

  lemma {:induction false} EntryIsPass(cfg: Config, m: Memory, turns: seq<Turn>, j: nat)
    requires j < |Log(cfg, m, turns)|
    ensures Log(cfg, m, turns)[j] == Pass(cfg, Before(Log(cfg, m, turns), m, j), turns[j])
    decreases |turns|
  {
    if j > 0 {
      var e := Pass(cfg, m, turns[0]);
      assert Log(cfg, m, turns)[1..] == Log(cfg, e.after, turns[1..]);
      hide Pass;
      EntryIsPass(cfg, e.after, turns[1..], j - 1);
    }
  }

  /** The two things a pass can do that call for rest afterwards. */
  datatype Effort = Unloading | Trimming
  {
    predicate In(e: Entry) { if Unloading? then e.Unloaded() else !e.trim.NoTrim? }

    function End(e: Entry): Secs { if Unloading? then e.turn.unloadEnd else e.turn.trimEnd }

    function Last(m: Memory): Option<Secs> { if Unloading? then m.lastUnload else m.lastTrim }
  }

  lemma PassRecords(cfg: Config, m: Memory, t: Turn, effort: Effort)
    ensures var e := Pass(cfg, m, t);
            && e.turn == t
            && effort.Last(e.after) == if effort.In(e) then Some(effort.End(e)) else effort.Last(m)
  {
    hide WatchdogTick;
  }

  /** What the loop remembers is the last effort there was. */
  lemma {:induction false} LastIsRemembered(cfg: Config, m: Memory, turns: seq<Turn>, j: nat, effort: Effort)
    returns (i: Option<nat>)
    requires j <= |Log(cfg, m, turns)|
    ensures var log := Log(cfg, m, turns);
            if i.None? then
              && effort.Last(Before(log, m, j)) == effort.Last(m)
              && (forall l :: 0 <= l < j ==> !effort.In(log[l]))
            else
              && i.value < j && effort.In(log[i.value])
              && effort.Last(Before(log, m, j)) == Some(effort.End(log[i.value]))
              && (forall l :: i.value < l < j ==> !effort.In(log[l]))
  {
    i := None;
    if j > 0 {
      EntryIsPass(cfg, m, turns, j - 1);
      PassRecords(cfg, Before(Log(cfg, m, turns), m, j - 1), turns[j - 1], effort);
      hide Pass, Log;
      if effort.In(Log(cfg, m, turns)[j - 1]) {
        i := Some(j - 1);
      } else {
        i := LastIsRemembered(cfg, m, turns, j - 1, effort);
      }
    }
  }

  /** At the start of the `j`-th pass every earlier effort, and the one remembered at first, is `rest` ago. */
  ghost predicate Rested(log: seq<Entry>, m: Memory, j: nat, effort: Effort, rest: Secs)
    requires j < |log|
  {
    && (effort.Last(m).Some? ==> effort.Last(m).value + rest <= log[j].turn.now)
    && (forall i :: 0 <= i < j && effort.In(log[i]) ==> effort.End(log[i]) + rest <= log[j].turn.now)
  }

  lemma TurnsOfLog(cfg: Config, m: Memory, turns: seq<Turn>, j: nat)
    requires j < |Log(cfg, m, turns)|
    ensures Log(cfg, m, turns)[j].turn == turns[j]
  {
    EntryIsPass(cfg, m, turns, j);
    PassRecords(cfg, Before(Log(cfg, m, turns), m, j), turns[j], Trimming);
    hide Pass, Log;
  }

  lemma EffortsAscend(cfg: Config, m: Memory, turns: seq<Turn>, i: nat, j: nat, effort: Effort)
    requires ClockMonotone(turns) && i < j < |Log(cfg, m, turns)|
    ensures effort.End(Log(cfg, m, turns)[i]) <= Log(cfg, m, turns)[j].turn.now
    ensures Log(cfg, m, turns)[i].turn.now <= effort.End(Log(cfg, m, turns)[i])
  {
    TurnsOfLog(cfg, m, turns, i);
    TurnsOfLog(cfg, m, turns, j);
    hide Log;
  }

  lemma FirstBefore(cfg: Config, m: Memory, turns: seq<Turn>, j: nat)
    requires ClockMonotone(turns) && j < |Log(cfg, m, turns)| && Past(m, turns[0].now)
    ensures Past(m, Log(cfg, m, turns)[j].turn.now)
  {
    TurnsOfLog(cfg, m, turns, j);
    hide Log;
    assert turns[0].Ordered();
  }

  /** Being rested can be read off what the loop remembers. */
  lemma RestedIff(cfg: Config, m: Memory, turns: seq<Turn>, j: nat, effort: Effort, rest: Secs)
    requires ClockMonotone(turns) && j < |Log(cfg, m, turns)| && Past(m, turns[0].now)
    ensures var log := Log(cfg, m, turns);
            var since := Elapsed(effort.Last(Before(log, m, j)), turns[j].now);
            Rested(log, m, j, effort, rest) <==> since.None? || since.value >= rest
  {
    var log := Log(cfg, m, turns);
    var last := LastIsRemembered(cfg, m, turns, j, effort);
    TurnsOfLog(cfg, m, turns, j);
    FirstBefore(cfg, m, turns, j);
    forall i | 0 <= i < j
      ensures effort.End(log[i]) <= log[j].turn.now
      ensures last.Some? && i < last.value ==> effort.End(log[i]) <= effort.End(log[last.value])
    {
      EffortsAscend(cfg, m, turns, i, j, effort);
      if last.Some? && i < last.value {
        EffortsAscend(cfg, m, turns, i, last.value, effort);
        EffortsAscend(cfg, m, turns, last.value, j, effort);
      }
    }
    if last.Some? {
      FirstBefore(cfg, m, turns, last.value);
      EffortsAscend(cfg, m, turns, last.value, j, effort);
    }
    hide Log, ClockMonotone;
  }

  /** Everything one pass does, given what it found. */
  ghost predicate Does(cfg: Config, before: Memory, e: Entry, rested: bool, trimRested: bool, growthRested: bool)
  {
    var t := e.turn;
    && (t.reading.None? ==> e.action == Nothing && e.trim == NoTrim && e.finalRss == None)
    && (t.reading.Some? ==>
          var r := t.reading.value;
          var trimmed := if t.afterTrim.Some? then t.afterTrim.value else r;
          && (e.trim == PressureTrim <==>
                trimRested && Demanded(r, cfg.limits, rested, before.retiring) != Nothing)
          && (e.trim == GrowthTrim <==>
                e.trim != PressureTrim && growthRested && cfg.growthMb > 0
                && Min(before.baselineMb + cfg.growthMb, U64_MAX) <= r.rssMb)
          && e.action
             == Demanded(if e.trim == PressureTrim then trimmed else r, cfg.limits, rested, before.retiring)
          && e.finalRss == Some(if e.trim == NoTrim then r.rssMb else trimmed.rssMb))
    && (e.memoryRetired <==> e.action == RetireAndUnload)
    && (e.binaryRetired <==> t.replaced && !before.retiring && !e.memoryRetired)
    && (e.after.retiring <==> before.retiring || e.memoryRetired || e.binaryRetired)
  }

  lemma PassDoes(cfg: Config, m: Memory, t: Turn)
    ensures var sinceUnload, sinceTrim := Elapsed(m.lastUnload, t.now), Elapsed(m.lastTrim, t.now);
            Does(cfg, m, Pass(cfg, m, t), sinceUnload.None? || sinceUnload.value >= cfg.limits.cooldown,
                 sinceTrim.None? || sinceTrim.value >= TRIM_COOLDOWN,
                 sinceTrim.None? || sinceTrim.value >= GROWTH_TRIM_COOLDOWN)
  {
    var sinceUnload := Elapsed(m.lastUnload, t.now);
    if t.reading.Some? {
      var r := t.reading.value;
      DecideIsDemanded(r, cfg.limits, sinceUnload, m.retiring);
      DecideIsDemanded(if t.afterTrim.Some? then t.afterTrim.value else r, cfg.limits, sinceUnload, m.retiring);
    }
    hide Decide, Demanded;
  }

  /**
    Over every run, what a pass does is determined by what it reads, by the baseline, by whether the daemon
    has retired, and by how long the efforts before it are over: both directions, for every kind of trim and action.
   */
  lemma EachPassDoes(cfg: Config, m: Memory, turns: seq<Turn>, j: nat)
    requires ClockMonotone(turns) && j < |Log(cfg, m, turns)| && Past(m, turns[0].now)
    ensures var log := Log(cfg, m, turns);
            Does(cfg, Before(log, m, j), log[j], Rested(log, m, j, Unloading, cfg.limits.cooldown),
                 Rested(log, m, j, Trimming, TRIM_COOLDOWN), Rested(log, m, j, Trimming, GROWTH_TRIM_COOLDOWN))
  {
    EntryIsPass(cfg, m, turns, j);
    PassDoes(cfg, Before(Log(cfg, m, turns), m, j), turns[j]);
    hide Log, Pass, Does, ClockMonotone, Past, Rested;
    RestedIff(cfg, m, turns, j, Unloading, cfg.limits.cooldown);
    RestedIff(cfg, m, turns, j, Trimming, TRIM_COOLDOWN);
    RestedIff(cfg, m, turns, j, Trimming, GROWTH_TRIM_COOLDOWN);
  }

  /** A pass on a machine that is short, before and after any trim, unloads unless an unload is within its cooldown. */
  lemma ShortMachineIsRelieved(cfg: Config, m: Memory, turns: seq<Turn>, j: nat)
    requires ClockMonotone(turns) && j < |Log(cfg, m, turns)| && Past(m, turns[0].now)
    requires turns[j].reading.Some? && MachineIsShort(turns[j].reading.value, cfg.limits)
    requires turns[j].afterTrim.Some? ==> MachineIsShort(turns[j].afterTrim.value, cfg.limits)
    requires Rested(Log(cfg, m, turns), m, j, Unloading, cfg.limits.cooldown)
    ensures Log(cfg, m, turns)[j].Unloaded()
  {
    TurnsOfLog(cfg, m, turns, j);
    EachPassDoes(cfg, m, turns, j);
    hide Log, ClockMonotone, Rested;
  }

  /** Nothing is unloaded and nobody retired on a raw reading, unless the last trim is within its cooldown. */
  lemma ActionsAreSettled(cfg: Config, m: Memory, turns: seq<Turn>, j: nat)
    requires ClockMonotone(turns) && j < |Log(cfg, m, turns)| && Past(m, turns[0].now)
    requires Log(cfg, m, turns)[j].Unloaded() && Rested(Log(cfg, m, turns), m, j, Trimming, TRIM_COOLDOWN)
    ensures Log(cfg, m, turns)[j].trim == PressureTrim
    ensures turns[j].afterTrim.Some? ==>
              Demanded(turns[j].afterTrim.value, cfg.limits,
                       Rested(Log(cfg, m, turns), m, j, Unloading, cfg.limits.cooldown),
                       Before(Log(cfg, m, turns), m, j).retiring) != Nothing
  {
    TurnsOfLog(cfg, m, turns, j);
    EachPassDoes(cfg, m, turns, j);
    hide Log, ClockMonotone, Rested, Demanded;
  }

  lemma PassMovesBaseline(cfg: Config, m: Memory, t: Turn)
    ensures var e := Pass(cfg, m, t);
            && (e.trim == NoTrim && e.finalRss.None? ==> e.after.baselineMb == m.baselineMb)
            && (e.trim == NoTrim && e.finalRss.Some? ==> e.after.baselineMb == Min(m.baselineMb, e.finalRss.value))
            && (e.trim != NoTrim ==> e.finalRss == Some(e.after.baselineMb))
  {
    hide WatchdogTick;
  }

  /**
    The growth baseline is the lowest RSS settled on since the last trim, which counts itself; before any trim
    also not above the baseline at first. `at` is the pass it was read in, if it is not still the first one.
   */
  lemma {:induction false} BaselineIsLowest(cfg: Config, m: Memory, turns: seq<Turn>, j: nat) returns (at: Option<nat>)
    requires j < |Log(cfg, m, turns)|
    ensures var log := Log(cfg, m, turns);
            var baseline := log[j].after.baselineMb;
            && (at.None? ==> baseline == m.baselineMb && forall l :: 0 <= l <= j ==> log[l].trim == NoTrim)
            && (at.Some? ==>
                  && at.value <= j && log[at.value].finalRss == Some(baseline)
                  && (forall l :: at.value < l <= j ==> log[l].trim == NoTrim))
            && (forall i :: 0 <= i <= j && log[i].finalRss.Some?
                            && (forall l :: i < l <= j ==> log[l].trim == NoTrim) ==>
                  baseline <= log[i].finalRss.value)
            && ((forall l :: 0 <= l <= j ==> log[l].trim == NoTrim) ==> baseline <= m.baselineMb)
  {
    var log := Log(cfg, m, turns);
    EntryIsPass(cfg, m, turns, j);
    PassMovesBaseline(cfg, Before(log, m, j), turns[j]);
    hide Pass, Log;
    at := None;
    if j > 0 {
      at := BaselineIsLowest(cfg, m, turns, j - 1);
    }
    if log[j].trim != NoTrim || log[j].finalRss == Some(log[j].after.baselineMb) {
      at := Some(j);
    }
  }

  /** Why the loop ends: nobody is left after retiring, the grace is over, or the daemon has idled long enough. */
  ghost predicate HasCause(cfg: Config, e: Entry)
  {
    || (e.after.retiring && e.turn.live == 0)
    || (e.after.retiring && cfg.grace > 0 && e.after.retiringSince.Some?
        && e.after.retiringSince.value + cfg.grace <= e.turn.checkedAt)
    || e.turn.idleExpired
  }

  /** The loop ends with the first pass that gives cause, and with no other, while the world supplies turns. */
  lemma {:induction false} LoopEndsIff(cfg: Config, m: Memory, turns: seq<Turn>, j: nat)
    requires j < |Log(cfg, m, turns)|
    ensures j == |Log(cfg, m, turns)| - 1 && j < |turns| - 1 ==> HasCause(cfg, Log(cfg, m, turns)[j])
    ensures j < |Log(cfg, m, turns)| - 1 ==> !HasCause(cfg, Log(cfg, m, turns)[j])
    ensures turns != [] ==> Log(cfg, m, turns) != []
    decreases |turns|
  {
    var e := Pass(cfg, m, turns[0]);
    var rest := Log(cfg, e.after, turns[1..]);
    assert Exits(cfg, e) <==> HasCause(cfg, e);
    assert Log(cfg, m, turns) == [e] + (if Exits(cfg, e) then [] else rest);
    assert |turns| > 1 ==> rest != [];
    hide Pass, Exits, HasCause;
    if j > 0 {
      LoopEndsIff(cfg, e.after, turns[1..], j - 1);
    }
  }
}
