# Verified model of the engine's hard core

This project models the parts of the code-search server whose correctness is
hard to see from the code, and proves what each part is for.

- **GPU session broker** (`Broker`, `BrokerProtocol`, `BrokerSafety`,
  `BrokerTheorems`, `BrokerLiveness`, `BrokerRefinement`, `BrokerWindow`). A
  slot per session key, a rank per caller, one mutex and one condition variable.
  `Broker.SlotTable` is the table behind the mutex, one method per critical
  section. `BrokerProtocol` is the state machine: any interleaving of any number
  of calls, with spurious wake-ups, failing and unwinding creations, panicking
  runs, idle release, and with `notify_all` as a step separate from the unlock
  before it. `BrokerRefinement` proves that the table's methods take exactly
  these steps. The theorems speak of every state of every run.
- **Daemon lifecycle** (`Socket`, `SocketProgress`, `Watchdog`). Clients and
  daemons sharing one socket path, one system call on the path per step; and the
  memory watchdog with the variables its loop carries, driven by arbitrary
  readings and a clock that does not run backwards.
- **Planners** (`GreedyCuts`, `Batching`, `Split`, `Eviction`, on `Sorting`
  and `Collections`). Batch planning and leaf splitting are the same greedy cut
  under two tests.
- **Codec and arithmetic** (`Identity` on `Unicode`, `Calendar`, `Intervals`).
- **Graph tools** (`StableCores` on `Components`, `Bypass`).

Code that updates state in loops is modelled by methods with loops (the broker's
table by a class), each proved equal to a specification function or predicate;
the theorems are about these specifications. `dafny verify dfyconfig.toml`
verifies everything.

Five findings about the code, each stated exactly:

- The timestamp parser accepts days past the end of a month, negative hours and
  minutes, and any seconds; what it accepts survives the round trip exactly when
  date and time are valid (`Calendar.RoundTripIffValid`, `ClockShowsTimestampIff`).
- `union_len` subtracts an interval that ends before it starts and merges with
  nothing; the judge never passes one (`Intervals.UnionLen`).
- A watchdog tick can be harsher than its raw reading, exactly when RSS rises
  across the hard limit during the trim (`Watchdog.HarsherExactlyWhen`; with numbers,
  `Watchdog.TrimCanEndInRetirement`).
- The parts of a split leaf rejoin to its lines; they rejoin to its text exactly
  when no line end is a trailing newline or CR LF (`Split.JoinLinesIff`,
  `TrailingNewlineIsLost`).
- One socket owner depends on the lock holder surviving its child's start;
  otherwise two live daemons can own the path
  (`Socket.CarelessHolderBreaksOwnership`, `TwoOwnersAreReachable`).

## Model

| member | source | states |
|---|---|---|
| `Broker.SlotTable.SlotIndex` | crates/rmc-engine/src/embeddings/gpu_broker.rs:186-198 | finds the slot of a key or appends one; keys stay distinct and no other slot moves |
| `Broker.SlotTable.Enter` | crates/rmc-engine/src/embeddings/gpu_broker.rs:211-245 | entering `grant`: the caller is registered under its rank and makes its first attempt; the whole new table is stated |
| `Broker.SlotTable.TryTake` | crates/rmc-engine/src/embeddings/gpu_broker.rs:216-245 | one pass of the wait loop: blocked if outranked or busy, otherwise takes the idle session or claims the creation; every other slot is unchanged |
| `Broker.SlotTable.EnterEnsure` | crates/rmc-engine/src/embeddings/gpu_broker.rs:300-305 | `ensure` claims the slot only if it is empty and touches nothing otherwise, whatever ranks wait |
| `BrokerTheorems.FailedCreationLeavesNoTrace` | crates/rmc-engine/src/embeddings/gpu_broker.rs:156-176 | over every run: from the claim of a slot to the failure or unwinding of its creation, whatever others do meanwhile, the slot ends up in the state and with the creations and grants it had before the claim |
| `BrokerTheorems.EnsureCountsOneCreation` | crates/rmc-engine/src/embeddings/gpu_broker.rs:294-312 | over every run: a completed `ensure` adds one creation and no grant to its slot, whatever others do meanwhile |
| `BrokerTheorems.ClaimIsUndisturbed` | crates/rmc-engine/src/embeddings/gpu_broker.rs:205-333 | over every run: between two steps of a claimant nobody else changes the state, creations or grants of its slot |
| `BrokerRefinement.Perform` | crates/rmc-engine/src/embeddings/gpu_broker.rs:120-333 | every critical section of the table, executed as the event of a call, leaves the table and the phases of all calls exactly where the protocol's `Next` puts them, and `take_idle` hands out what `StaleSessions` says |
| `BrokerRefinement.Replay` | crates/rmc-engine/src/embeddings/gpu_broker.rs:120-333 | given only the events of any run, the critical sections lead an empty table and no calls to the table and the phases of the run's last state, so the theorems over runs are about what the code does |
| `Broker.SlotTable.PublishCreated` | crates/rmc-engine/src/embeddings/gpu_broker.rs:268-275 | a finished creation becomes a counted creation and a counted grant |
| `Broker.SlotTable.DropGrant` | crates/rmc-engine/src/embeddings/gpu_broker.rs:120-151 | a dropped grant returns the session to the slot, or empties the slot and discards the session if the run panicked |
| `Broker.SlotTable.TakeIdle` | crates/rmc-engine/src/embeddings/gpu_broker.rs:316-333 | exactly the sessions that lie idle since a moment at least the limit ago are handed out, in slot order and once each, and exactly their slots become empty; said in terms of the clock, slot by slot |
| `BrokerTheorems.IdleSessionIsTakenIff` | crates/rmc-engine/src/embeddings/gpu_broker.rs:134-333 | over every run: a session dropped without panic, and idle in its slot ever since, is handed out by `take_idle` exactly if the time since the drop has reached the limit, and otherwise stays with its date |
| `BrokerSafety.NextKeepsInv` | crates/rmc-engine/src/embeddings/gpu_broker.rs:120-333 | every event, in any interleaving of any number of calls and keys, keeps the invariant: slots and claims correspond one to one, sessions stay with their slot, waiting counters count registered callers, creations and grants balance, and every sleeper has a reason to sleep |
| `BrokerTheorems.RunKeepsInv` | crates/rmc-engine/src/embeddings/gpu_broker.rs:120-333 | the invariant holds in every state of every run |
| `BrokerTheorems.NoLostWakeup` | crates/rmc-engine/src/embeddings/gpu_broker.rs:120-333 | in every reachable state a best-ranked waiter of a free slot is awake, unless a call that changed this very slot is still between its unlock and its `notify_all`; although `take_idle` never notifies and one condvar serves all slots |
| `BrokerTheorems.FreeSlotIsNotStranded` | crates/rmc-engine/src/embeddings/gpu_broker.rs:205-246 | whenever somebody waits for a free slot and no notification of that slot is outstanding, a best-ranked waiter can run now, and its pass claims the slot |
| `BrokerLiveness.EveryWaiterCanBeServed` | crates/rmc-engine/src/embeddings/gpu_broker.rs:205-312 | in every reachable state each waiting call, however many better-ranked ones are ahead of it, has a continuation that ends with it holding the session; the continuation needs no new caller, no spurious wake-up, no failed creation and no panic |
| `BrokerWindow.SleeperInTheWindow` | crates/rmc-engine/src/embeddings/gpu_broker.rs:145-146 | the exception is real: a run whose last state has the head of a free slot asleep, with that slot's notification to come |
| `BrokerTheorems.OneSessionOnePlace` | crates/rmc-engine/src/embeddings/gpu_broker.rs:74-112 | in every reachable state a live session is in exactly one place (an idle slot or one call) and a slot has at most one session |
| `BrokerTheorems.OneClaimPerKey` | crates/rmc-engine/src/embeddings/gpu_broker.rs:205-312 | no two grants or creations of one key coexist, and none exists while the slot is free |
| `BrokerTheorems.GrantIsRecorded` | crates/rmc-engine/src/embeddings/gpu_broker.rs:221-279 | over every run, a slot just taken or published records the holder's owner and this moment |
| `BrokerTheorems.BeginIsNotOutranked` | crates/rmc-engine/src/embeddings/gpu_broker.rs:211-245 | a `grant` that takes an idle session or starts a creation has a rank no worse than every caller registered on that slot |
| `BrokerTheorems.NoOvertaking` | crates/rmc-engine/src/embeddings/gpu_broker.rs:211-245 | from the moment a call is registered until it is served, no `grant` of a worse rank begins on its slot, whatever happens in between |
| `BrokerTheorems.UrgentIsNotOvertaken` | crates/rmc-engine/src/embeddings/gpu_broker.rs:51-245 | the same by owners, with no rank named: while a search or rerank waits no other owner is started on its slot, and while an index pass or tool waits no cache or census is |
| `BrokerTheorems.TallyIsHistory` | crates/rmc-engine/src/embeddings/gpu_broker.rs:205-333 | the tallies used in the accounting are the number of steps of the run that served, took or discarded |
| `BrokerTheorems.Accounting` | crates/rmc-engine/src/embeddings/gpu_broker.rs:215-333 | at every moment of every run `waiting[r]` is the number of registered callers of rank r, `created` is live plus taken plus discarded sessions, and `grants` is the number of served `grant` calls plus one while an `ensure` is between its two critical sections |
| `BrokerTheorems.NoUnderflow` | crates/rmc-engine/src/embeddings/gpu_broker.rs:223-309 | no decrement of `waiting` or `grants` takes the counter below zero |
| `Socket.NextKeepsInv` | crates/rust-code-mcp/src/daemon.rs:1373-1432 | every step of clients and daemons keeps the invariant: one lock holder, an unbound child is awaited by the holder, the path leads to its owner and to nobody else alive, and what the holder learned from its failed re-check stays true until it spawns |
| `Socket.OneOwner` | crates/rust-code-mcp/src/daemon.rs:1373-1432 | in every state of every run at most one daemon is bound and has neither retired nor done its exit cleanup, and a connect to the path reaches it |
| `SocketProgress.ConnectionIsPossibleIff` | crates/rust-code-mcp/src/daemon.rs:1373-1432 | at every moment of every run a client whose first connect failed has a continuation to a connection, by steps of the programs themselves and whoever holds the lock, exactly unless something other than a socket lies at the path; then no continuation connects anybody |
| `Socket.TwoOwnersAreReachable` | crates/rust-code-mcp/src/daemon.rs:1560-1587 | from an empty directory, a lock holder's death during its child's start leads to two owners of the path |
| `Socket.RemovalsAreOwnOrDead` | crates/rust-code-mcp/src/daemon.rs:1402-1413 | every removal of the file takes the remover's own socket or a dead daemon's; a client never removes a live daemon's socket |
| `Socket.RetiredLeavesThePathAlone` | crates/rust-code-mcp/src/daemon.rs:2005-2007 | after retiring, a daemon never touches the path again, with or without the assumption on lock holders; so it never removes a successor's socket |
| `Socket.CarelessHolderBreaksOwnership` | crates/rust-code-mcp/src/daemon.rs:1560-1587 | the assumption on lock holders is needed: from any state that keeps the invariant, after any single step that breaks the assumption, further enabled steps lead to two owners of the path |
| `Watchdog.RunLoop` | crates/rust-code-mcp/src/daemon.rs:1704-2008 | the loop from startup to exit produces `Log`, the object of the theorems below |
| `Watchdog.UnloadIff` | crates/rust-code-mcp/src/daemon.rs:709-755 | exactly when a decision is to retire and when to unload: known memory below the floor unloads a rested daemon whatever its RSS; memory at the floor, or unreadable, leaves the decision to RSS |
| `Watchdog.EachPassDoes` | crates/rust-code-mcp/src/daemon.rs:1778-1942 | over every run, in both directions: what a pass does (either kind of trim, either action, retirement by memory or by a replaced binary, the RSS it settles on) is determined by its readings, the baseline, earlier retirement, and how long all earlier unloads and trims are over |
| `Watchdog.ShortMachineIsRelieved` | crates/rust-code-mcp/src/daemon.rs:744-754 | over every run, a pass on a machine short before and after any trim unloads, unless an unload is within its cooldown |
| `Watchdog.ActionsAreSettled` | crates/rust-code-mcp/src/daemon.rs:815-848 | over every run, no limit acts on a raw reading: a pass that unloads or retires has just trimmed and still found reason to, unless a trim is within its cooldown |
| `Watchdog.DecideMonotone` | crates/rust-code-mcp/src/daemon.rs:709-755 | a better reading never gets a harsher decision |
| `Watchdog.RetiringOnlyBarsTheHardLimit` | crates/rust-code-mcp/src/daemon.rs:716-755 | a retiring daemon decides as one without a hard limit |
| `Watchdog.ImprovingTrimIsNoHarsher` | crates/rust-code-mcp/src/daemon.rs:815-848 | a trim that only improves the reading is never followed by a harsher action than the raw reading asked for |
| `Watchdog.HarsherExactlyWhen` | crates/rust-code-mcp/src/daemon.rs:815-848 | for arbitrary readings after the trim: the tick acts more harshly than the raw reading exactly when a trim was made for an unload and RSS rose across the hard limit meanwhile |
| `Watchdog.RetiresAtMostOnce` | crates/rust-code-mcp/src/daemon.rs:1865-1942 | over every run, last pass included, the retirements by memory and by a replaced binary together are at most one, and none if the daemon had retired before |
| `Watchdog.RetiredIffItRetired` | crates/rust-code-mcp/src/daemon.rs:1865-1942 | over every run, the daemon ends up retired exactly when it was before or retired once |
| `Watchdog.UnloadsKeepCooldown` | crates/rust-code-mcp/src/daemon.rs:751-1901 | over every run, a plain unload is decided at least the cooldown after the end of every earlier unload of either kind |
| `Watchdog.TrimsKeepCooldown` | crates/rust-code-mcp/src/daemon.rs:1779-1837 | over every run, a pressure trim and a growth trim each keep their own cooldown from every earlier trim of either kind |
| `Watchdog.BaselineFollowsRss` | crates/rust-code-mcp/src/daemon.rs:1797-1841 | over every run, the trim baseline never exceeds the RSS a pass settled on, and only a trim can raise it |
| `Watchdog.BaselineIsLowest` | crates/rust-code-mcp/src/daemon.rs:1708-1841 | over every run, the baseline is the lowest RSS settled on since the last trim, that trim's own included; before any trim, since the startup reading |
| `Watchdog.RetiredDaemonMeetsItsDeadline` | crates/rust-code-mcp/src/daemon.rs:1892-1999 | over every run, a pass of a retired daemon that is not its last has live clients, the retirement moment is the one when it retired and is never moved, and with a grace period the pass ends before it is over |
| `Watchdog.LoopEndsIff` | crates/rust-code-mcp/src/daemon.rs:1970-1999 | the loop ends with the first pass after which nobody is left in a retired daemon, the grace is over, or the daemon has idled out, and with no other |
| `Watchdog.GrowthIsNotNegative` | crates/rust-code-mcp/src/daemon.rs:1809-1835 | over every run, the growth a growth trim reports is computed without underflow |
| `GreedyCuts.GreedyIsUnique` | crates/rmc-engine/src/embeddings/batching.rs:24-47 | for a given test there is only one greedy cut, so a contract that says greedy determines the result |
| `GreedyCuts.GreedyIsOptimal` | crates/rmc-engine/src/embeddings/batching.rs:24-47 | for a test that is inherited by sub-ranges, no contiguous cut obeying it has fewer pieces than the greedy one |
| `Batching.PlanBatches` | crates/rmc-engine/src/embeddings/batching.rs:7-50 | the loop yields contiguous batches covering the input exactly once, each a singleton or within row limit and rows times longest item, none but the last extendable |
| `Batching.PlanIsOptimal` | crates/rmc-engine/src/embeddings/batching.rs:7-50 | no contiguous partition obeying the limits has fewer batches than the plan |
| `Batching.PlanIsWithinLimits` | crates/rmc-engine/src/embeddings/batching.rs:17-50 | item by item: a batch of several has at most the permitted rows, and its rows times each of its items, and times one token, stay within the budget; every batch but the last would break a limit with the next item |
| `Batching.FixedCovers` | crates/rmc-engine/src/embeddings/batching.rs:162-171 | the fixed-row plan covers the input exactly once with full batches and a last one no larger |
| `Batching.BudgetPlanIsFixedIff` | crates/rmc-engine/src/embeddings/batching.rs:162-171 | the budgeted plan equals the fixed-row plan exactly when every fixed batch is a singleton or within the budget |
| `Split.CutLeaf` | crates/rmc-engine/src/chunker/split.rs:87-122 | the cutting loop yields the greedy cut of the lines under the token target, with the parts' texts and line ranges |
| `Split.SplitLeaf` | crates/rmc-engine/src/chunker/split.rs:73-135 | a leaf comes back as itself, or as labelled parts at the greedy cut |
| `Split.JoinLinesIff` | crates/rmc-engine/src/chunker/split.rs:82-122 | joining a text's lines gives the text back exactly when it has no trailing newline and no CR LF; what splitting loses is exactly that |
| `Split.LinesWithTheirEnds` | crates/rmc-engine/src/chunker/split.rs:82 | the lines, each with its line end, put together are the text, and no line holds a line end: which determines them |
| `Split.PartsPartitionTheLeaf` | crates/rmc-engine/src/chunker/split.rs:73-159 | parts are numbered 1..n of n over contiguous line ranges from the first line to the last, and their contents joined are the chunk's lines |
| `Split.PartsAreGreedy` | crates/rmc-engine/src/chunker/split.rs:95-122 | every part of several lines measured within the target before it was labelled, and every part but the last would exceed it with one more line |
| `Split.ContextGoesFirst` | crates/rmc-engine/src/chunker/split.rs:141-159 | with the flag only part 1 keeps docstring, imports and calls; without it every part does; all parts keep the symbol's name, kind, file, module and parent |
| `Split.MarkElided` | crates/rmc-engine/src/chunker/split.rs:33-48 | marks exactly the oversized containers that strictly contain another chunk |
| `Split.TokenCountIs` | crates/rmc-engine/src/chunker/split.rs:161-168 | a count is taken as given, a chunk that cannot be counted is four characters to the token rounded up, and nothing counts as zero |
| `Split.StrictlyContainsIff` | crates/rmc-engine/src/chunker/split.rs:174-180 | containment of chunks is strict containment of their lines, within one file |
| `Split.DroppedIff` | crates/rmc-engine/src/chunker/split.rs:35-54 | a chunk has no piece in the output exactly if it is an `impl`, `module` or `trait` over the target with a chunk strictly inside it |
| `Split.SplitOversized` | crates/rmc-engine/src/chunker/split.rs:16-71 | the output is, chunk by chunk in input order: nothing for an elided container, the chunk itself if it fits, its split otherwise |
| `Split.ParentIsRecorded` | crates/rmc-engine/src/chunker/split.rs:56-60 | every piece in the output names as its parent the first of the tightest elided containers around its chunk, or keeps what the chunk said if there is none |
| `Split.EmittedWhole` | crates/rmc-engine/src/chunker/split.rs:56-67 | what is not dropped comes out as it was but for its parent, or in parts that hold all its lines |
| `Split.NearestIsTightest` | crates/rmc-engine/src/chunker/split.rs:182-195 | the search finds the first of the tightest elided containers around the chunk, and one whenever any exists |
| `Split.ElidedHoldsEmitted` | crates/rmc-engine/src/chunker/split.rs:33-54 | inside every elided container some chunk is emitted: eliding loses no region |
| `Split.NoRegionIsLost` | crates/rmc-engine/src/chunker/split.rs:16-71 | of every chunk the output holds a piece, or, if it was elided, a piece of a chunk strictly inside it; the piece has that chunk's symbol and file and starts on its first line |
| `Eviction.PlanEviction` | crates/rmc-engine/src/embeddings/kernel_cache.rs:71-108 | the loop computes `PlanSpec`, the object of the lemmas below |
| `Eviction.OrderOfListingIsIrrelevant` | crates/rmc-engine/src/embeddings/kernel_cache.rs:81-101 | with distinct paths the plan is the same for every order of the listing |
| `Eviction.KeepIsNeverRemoved` | crates/rmc-engine/src/embeddings/kernel_cache.rs:81-82 | the shape in use is never in the plan |
| `Eviction.RemovesShortestPrefix` | crates/rmc-engine/src/embeddings/kernel_cache.rs:81-101 | for every listing and cap: what is removed is the shortest prefix, least recently used first, that reaches the cap, everything removable if none does, and nothing without a cap |
| `Eviction.LeastRecentlyUsedGoesFirst` | crates/rmc-engine/src/embeddings/kernel_cache.rs:81-101 | nothing is removed before, or instead of, what was used less recently; equally old shapes go by their paths, compared from the left |
| `Eviction.BytesAreConserved` | crates/rmc-engine/src/embeddings/kernel_cache.rs:92-107 | the bytes reported as remaining are those of the kept shapes and of the shapes not reached |
| `Eviction.StillOverCapIff` | crates/rmc-engine/src/embeddings/kernel_cache.rs:102-107 | the flag is set exactly when there is a cap and the kept shape alone exceeds it |
| `Intervals.UnionLen` | crates/rust-code-mcp/src/tool_latency.rs:375-393 | for any intervals: the sweep returns the number of ticks they cover, less the lengths of intervals that end before they start and behind everything sorted before them; it is the measure of the union exactly when there is no such interval |
| `Intervals.OrderedHasNoDeficit` | crates/rust-code-mcp/src/tool_latency.rs:126-130 | there is none among intervals that do not end before they start, which is all `overlap` makes |
| `Intervals.UnionDependsOnPoints` | crates/rust-code-mcp/src/tool_latency.rs:375-393 | the covered set depends on neither the order nor the repetition of intervals |
| `Intervals.OverlapsOf` | crates/rust-code-mcp/src/tool_latency.rs:433-475 | `own` and `overlapped` of a call are the numbers of its ticks during which own work, respectively other work, of its process ran |
| `Intervals.BesideIff` | crates/rust-code-mcp/src/tool_latency.rs:433-461 | own work is the load of the call's workspace for an analysis tool or a build of it begun no earlier than the call; own and other work together are all that ran in the process |
| `Intervals.OverlapsAreWithinTheCall` | crates/rust-code-mcp/src/tool_latency.rs:433-475 | both figures lie between zero and the call's duration |
| `Calendar.MonthAndDayOfValid` | crates/rust-code-mcp/src/tool_latency.rs:147-190 | for every valid date the month and day `clock` derives are those `parse_timestamp` was given |
| `Calendar.DaysAreConsecutive` | crates/rust-code-mcp/src/tool_latency.rs:163-169 | consecutive dates get consecutive day numbers, and 1970-01-01 is day 0 |
| `Calendar.RoundTripIffValid` | crates/rust-code-mcp/src/tool_latency.rs:158-190 | the parser does not check the month's length: the date comes back exactly when it is valid, and otherwise as the matching day of the next month |
| `Calendar.ClockShowsTimestampIff` | crates/rust-code-mcp/src/tool_latency.rs:147-190 | of everything the parser accepts, `clock` shows the fields that were parsed exactly for valid dates with non-negative hour and minute and seconds in 0..60 |
| `Calendar.EpochIsZero` | crates/rust-code-mcp/src/tool_latency.rs:147-171 | said of `parse_timestamp` itself: midnight of 1 January 1970 is 0 |
| `Calendar.NextDayIsADayLater` | crates/rust-code-mcp/src/tool_latency.rs:147-171 | said of `parse_timestamp` itself: the same time on the next date of a valid date is 86400 more, over months, leap days and years |
| `Calendar.TimestampsAreSeconds` | crates/rust-code-mcp/src/tool_latency.rs:147-171 | said of `parse_timestamp` itself: on one day, a change of the time of day changes the result by its seconds |
| `Calendar.DayBeyondTheMonth` | crates/rust-code-mcp/src/tool_latency.rs:147-171 | said of `parse_timestamp` itself: a day beyond the month's end, which the parser accepts, is the matching day of the next month |
| `Calendar.ChronologicalIff` | crates/rust-code-mcp/src/tool_latency.rs:147-171 | for valid dates and times the order of the results is chronological order, and only equal times have equal results |
| `Calendar.EveryInstantIsParsed` | crates/rust-code-mcp/src/tool_latency.rs:147-190 | every instant is the timestamp of a valid date and time, and `clock` shows it |
| `Identity.RunPercentEncode` | crates/rmc-engine/src/embeddings/identity.rs:126-138 | the encoding loop computes `PercentEncode` |
| `Identity.RunPercentDecode` | crates/rmc-engine/src/embeddings/identity.rs:140-162 | the decoding loop computes `PercentDecode`, with its errors for broken escapes and invalid UTF-8 |
| `Identity.PercentRoundTrip` | crates/rmc-engine/src/embeddings/identity.rs:126-183 | decoding undoes encoding on every byte sequence, up to the check for UTF-8 |
| `Unicode.Utf8Iff` | crates/rmc-engine/src/embeddings/identity.rs:161 | the check on decoded bytes accepts exactly the encodings of sequences of scalar values, in the sense of section 3 of RFC 3629 |
| `Identity.PercentEncodeIs` | crates/rmc-engine/src/embeddings/identity.rs:126-174 | encoding is byte by byte; unreserved bytes other than the tilde stand for themselves, any other is a percent sign and two upper-case digits |
| `Identity.FromHexIff` | crates/rmc-engine/src/embeddings/identity.rs:176-183 | the digits of an escape are read in either case, and nothing else is |
| `Identity.EncodedIsPlain` | crates/rmc-engine/src/embeddings/identity.rs:126-138 | an encoded value holds neither `;` nor `=` |
| `Identity.NumberRoundTrip` | crates/rmc-engine/src/embeddings/identity.rs:99-103 | a printed `usize` parses back to itself |
| `Identity.ParseUsizeIff` | crates/rmc-engine/src/embeddings/identity.rs:99-103 | a number is read exactly from its decimal print, with any zeros and one plus sign in front |
| `Identity.RunDecode` | crates/rmc-engine/src/embeddings/identity.rs:33-84 | the loop over fields computes `Decode`, leaving at the first error |
| `Identity.EncodeReads` | crates/rmc-engine/src/embeddings/identity.rs:22-31 | the text of an identity, field by field with its keys |
| `Identity.DecodesToIff` | crates/rmc-engine/src/embeddings/identity.rs:33-84 | an input decodes to an identity exactly if the prefix is `emb`, every field parses, no known key comes twice, the version is 2 and the five other known fields are there and say what the identity is |
| `Identity.RoundTrip` | crates/rmc-engine/src/embeddings/identity.rs:22-84 | decoding an encoded identity gives it back, for every identity the types allow |
| `Identity.DecodedEncodesAlike` | crates/rmc-engine/src/embeddings/identity.rs:22-84 | whatever decodes can be encoded, and its encoding decodes to the same |
| `Identity.EncodeIsInjective` | crates/rmc-engine/src/embeddings/identity.rs:22-31 | different identities have different encodings |
| `Identity.CollectIffConsistent` | crates/rmc-engine/src/embeddings/identity.rs:47-93 | the slots fill without error exactly when no field is malformed and no known key comes twice, and then hold what the fields say |
| `Identity.FieldOrderIsIrrelevant` | crates/rmc-engine/src/embeddings/identity.rs:33-97 | inputs whose relevant fields are the same multiset both fail or decode to the same identity |
| `Identity.PermutationSaysTheSame` | crates/rmc-engine/src/embeddings/identity.rs:33-97 | permuting fields and adding fields with unknown keys leaves the relevant fields unchanged |
| `Identity.ReorderedInputDecodesAlike` | crates/rmc-engine/src/embeddings/identity.rs:33-97 | said of whole inputs: any permutation of the fields after the prefix, with any well-formed unknown fields inserted, fails or decodes alike |
| `StableCores.Classify` | tools/graph_experiment_report.py:56-58 | the dictionary of signatures, filled in one pass over the observed nodes, in insertion order |
| `StableCores.ExtractCores` | tools/graph_experiment_report.py:43-100 | the loops over classes and groups compute `ReportOf`, the object of the lemmas below |
| `StableCores.EveryNodeOnce` | tools/graph_experiment_report.py:43-100 | every node lands in exactly one of cores, small, uncertain and unobserved, once; nothing else lands anywhere |
| `StableCores.PlacedByOutcome` | tools/graph_experiment_report.py:56-97 | each observed node lands where a definition that looks at this node alone says |
| `StableCores.PlacedIff` | tools/graph_experiment_report.py:53-97 | in both directions, with the numbers: a run of one block makes every observed node uncertain; otherwise a node is uncertain, small or in a core exactly by four fifths of its largest block and the size three |
| `StableCores.ParentIsLargest` | tools/graph_experiment_report.py:59-66 | the parent size is that of the largest block the node lies in |
| `StableCores.UnobservedAreReported` | tools/graph_experiment_report.py:52-100 | unobserved are exactly the nodes some run did not observe |
| `StableCores.CoreIsGroupOf` | tools/graph_experiment_report.py:71-97 | a core is the group of each of its members |
| `StableCores.CoreIsUnanimous` | tools/graph_experiment_report.py:56-97 | every run puts all members of a core into one block |
| `StableCores.CoreSize` | tools/graph_experiment_report.py:84-93 | a published core has at least three members and passes the retention rule itself |
| `StableCores.CoreKeepsItsBlocks` | tools/graph_experiment_report.py:59-97 | in every run a core holds at least four fifths of the block it lies in |
| `StableCores.NoBlockHoldsTwoCores` | tools/graph_experiment_report.py:43-100 | no block of any run contains two cores |
| `StableCores.CoreIsAComponent` | tools/graph_experiment_report.py:71-82 | for Leiden a core is exactly one connected component of its class; otherwise it is its class |
| `StableCores.GroupIsAComponent` | tools/graph_experiment_report.py:71-82 | the same of the group of every observed node, published or not |
| `StableCores.LabellingExists` | tools/graph_experiment_report.py:73-80 | every experiment has a labelling of the kind the component theorem takes as given |
| `StableCores.CoreCountsItsPairs` | tools/graph_experiment_report.py:94-97 | the published pair count of a core is the number of edges inside it plus half its self-loops, hence the number of edges on a view without self-loops |
| `StableCores.CoresAreSorted` | tools/graph_experiment_report.py:98 | cores come largest first, ties by first member |
| `StableCores.MembersAscend` | tools/graph_experiment_report.py:57-100 | the members of a core, and the unobserved nodes, come in ascending order |
| `Bypass.Follow` | tools/graph_experiment_data.py:134-143 | the loop computes the chain walk and ends at the chain's node after as many hops |
| `Bypass.BypassForwarders` | tools/graph_experiment_data.py:126-149 | on success the view is the redrawn edges of an ascending list of positions, which are exactly those whose redrawn edge is no self-loop: every edge at most once, calls too, in input order; it counts the calls that aimed at a forwarder, and fails only if some edge cannot be redrawn |
| `Bypass.PathIsTheChain` | tools/graph_experiment_data.py:136-144 | a successful walk lists the chain hop by hop, with its evidence, to the first node that is no forwarder |
| `Bypass.RedrawnIs` | tools/graph_experiment_data.py:130-145 | redrawing changes nothing but a call of a forwarder, and of that only target, `observed` and `path`: the target is the end of the chain and the path its hops |
| `Bypass.WalkIsShort` | tools/graph_experiment_data.py:136-143 | the walk takes at most as many steps as there are unseen forwarders |
| `Bypass.WalkFailsIff` | tools/graph_experiment_data.py:136-139 | the walk fails exactly when the chain runs in a circle or meets a node seen before |
| `Bypass.FailureIsACycle` | tools/graph_experiment_data.py:101-139 | with the audited single call per forwarder, an edge fails exactly when its chain of forwarders never ends |
| `Bypass.CycleReportedIff` | tools/graph_experiment_data.py:87-139 | on audited edges the whole run reports a cycle exactly when some call leads into one |
| `Bypass.CallsReachRealTargets` | tools/graph_experiment_data.py:134-147 | no call in the view targets a forwarder; a redrawn call differs from its observation only in target, `observed` and `path`, and the path is exactly the chain between the two targets |
| `Bypass.EdgeIsKept` | tools/graph_experiment_data.py:146-147 | an edge is dropped only when bypassing turned it into a self-loop |
| `Bypass.OtherEdgesAreUntouched` | tools/graph_experiment_data.py:129-147 | edges that are not calls come through unchanged, all of them, in order |
| `Bypass.BypassIsIdempotent` | tools/graph_experiment_data.py:126-149 | bypassing the view that bypassing produced, for any edges, changes nothing |

## Left out

Assumed rather than modelled:

- Mutex poisoning, integer overflow (except the saturating growth limit and the range of a parsed `usize`), floating-point rounding and clocks that run backwards. Times are integers, or reals in `Calendar`; the retention factor 0.8 is the fraction 4/5, compared without division.
- Broker: a session the caller has been told to drop (taken idle, or discarded after a panic) is no longer counted as live; freeing its device memory happens after the step that gives it up.
- Socket: a connect succeeds exactly when the file belongs to a live listener; only lock holders start daemons; a killed process is gone when `kill` returns; a lock holder does not die, and polling its child does not fail, between spawn and the child's bind or death.
- Split: the token measure is an arbitrary function of content and context that may decline; the ids of measured candidates are not counted, the ids of parts are fresh.
- Eviction: a path is a sequence of numbers compared from the left, which gives the order of paths by components; modification times are integers.
- StableCores: the connected-component labelling is a parameter; only `CoreIsAComponent` relies on it being one, and `LabellingExists` shows that there is one. Runs are vectors of one length, and there is at least one.
- Bypass: nodes and evidence are numbers; columns nobody touches are one payload.

Weaker than one could wish:

- BrokerTheorems.NoLostWakeup: does not cover the window of the slot's own notification, between the unlock and the `notify_all` after it, because in that window the sleeper really is asleep: `BrokerWindow.SleeperInTheWindow` exhibits it, and `BrokerLiveness.EveryWaiterCanBeServed` holds in it too.
- BrokerLiveness.EveryWaiterCanBeServed: says that service is always possible, not that it happens; that needs fairness of the scheduler and creations that succeed, which the program does not state.
- SocketProgress.ConnectionIsPossibleIff: says that a connection is possible, not that it happens within the client's timeout.
- Identity.RoundTrip: takes strings that are UTF-8 and numbers that fit a `usize`, as the source's types do.

Not modelled:

- GPU admission, VRAM meters, ONNX sessions and file-lock polling: foreign calls and single comparisons.
- The byte relay between client and daemon, tool serving, signals, logs, permissions and the derivation of the socket's name.
- The formatting of `clock`, and splitting a timestamp into fields: text handling around the arithmetic.
- The later stages of `judge` (baselines, culprit, blocked): ratios over the figures proved here.
- `BatchingPolicy`, reading cache directories and deleting them, and parsing the cap: single expressions and file operations.
- The relation, internal-node and hub filters before the bypass: comprehensions.
- The embedding profile registry, the metadata cache, text search schema and the remaining graph tools: thin wrappers or scripts.
