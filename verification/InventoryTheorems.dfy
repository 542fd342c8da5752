/** What the refresh protocol guarantees over every run. */
module InventoryTheorems {
  import opened Prelude
  import opened Inventory
  import opened InventoryProtocol
  import opened InventoryInvariant

  /** Every state at the end of a steady run: no local-only cycle ended with a rerun requested. */
  ghost predicate Reachable(s: Sys) {
    exists debounce: nat, steps: seq<Step> ::
      Legal(Initial(debounce), steps) && SteadyRun(Initial(debounce), steps) && s == Exec(Initial(debounce), steps)
  }

  lemma ReachableInv(s: Sys)
    requires Reachable(s)
    ensures Inv(s)
  {
    var debounce: nat, steps: seq<Step> :|
      Legal(Initial(debounce), steps) && SteadyRun(Initial(debounce), steps) && s == Exec(Initial(debounce), steps);
    InitialInv(debounce);
    RunKeeps(Initial(debounce), steps);
  }

  // ----- runs without ensure_local_refresh are gentle, and gentle runs are steady -----

  /** `ensure_local_refresh` is never called. */
  predicate FullOnly(steps: seq<Step>) {
    forall i :: 0 <= i < |steps| ==> !steps[i].CallEnsureLocal?
  }

  lemma StartStaysFull(s: Sys)
    requires !LocalCycle(s)
    ensures !LocalCycle(StartStep(s, true, Unspawned))
  {
    var s' := StartStep(s, true, Unspawned);
    assert s'.tasks == s.tasks[s.nextTask := s'.tasks[s.nextTask]] && s'.tasks[s.nextTask].pc.Unspawned?;
    hide StartStep;
    forall t | t in s'.tasks
      ensures !IsLocalPc(s'.tasks[t].pc)
    {
    }
  }

  lemma TriggerStaysFull(s: Sys)
    requires !LocalCycle(s)
    ensures !LocalCycle(TriggerStep(s))
  {
    StartStaysFull(s);
    hide Trigger, StartStep;
  }

  lemma EndStaysFull(s: Sys, id: nat)
    requires !LocalCycle(s) && id in s.tasks
    ensures !LocalCycle(EndStep(s, id))
  {
    var s' := EndStep(s, id);
    assert s'.tasks == s.tasks - {id};
    hide EndStep;
    forall t | t in s'.tasks
      ensures !IsLocalPc(s'.tasks[t].pc)
    {
    }
  }

  lemma MoveStaysFull(s: Sys, id: nat, pc: TaskPc)
    requires !LocalCycle(s) && id in s.tasks && !IsLocalPc(pc)
    ensures !LocalCycle(MoveTask(s, id, pc))
  {
    var s' := MoveTask(s, id, pc);
    assert s'.tasks == s.tasks[id := s'.tasks[id]] && s'.tasks[id].pc == pc;
    hide MoveTask;
    forall t | t in s'.tasks
      ensures !IsLocalPc(s'.tasks[t].pc)
    {
    }
  }

  lemma TaskStaysFull(s: Sys, id: nat, timeouts: nat, nodes: nat)
    requires !LocalCycle(s) && Enabled(s, AdvanceTask(id, timeouts, nodes))
    ensures !LocalCycle(TaskStep(s, id, timeouts, nodes))
  {
    assert !IsLocalPc(s.tasks[id].pc);
    if s.tasks[id].pc.AtFinish? {
      EndStaysFull(s, id);
      StartStaysFull(EndStep(s, id));
      hide EndStep, StartStep, LocalCycle;
    } else {
      var s1 := Effect(s, s.tasks[id], timeouts, nodes);
      NextHand(s.tasks[id].pc);
      assert s1.tasks == s.tasks;
      hide Effect, NextPc, MoveTask;
      MoveStaysFull(s1, id, NextPc(s.tasks[id].pc));
    }
  }

  lemma FullStaysFull(s: Sys, step: Step)
    requires !LocalCycle(s) && Enabled(s, step) && !step.CallEnsureLocal?
    ensures !LocalCycle(Apply(s, step))
  {
    hide TriggerStep, TaskStep;
    if step.CallTrigger? {
      TriggerStaysFull(s);
    } else if step.AdvanceTask? {
      TaskStaysFull(s, step.id, step.timeouts, step.nodes);
    } else if step.AdvanceInvalidator? && s.invalidators[step.id].pc.AtTrigger? {
      var removed := s.(invalidators := s.invalidators - {step.id});
      assert !LocalCycle(removed);
      TriggerStaysFull(removed);
    } else if step.FetchLocal? || step.FetchRemote? {
      assert !IsLocalPc(s.tasks[step.id].pc);
      MoveStaysFull(s, step.id, Apply(s, step).tasks[step.id].pc);
    } else {
      assert Apply(s, step).tasks == s.tasks;
    }
  }

  lemma {:induction false} FullRunsAreGentle(s: Sys, steps: seq<Step>)
    requires Legal(s, steps) && FullOnly(steps) && !LocalCycle(s)
    ensures GentleRun(s, steps)
    decreases |steps|
  {
    if steps != [] {
      FullStaysFull(s, steps[0]);
      assert Gentle(s, steps[0]);
      hide Enabled, Apply, Gentle, LocalCycle;
      FullRunsAreGentle(Apply(s, steps[0]), steps[1..]);
    }
  }

  /**
   On gentle runs the first cycle after an invalidation fetches both sides, and a local-only one
   has none to answer for.
   */
  predicate GentleInv(s: Sys) {
    && (LastInval(s.log) > 0 && LastBegin(s.log) > LastInval(s.log) ==> s.lastFull > LastInval(s.log))
    && (LocalCycle(s) ==> !InvalSinceStart(s.log))
  }

  lemma {:induction false} BeginVersusInval(log: seq<Entry>)
    ensures InvalSinceStart(log) <==> LastInval(log) > LastBegin(log)
    ensures LastStart(log).Some? <==> LastBegin(log) > 0
    ensures LastInval(log) == LastBegin(log) ==> LastBegin(log) == 0
  {
    if log != [] {
      BeginVersusInval(log[..|log| - 1]);
    }
  }

  lemma GentleIsSteady(s: Sys, step: Step)
    requires Inv(s) && GentleInv(s) && Enabled(s, step)
    ensures Steady(s, step)
  {
    if !Steady(s, step) {
      assert LocalCycle(s);
    }
  }

  lemma GentleStart(s: Sys, full: bool)
    requires Idle(s) && CyclesOk(s) && (!full ==> !InvalSinceStart(s.log)) && GentleInv(s)
    ensures GentleInv(Begin(s, full))
  {
    Recorded(s.log, Entry(Start, s.now, s.localData, s.remoteData), s.debounce);
    BeginTasks(s, full);
    BeginVersusInval(s.log);
    hide Idle, LocalCycle, LastInval, LastBegin, InvalSinceStart;
  }

  /** A step that leaves the history alone and starts nothing. */
  lemma GentleSame(s: Sys, s': Sys)
    requires GentleInv(s) && s'.log == s.log && s'.lastFull == s.lastFull && (LocalCycle(s') ==> LocalCycle(s))
    ensures GentleInv(s')
  {
  }

  lemma GentleSubscribe(s: Sys)
    requires GentleInv(s)
    ensures GentleInv(SubscribeStep(s))
  {
    assert SubscribeStep(s).tasks == s.tasks;
    GentleSame(s, SubscribeStep(s));
  }

  lemma GentleTrigger(s: Sys)
    requires MidInv(s) && GentleInv(s)
    ensures GentleInv(TriggerStep(s))
  {
    TriggerCases(s);
    hide GentleInv, MayStart, Trigger, SubscribeStep;
    match Trigger(s.shared, s.now, s.debounce).1
    case AlreadyInProgress => GentleSubscribe(s);
    case Debounced =>
    case Started =>
      assert Idle(s) by {
        MayStartIsIdle(s);
      }
      GentleStart(s, true);
      GentleSubscribe(Begin(s, true));
  }

  lemma MayStartIsIdle(s: Sys)
    requires MayStart(s)
    ensures Idle(s)
  {
  }

  lemma GentleEnsureLocal(s: Sys)
    requires Inv(s) && GentleInv(s) && Gentle(s, CallEnsureLocal)
    ensures GentleInv(EnsureLocalStep(s))
  {
    InvIsMid(s);
    EnsureLocalCases(s);
    assert EnsureLocal(s.shared, s.now, s.debounce).1.Started? ==> !InvalSinceStart(s.log);
    hide GentleInv, MayStart, EnsureLocal, SubscribeStep, Gentle;
    match EnsureLocal(s.shared, s.now, s.debounce).1
    case AlreadyInProgress => GentleSubscribe(s);
    case Debounced =>
    case Started =>
      MayStartIsIdle(s);
      GentleStart(s, false);
      GentleSubscribe(Begin(s, false));
  }

  lemma GentleEnd(s: Sys, id: nat)
    requires SingleFlight(s) && GentleInv(s) && id in s.tasks
    ensures GentleInv(EndStep(s, id))
  {
    EndsIdle(s, id);
    Recorded(s.log, Entry(Done, s.now, s.localData, s.remoteData), s.debounce);
    hide LastInval, LastBegin, InvalSinceStart;
  }

  lemma GentleTask(s: Sys, id: nat, timeouts: nat, nodes: nat)
    requires Inv(s) && GentleInv(s) && Enabled(s, AdvanceTask(id, timeouts, nodes))
    ensures GentleInv(TaskStep(s, id, timeouts, nodes))
  {
    GentleIsSteady(s, AdvanceTask(id, timeouts, nodes));
    if s.tasks[id].pc.AtFinish? {
      InvIsMid(s);
      EndKeeps(s, id);
      GentleEnd(s, id);
      var ended := EndStep(s, id);
      assert CyclesOk(ended) && Idle(ended);
      hide Inv, MidInv, GentleInv, EndStep, CyclesOk, Idle;
      if s.shared.state.rerunRequested {
        GentleStart(ended, true);
      }
    } else if s.tasks[id].pc.LocalAtFinish? {
      FinishLocalIsEnd(s, id);
      var marked := s.(shared := MarkLocal(s.shared, s.now));
      MarkKeeps(s);
      GentleSame(s, marked);
      GentleEnd(marked, id);
    } else {
      var s' := TaskStep(s, id, timeouts, nodes);
      TaskMoves(s, id, timeouts, nodes);
      MoveQuiet(s, id, Effect(s, s.tasks[id], timeouts, nodes), NextPc(s.tasks[id].pc));
      assert s'.lastFull == s.lastFull;
      hide GentleInv, TaskStep, Inv;
      SameIdle(s, s');
      GentleSame(s, s');
    }
  }

  lemma GentleLock(s: Sys, id: nat)
    requires CyclesOk(s) && id in s.invalidators && s.invalidators[id].pc.AtLock? && !LocalCycle(s)
    ensures GentleInv(InvalidatorStep(s, id))
  {
    Recorded(s.log, Entry(Inval, s.now, s.localData, s.remoteData), s.debounce);
    assert InvalidatorStep(s, id).tasks == s.tasks;
  }

  lemma GentleInvalidator(s: Sys, id: nat)
    requires Inv(s) && GentleInv(s) && Enabled(s, AdvanceInvalidator(id)) && Gentle(s, AdvanceInvalidator(id))
    ensures GentleInv(InvalidatorStep(s, id))
  {
    if s.invalidators[id].pc.AtTrigger? {
      var removed := s.(invalidators := s.invalidators - {id});
      GentleSame(s, removed);
      RemovedKeeps(s, id);
      hide GentleInv, Inv, MidInv;
      GentleTrigger(removed);
    } else if s.invalidators[id].pc.AtLock? {
      GentleLock(s, id);
    } else {
      ClearExcuses(s, id);
      hide Inv, GentleInv, InvalidatorStep, ClearingLocal, ClearingRemote;
      GentleSame(s, InvalidatorStep(s, id));
    }
  }

  lemma GentleKeeps(s: Sys, step: Step)
    requires Inv(s) && GentleInv(s) && Enabled(s, step) && Gentle(s, step)
    ensures GentleInv(Apply(s, step))
  {
    hide Inv, MidInv, GentleInv, TriggerStep, EnsureLocalStep, InvalidatorStep, TaskStep, Gentle;
    if step.CallTrigger? {
      InvIsMid(s);
      GentleTrigger(s);
    } else if step.CallEnsureLocal? {
      GentleEnsureLocal(s);
    } else if step.AdvanceInvalidator? {
      GentleInvalidator(s, step.id);
    } else if step.AdvanceTask? {
      GentleTask(s, step.id, step.timeouts, step.nodes);
    } else if step.FetchLocal? || step.FetchRemote? {
      FetchMoves(s, step);
      PcQuiet(s, step.id, Apply(s, step).tasks[step.id].pc);
      assert Apply(s, step).lastFull == s.lastFull;
      hide Apply;
      SameIdle(s, Apply(s, step));
      GentleSame(s, Apply(s, step));
    } else {
      assert Apply(s, step).tasks == s.tasks;
      GentleSame(s, Apply(s, step));
    }
  }

  lemma {:induction false} GentleRunsAreSteady(s: Sys, steps: seq<Step>)
    requires Inv(s) && GentleInv(s) && Legal(s, steps) && GentleRun(s, steps)
    ensures SteadyRun(s, steps) && GentleInv(Exec(s, steps))
    decreases |steps|
  {
    hide Inv, GentleInv, Enabled, Apply, Gentle, Steady;
    if steps != [] {
      GentleIsSteady(s, steps[0]);
      StepKeeps(s, steps[0]);
      GentleKeeps(s, steps[0]);
      GentleRunsAreSteady(Apply(s, steps[0]), steps[1..]);
    }
  }

  /** Every state at the end of a gentle run. */
  ghost predicate GentlyReachable(s: Sys) {
    exists debounce: nat, steps: seq<Step> ::
      Legal(Initial(debounce), steps) && GentleRun(Initial(debounce), steps) && s == Exec(Initial(debounce), steps)
  }

  lemma GentlyReachableIsReachable(s: Sys)
    requires GentlyReachable(s)
    ensures Reachable(s) && GentleInv(s)
  {
    var debounce: nat, steps: seq<Step> :|
      Legal(Initial(debounce), steps) && GentleRun(Initial(debounce), steps) && s == Exec(Initial(debounce), steps);
    InitialInv(debounce);
    GentleRunsAreSteady(Initial(debounce), steps);
  }

  // ----- dropped calls -----

  /** No `invalidate_*` call is dropped. */
  predicate NothingDropped(steps: seq<Step>) {
    forall i :: 0 <= i < |steps| ==> !steps[i].DropInvalidator?
  }

  /** The history holds no trace of a dropped invalidator. */
  predicate Unmarked(s: Sys) { !s.owed && !s.wipedLocal && !s.wipedRemote }

  lemma CallsStayUnmarked(s: Sys)
    requires Unmarked(s)
    ensures Unmarked(TriggerStep(s)) && Unmarked(EnsureLocalStep(s))
  {
    hide Trigger, EnsureLocal, StartCycle, Cycles;
  }

  lemma TaskStaysUnmarked(s: Sys, id: nat, timeouts: nat, nodes: nat)
    requires Unmarked(s) && Enabled(s, AdvanceTask(id, timeouts, nodes))
    ensures Unmarked(TaskStep(s, id, timeouts, nodes))
  {
    hide StartCycle, EndCycle, FinishLocal;
    assert Unmarked(Effect(s, s.tasks[id], timeouts, nodes));
    hide Effect, NextPc;
  }

  lemma UndroppedStep(s: Sys, step: Step)
    requires Enabled(s, step) && !step.DropInvalidator? && Unmarked(s)
    ensures Unmarked(Apply(s, step))
  {
    hide TriggerStep, EnsureLocalStep, TaskStep;
    match step
    case CallTrigger => CallsStayUnmarked(s);
    case CallEnsureLocal => CallsStayUnmarked(s);
    case AdvanceTask(id, timeouts, nodes) => TaskStaysUnmarked(s, id, timeouts, nodes);
    case AdvanceInvalidator(id) => CallsStayUnmarked(s.(invalidators := s.invalidators - {id}));
    case _ =>
  }

  lemma {:induction false} UndroppedRunsOweNothing(s: Sys, steps: seq<Step>)
    requires Legal(s, steps) && NothingDropped(steps) && Unmarked(s)
    ensures Unmarked(Exec(s, steps))
    decreases |steps|
  {
    hide Enabled, Apply, Unmarked;
    if steps != [] {
      UndroppedStep(s, steps[0]);
      UndroppedRunsOweNothing(Apply(s, steps[0]), steps[1..]);
    }
  }

  /** The snapshot comes from a cycle started after the last invalidation, with data no older than it. */
  predicate LocalFresh(s: Sys) {
    && s.shared.local.Stored?
    && LastInval(s.log) <= s.shared.local.cycle < |s.log|
    && s.log[s.shared.local.cycle].kind.Start?
    && (LastInval(s.log) > 0 ==> s.shared.local.version >= s.log[LastInval(s.log) - 1].localData)
  }

  predicate RemoteFresh(s: Sys) {
    && s.shared.remote.Stored?
    && LastInval(s.log) <= s.shared.remote.cycle < |s.log|
    && s.log[s.shared.remote.cycle].kind.Start?
    && (LastInval(s.log) > 0 ==> s.shared.remote.version >= s.log[LastInval(s.log) - 1].remoteData)
  }

  /** The time of the last trigger is set exactly when a cycle began after the last invalidation. */
  lemma TriggeredExactly(s: Sys)
    requires Debounce(s)
    ensures s.shared.state.lastTriggeredAt.Some? <==> LastBegin(s.log) > LastInval(s.log)
    ensures s.shared.state.lastTriggeredAt.None? && LastInval(s.log) > 0 ==> InvalSinceStart(s.log)
  {
    BeginVersusInval(s.log);
    hide Ordered, Spaced, LastInval, LastBegin, LastStart, InvalSinceStart;
  }

  /** A stored snapshot is fresh exactly when its cycle began after the last invalidation. */
  lemma CurrentIsFresh(s: Sys)
    requires Debounce(s) && Fetched(s)
    ensures LocalFresh(s) <==> LocalCurrent(s)
    ensures RemoteFresh(s) <==> RemoteCurrent(s)
  {
    hide Spaced, LocalInHand, RemoteInHand;
  }

  /**
   Freshness at rest, on every steady run. A local snapshot that holds data is fresh exactly when the
   time of the last trigger is set; a remote one exactly when a cycle of both sides began after the
   last invalidation. A side that is empty although such a cycle has fetched it was emptied by an
   invalidator of that side that still waits for the mutex, or was dropped while waiting.
   */
  lemma FreshnessExact(s: Sys)
    requires Reachable(s) && Idle(s)
    ensures s.shared.local.Stored? ==> (LocalFresh(s) <==> s.shared.state.lastTriggeredAt.Some?)
    ensures s.shared.remote.Stored? ==> (RemoteFresh(s) <==> s.lastFull > LastInval(s.log))
    ensures s.shared.local.Cleared? && s.shared.state.lastTriggeredAt.Some? ==> ClearingLocal(s) || s.wipedLocal
    ensures s.shared.remote.Cleared? && s.lastFull > LastInval(s.log) ==> ClearingRemote(s) || s.wipedRemote
  {
    ReachableInv(s);
    TriggeredExactly(s);
    CurrentIsFresh(s);
    assert !LocalPending(s) && !RemotePending(s) && CyclesOk(s) && Covered(s);
    hide Reachable, Inv, Idle, LocalFresh, RemoteFresh, ClearingLocal, ClearingRemote, LastInval, LastBegin;
    hide LocalPending, RemotePending;
  }

  /**
   No invalidation is lost, on every gentle run. At rest each snapshot that holds data is fresh exactly
   when the time of the last trigger is set, and after an invalidation that time is missing only while
   the trigger of that invalidation is still coming or was dropped.
   */
  lemma InvalidationNeverLost(s: Sys)
    requires GentlyReachable(s) && Idle(s)
    ensures s.shared.local.Stored? ==> (LocalFresh(s) <==> s.shared.state.lastTriggeredAt.Some?)
    ensures s.shared.remote.Stored? ==> (RemoteFresh(s) <==> s.shared.state.lastTriggeredAt.Some?)
    ensures LastInval(s.log) > 0 && s.shared.state.lastTriggeredAt.Some? ==>
              && (s.shared.local.Cleared? ==> ClearingLocal(s) || s.wipedLocal)
              && (s.shared.remote.Cleared? ==> ClearingRemote(s) || s.wipedRemote)
    ensures LastInval(s.log) > 0 && s.shared.state.lastTriggeredAt.None? ==> AboutToTrigger(s) || s.owed
    ensures LastInval(s.log) > 0 && !AboutToTrigger(s) ==> (s.shared.state.lastTriggeredAt.None? <==> s.owed)
  {
    GentlyReachableIsReachable(s);
    ReachableInv(s);
    TriggeredExactly(s);
    BeginVersusInval(s.log);
    FreshnessExact(s);
    assert Owing(s) && OwedOk(s) && CyclesOk(s);
    hide GentlyReachable, Reachable, Inv, LocalFresh, RemoteFresh, ClearingLocal, ClearingRemote, AboutToTrigger;
    hide LastInval, LastBegin, InvalSinceStart, LocalCycle;
  }

  /**
   A dropped trigger is made up for: while an invalidation has had no cycle and nothing runs, it is
   waiting for its own trigger or that was dropped, and in both cases the next trigger, by
   whomever and whenever, starts a cycle.
   */
  lemma DroppedTriggerIsMadeUpFor(s: Sys, now: nat)
    requires Reachable(s) && Idle(s) && InvalSinceStart(s.log)
    ensures AboutToTrigger(s) || s.owed
    ensures Trigger(s.shared, now, s.debounce).1.Started?
  {
    ReachableInv(s);
  }

  /** At most one task is before its final step, and the flags say exactly whether there is one and of which kind. */
  predicate Flagged(s: Sys) {
    && (forall a, b :: a in s.tasks && b in s.tasks ==> a == b)
    && (s.shared.state.localRefreshing <==> s.tasks != map[])
    && (s.shared.state.remoteRefreshing <==> exists t :: t in s.tasks && !IsLocalPc(s.tasks[t].pc))
  }

  lemma FlightIsFlagged(s: Sys)
    requires SingleFlight(s)
    ensures Flagged(s)
  {
    if Idle(s) {
      assert s.tasks == map[];
    } else {
      var t :| t in s.tasks;
      assert LocalCycle(s) <==> IsLocalPc(s.tasks[t].pc);
    }
  }

  lemma AtMostOneCycle(s: Sys)
    requires Reachable(s)
    ensures Flagged(s) && Cycles(s.log, Start) == Cycles(s.log, Done) + |s.tasks|
  {
    ReachableInv(s);
    FlightIsFlagged(s);
    hide Flagged;
    if Idle(s) {
      assert s.tasks == map[];
    } else {
      var t :| t in s.tasks;
      assert s.tasks.Keys == {t};
      assert |s.tasks| == |s.tasks.Keys|;
    }
  }

  /** A local-only cycle that ends with a rerun requested leaves a task in flight with both flags down. */
  lemma RerunLeavesUnflagged(s: Sys, step: Step)
    requires Inv(s) && Enabled(s, step) && !Steady(s, step)
    ensures !Flagged(Apply(s, step))
  {
    var s' := Apply(s, step);
    hide Debounce, Counted, Waiting, Fetched, CyclesOk, Covered, Owing, Timestamped, InvalidatorsOk, Cycles;
    assert s.nextTask in s'.tasks && !s'.shared.state.localRefreshing;
  }

  /** `Flagged` in every state of a run, the first and the last included. */
  predicate AlwaysFlagged(s: Sys, steps: seq<Step>)
    requires Legal(s, steps)
    decreases |steps|
  {
    Flagged(s) && (steps == [] || AlwaysFlagged(Apply(s, steps[0]), steps[1..]))
  }

  lemma {:induction false} FlightAlongRun(s: Sys, steps: seq<Step>)
    requires Inv(s) && Legal(s, steps)
    ensures SteadyRun(s, steps) <==> AlwaysFlagged(s, steps)
    decreases |steps|
  {
    FlightIsFlagged(s);
    hide Inv, Enabled, Apply, Steady, Flagged;
    if steps != [] {
      if Steady(s, steps[0]) {
        StepKeeps(s, steps[0]);
        FlightAlongRun(Apply(s, steps[0]), steps[1..]);
      } else {
        RerunLeavesUnflagged(s, steps[0]);
      }
    }
  }

  /** Single flight holds all along a run exactly when no local-only cycle in it ends with a rerun requested. */
  lemma SingleFlightExactly(debounce: nat, steps: seq<Step>)
    requires Legal(Initial(debounce), steps)
    ensures AlwaysFlagged(Initial(debounce), steps) <==> SteadyRun(Initial(debounce), steps)
  {
    InitialInv(debounce);
    FlightAlongRun(Initial(debounce), steps);
  }

  /** A live handle is released exactly when the cycle it was taken in has made its final step. */
  lemma WakeUpIsExact(s: Sys, h: nat)
    requires Reachable(s) && h in s.shared.handles
    ensures h in s.taken
    ensures s.shared.Released(h) <==> Cycles(s.log, Done) >= s.taken[h]
    ensures s.shared.Released(h) ==> s.shared.channels[s.shared.handles[h]]
  {
    ReachableInv(s);
    assert HandleOk(s, h);
  }

  predicate VersionCounts(s: Sys) { s.shared.updateVersion == Cycles(s.log, Done) }

  lemma RecordCounts(s: Sys, kind: Kind)
    ensures Cycles(Record(s, kind).log, Done) == Cycles(s.log, Done) + if kind.Done? then 1 else 0
  {
    Recorded(s.log, Entry(kind, s.now, s.localData, s.remoteData), s.debounce);
  }

  lemma StartCounts(s: Sys, full: bool, pc: TaskPc)
    requires VersionCounts(s)
    ensures VersionCounts(StartStep(s, full, pc))
  {
    var s' := StartStep(s, full, pc);
    assert s'.log == Record(s, Start).log && s'.shared.updateVersion == s.shared.updateVersion;
    hide StartStep, Record;
    RecordCounts(s, Start);
  }

  lemma CallsCount(s: Sys)
    requires VersionCounts(s)
    ensures VersionCounts(TriggerStep(s)) && VersionCounts(EnsureLocalStep(s))
  {
    StartCounts(s, true, Unspawned);
    StartCounts(s, false, LocalUnspawned);
    hide StartStep, Trigger, EnsureLocal, Cycles;
  }

  lemma EndCounts(s: Sys, id: nat)
    requires VersionCounts(s) && id in s.tasks
    ensures VersionCounts(FinishStep(s, id)) && VersionCounts(FinishLocalStep(s, id))
  {
    assert EndStep(s, id).log == FinishLocalStep(s, id).log == Record(s, Done).log;
    assert FinishLocalStep(s, id).shared.updateVersion == s.shared.updateVersion + 1;
    assert EndStep(s, id).shared.updateVersion == s.shared.updateVersion + 1;
    RecordCounts(s, Done);
    StartCounts(EndStep(s, id), true, Unspawned);
    hide StartStep, EndStep, FinishLocalStep, Record, Cycles;
  }

  lemma TaskCounts(s: Sys, id: nat, timeouts: nat, nodes: nat)
    requires VersionCounts(s) && Enabled(s, AdvanceTask(id, timeouts, nodes))
    ensures VersionCounts(TaskStep(s, id, timeouts, nodes))
  {
    if s.tasks[id].pc.AtFinish? || s.tasks[id].pc.LocalAtFinish? {
      EndCounts(s, id);
      hide FinishStep, FinishLocalStep, VersionCounts;
    } else {
      var s1 := Effect(s, s.tasks[id], timeouts, nodes);
      assert s1.log == s.log && s1.shared.updateVersion == s.shared.updateVersion && id in s1.tasks;
      hide Effect, NextPc, Cycles;
      assert VersionCounts(MoveTask(s1, id, NextPc(s.tasks[id].pc)));
      hide MoveTask, VersionCounts;
    }
  }

  lemma InvalidatorCounts(s: Sys, id: nat)
    requires VersionCounts(s) && id in s.invalidators
    ensures VersionCounts(InvalidatorStep(s, id))
  {
    hide Cycles;
    if s.invalidators[id].pc.AtTrigger? {
      CallsCount(s.(invalidators := s.invalidators - {id}));
      hide TriggerStep;
    } else if s.invalidators[id].pc.AtLock? {
      var locked := s.(shared := Invalidate(s.shared, s.invalidators[id].scope));
      assert locked.shared.updateVersion == s.shared.updateVersion;
      hide Invalidate;
      RecordCounts(locked, Inval);
    } else {
      assert InvalidatorStep(s, id).log == s.log;
    }
  }

  lemma StepCounts(s: Sys, step: Step)
    requires VersionCounts(s) && Enabled(s, step)
    ensures VersionCounts(Apply(s, step))
  {
    hide TriggerStep, EnsureLocalStep, TaskStep, InvalidatorStep, Cycles;
    if step.CallTrigger? || step.CallEnsureLocal? {
      CallsCount(s);
    } else if step.AdvanceTask? {
      TaskCounts(s, step.id, step.timeouts, step.nodes);
    } else if step.AdvanceInvalidator? {
      InvalidatorCounts(s, step.id);
    }
  }

  lemma {:induction false} RunCounts(s: Sys, steps: seq<Step>)
    requires VersionCounts(s) && Legal(s, steps)
    ensures VersionCounts(Exec(s, steps))
    decreases |steps|
  {
    hide VersionCounts, Enabled, Apply;
    if steps != [] {
      StepCounts(s, steps[0]);
      RunCounts(Apply(s, steps[0]), steps[1..]);
    }
  }

  /** On every run, steady or not, the update version counts the cycles that have ended. */
  lemma VersionCountsCompletedCycles(debounce: nat, steps: seq<Step>)
    requires Legal(Initial(debounce), steps)
    ensures var s := Exec(Initial(debounce), steps); s.shared.updateVersion == Cycles(s.log, Done)
  {
    RunCounts(Initial(debounce), steps);
  }

  // ----- the rate bound -----

  function InSpan(log: seq<Entry>, kind: Kind, from: nat, until: nat): nat {
    if log == [] then 0
    else
      var e := log[|log| - 1];
      InSpan(log[..|log| - 1], kind, from, until) + if e.kind == kind && from <= e.at <= until then 1 else 0
  }

  predicate TimesOrdered(log: seq<Entry>) {
    forall i, j :: 0 <= i <= j < |log| ==> log[i].at <= log[j].at
  }

  function Pending(log: seq<Entry>): int { if InvalSinceStart(log) then 1 else 0 }

  lemma {:induction false} LastStartIsEarlier(log: seq<Entry>, t: nat)
    requires TimesOrdered(log) && (forall i :: 0 <= i < |log| ==> log[i].at <= t)
    ensures LastStart(log).Some? ==> LastStart(log).value <= t
  {
    if log != [] && !log[|log| - 1].kind.Start? {
      LastStartIsEarlier(log[..|log| - 1], t);
    }
  }

  function Starts(log: seq<Entry>, from: nat, until: nat): nat { InSpan(log, Start, from, until) }
  function Invals(log: seq<Entry>, from: nat, until: nat): nat { InSpan(log, Inval, from, until) }

  predicate Paid(log: seq<Entry>, debounce: nat, from: nat, until: nat) {
    Starts(log, from, until) > 0 ==>
      LastStart(log).Some? && LastStart(log).value >= from &&
      debounce * (Starts(log, from, until) - 1 - Invals(log, from, until) + Pending(log)) <= LastStart(log).value - from
  }

  /** Every start after the first pays with a debounce interval or with an invalidation of its own. */
  lemma {:induction false} StartsArePaid(log: seq<Entry>, debounce: nat, from: nat, until: nat)
    requires TimesOrdered(log) && Spaced(log, debounce) && (forall i :: 0 <= i < |log| ==> log[i].at <= until)
    ensures Paid(log, debounce, from, until)
  {
    if log != [] {
      StartsArePaid(log[..|log| - 1], debounce, from, until);
      LastStartIsEarlier(log[..|log| - 1], log[|log| - 1].at);
      EntryIsPaid(log[..|log| - 1], log[|log| - 1], debounce, from, until);
      assert log == log[..|log| - 1] + [log[|log| - 1]];
    }
  }

  lemma EntryIsPaid(front: seq<Entry>, e: Entry, debounce: nat, from: nat, until: nat)
    requires Paid(front, debounce, from, until) && Spaced(front + [e], debounce) && e.at <= until
    requires LastStart(front).Some? ==> LastStart(front).value <= e.at
    ensures Paid(front + [e], debounce, from, until)
  {
    SnocFront(front, e);
    Recorded(front, e, debounce);
    var x := Starts(front, from, until) - 1 - Invals(front, from, until);
    MulStep(debounce, x);
    if e.kind.Start? && Starts(front, from, until) == 0 {
      MulNonPositive(debounce, Invals(front, from, until));
    }
  }

  lemma MulStep(d: nat, x: int)
    ensures d * (x + 1) == d * x + d && d * x <= d * (x + 1)
  {
  }

  lemma MulNonPositive(d: nat, x: int)
    requires x >= 0
    ensures d * (-x) <= 0
  {
  }

  lemma {:induction false} SpanPrefix(log: seq<Entry>, debounce: nat, from: nat, until: nat) returns (n: nat)
    requires TimesOrdered(log) && Spaced(log, debounce)
    ensures n <= |log| && Spaced(log[..n], debounce)
    ensures forall i :: 0 <= i < n ==> log[i].at <= until
    ensures forall k: Kind :: InSpan(log, k, from, until) == InSpan(log[..n], k, from, until)
  {
    if log == [] || log[|log| - 1].at <= until {
      n := |log|;
      assert log[..n] == log;
    } else {
      n := SpanPrefix(log[..|log| - 1], debounce, from, until);
      assert log[..|log| - 1][..n] == log[..n];
    }
  }

  /** Paid-for starts are few. */
  lemma PaidBound(log: seq<Entry>, debounce: nat, from: nat, until: nat)
    requires Paid(log, debounce, from, until) && debounce > 0 && from <= until
    requires LastStart(log).Some? ==> LastStart(log).value <= until
    ensures Starts(log, from, until) <= 1 + (until - from) / debounce + Invals(log, from, until)
  {
    var starts: int, invals: int := Starts(log, from, until), Invals(log, from, until);
    if starts > 0 {
      var x := starts - 1 - invals;
      var w := LastStart(log).value - from;
      assert debounce * (x + Pending(log)) <= w && 0 <= Pending(log) <= 1;
      hide Paid, Starts, Invals, LastStart, Pending;
      MulStep(debounce, x);
      DivBound(debounce, x, until - from);
    }
  }

  /** Cycles started in any time span, against its length and the invalidations in it. */
  lemma RefreshRateBound(s: Sys, from: nat, until: nat)
    requires Reachable(s) && from <= until && s.debounce > 0
    ensures InSpan(s.log, Start, from, until)
            <= 1 + (until - from) / s.debounce + InSpan(s.log, Inval, from, until)
  {
    ReachableInv(s);
    assert TimesOrdered(s.log) && Spaced(s.log, s.debounce);
    hide Inv, Reachable;
    var n := SpanPrefix(s.log, s.debounce, from, until);
    var log := s.log[..n];
    StartsArePaid(log, s.debounce, from, until);
    LastStartIsEarlier(log, until);
    hide Paid, LastStart, Spaced, TimesOrdered;
    PaidBound(log, s.debounce, from, until);
  }

  lemma MulGrows(d: nat, a: nat, b: nat)
    requires a <= b
    ensures d * a <= d * b
  {
  }

  lemma DivBound(d: nat, x: int, w: nat)
    requires d > 0 && d * x <= w
    ensures x <= w / d
  {
    var q := w / d;
    assert w < d * (q + 1);
    if x > q {
      MulGrows(d, q + 1, x);
    }
  }
}
