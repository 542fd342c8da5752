/** What one call of the inventory does: when it starts a cycle, and what an invalidation and a cycle leave behind. */
module InventoryCalls {
  import opened Prelude
  import opened Inventory
  import opened InventoryProtocol
  import opened InventoryInvariant
  import opened InventoryTheorems

  // ----- the time of the last trigger, on every run -----

  /** The time of the last trigger as the history tells it. */
  predicate Timed(s: Sys) {
    && TimesOrdered(s.log) && (forall i :: 0 <= i < |s.log| ==> s.log[i].at <= s.now)
    && s.shared.state.lastTriggeredAt == (if InvalSinceStart(s.log) then None else LastStart(s.log))
  }

  /** One more entry, with the time of the last trigger that goes with it. */
  lemma RecordTimed(s: Sys, s': Sys, kind: Kind)
    requires Timed(s) && s'.now == s.now && s'.log == Record(s, kind).log
    requires s'.shared.state.lastTriggeredAt
             == match kind case Start => Some(s.now) case Inval => None case Done => s.shared.state.lastTriggeredAt
    ensures Timed(s')
  {
    var e := Entry(kind, s.now, s.localData, s.remoteData);
    Recorded(s.log, e, s.debounce);
    assert s'.log == s.log + [e];
    hide *;
    OrderedRecord(s.log, e);
  }

  lemma OrderedRecord(log: seq<Entry>, e: Entry)
    requires TimesOrdered(log) && forall i :: 0 <= i < |log| ==> log[i].at <= e.at
    ensures TimesOrdered(log + [e]) && forall i :: 0 <= i < |log + [e]| ==> (log + [e])[i].at <= e.at
  {
  }

  lemma StartTimed(s: Sys, full: bool, pc: TaskPc)
    requires Timed(s)
    ensures Timed(StartStep(s, full, pc))
  {
    var s' := StartStep(s, full, pc);
    assert s'.log == Record(s, Start).log && s'.now == s.now;
    assert s'.shared.state.lastTriggeredAt == Some(s.now);
    hide StartStep, Record, Timed;
    RecordTimed(s, s', Start);
  }

  lemma CallsTimed(s: Sys)
    requires Timed(s)
    ensures Timed(TriggerStep(s)) && Timed(EnsureLocalStep(s))
  {
    StartTimed(s, true, Unspawned);
    StartTimed(s, false, LocalUnspawned);
    hide StartStep, Trigger, EnsureLocal, SubscribeStep, Timed;
    SubscribeTimed(s);
    SubscribeTimed(StartStep(s, true, Unspawned));
    SubscribeTimed(StartStep(s, false, LocalUnspawned));
  }

  lemma SameTimed(s: Sys, s': Sys)
    requires Timed(s) && s'.log == s.log && s'.now == s.now
    requires s'.shared.state.lastTriggeredAt == s.shared.state.lastTriggeredAt
    ensures Timed(s')
  {
  }

  lemma SubscribeTimed(s: Sys)
    requires Timed(s)
    ensures Timed(SubscribeStep(s))
  {
    hide Timed;
    SameTimed(s, SubscribeStep(s));
  }

  lemma EndTimed(s: Sys, id: nat)
    requires Timed(s) && id in s.tasks
    ensures Timed(FinishStep(s, id)) && Timed(FinishLocalStep(s, id))
  {
    var e, l := EndStep(s, id), FinishLocalStep(s, id);
    assert e.log == l.log == Record(s, Done).log && e.now == l.now == s.now;
    assert e.shared.state.lastTriggeredAt == l.shared.state.lastTriggeredAt == s.shared.state.lastTriggeredAt;
    hide StartStep, EndStep, FinishLocalStep, Record, Timed;
    RecordTimed(s, e, Done);
    RecordTimed(s, l, Done);
    StartTimed(e, true, Unspawned);
  }

  lemma TaskTimed(s: Sys, id: nat, timeouts: nat, nodes: nat)
    requires Timed(s) && Enabled(s, AdvanceTask(id, timeouts, nodes))
    ensures Timed(TaskStep(s, id, timeouts, nodes))
  {
    hide Timed;
    if s.tasks[id].pc.AtFinish? || s.tasks[id].pc.LocalAtFinish? {
      EndTimed(s, id);
      hide FinishStep, FinishLocalStep;
    } else {
      EffectFrame(s, s.tasks[id], timeouts, nodes);
      var s1 := Effect(s, s.tasks[id], timeouts, nodes);
      assert TaskStep(s, id, timeouts, nodes) == MoveTask(s1, id, NextPc(s.tasks[id].pc));
      hide TaskStep, Effect, NextPc, Enabled;
      SameTimed(s, s1);
      SameTimed(s1, MoveTask(s1, id, NextPc(s.tasks[id].pc)));
    }
  }

  lemma EffectFrame(s: Sys, task: Task, timeouts: nat, nodes: nat)
    ensures var s1 := Effect(s, task, timeouts, nodes);
            && s1.log == s.log && s1.now == s.now && s1.tasks == s.tasks
            && s1.shared.state.lastTriggeredAt == s.shared.state.lastTriggeredAt
  {
    if task.pc.LocalStored? {
      assert Effect(s, task, timeouts, nodes).shared.state == MarkLocal(s.shared, s.now).state;
    } else if task.pc.RemoteStored? {
      assert Effect(s, task, timeouts, nodes).shared.state == MarkRemote(s.shared, s.now, timeouts, nodes).state;
    } else {
      assert Effect(s, task, timeouts, nodes).shared.state == s.shared.state;
    }
  }

  lemma InvalidatorTimed(s: Sys, id: nat)
    requires Timed(s) && id in s.invalidators
    ensures Timed(InvalidatorStep(s, id))
  {
    hide Timed;
    var s' := InvalidatorStep(s, id);
    if s.invalidators[id].pc.AtTrigger? {
      var removed := s.(invalidators := s.invalidators - {id});
      SameTimed(s, removed);
      CallsTimed(removed);
      hide TriggerStep;
    } else if s.invalidators[id].pc.AtLock? {
      assert s'.log == Record(s, Inval).log && s'.now == s.now && s'.shared.state.lastTriggeredAt.None?;
      hide InvalidatorStep, Record;
      RecordTimed(s, s', Inval);
    } else {
      assert s'.log == s.log && s'.now == s.now;
      assert s'.shared.state.lastTriggeredAt == s.shared.state.lastTriggeredAt;
      hide InvalidatorStep;
      SameTimed(s, s');
    }
  }

  lemma StepTimed(s: Sys, step: Step)
    requires Timed(s) && Enabled(s, step)
    ensures Timed(Apply(s, step))
  {
    hide TriggerStep, EnsureLocalStep, TaskStep, InvalidatorStep, LastStart, InvalSinceStart, TimesOrdered;
    if step.CallTrigger? || step.CallEnsureLocal? {
      CallsTimed(s);
    } else if step.AdvanceTask? {
      TaskTimed(s, step.id, step.timeouts, step.nodes);
    } else if step.AdvanceInvalidator? {
      InvalidatorTimed(s, step.id);
    }
  }

  lemma {:induction false} RunTimed(s: Sys, steps: seq<Step>)
    requires Timed(s) && Legal(s, steps)
    ensures Timed(Exec(s, steps))
    decreases |steps|
  {
    hide Timed, Enabled, Apply;
    if steps != [] {
      StepTimed(s, steps[0]);
      RunTimed(Apply(s, steps[0]), steps[1..]);
    }
  }

  // ----- when a call starts a cycle -----

  /** Every cycle start so far has an invalidation after it or lies at least a debounce interval back. */
  predicate Due(log: seq<Entry>, now: nat, debounce: nat) {
    forall i :: 0 <= i < |log| && log[i].kind.Start? ==>
      (exists j :: i < j < |log| && log[j].kind.Inval?) || now >= log[i].at + debounce
  }

  lemma {:induction false} BeginIsLastStart(log: seq<Entry>)
    ensures LastBegin(log) > 0 ==> LastStart(log) == Some(log[LastBegin(log) - 1].at)
    ensures LastBegin(log) == 0 ==> LastStart(log).None?
  {
    if log != [] {
      BeginIsLastStart(log[..|log| - 1]);
    }
  }

  lemma DueExact(log: seq<Entry>, now: nat, debounce: nat)
    requires TimesOrdered(log)
    ensures Due(log, now, debounce) <==>
              InvalSinceStart(log) || LastStart(log).None? || now >= LastStart(log).value + debounce
  {
    BeginVersusInval(log);
    BeginIsLastStart(log);
    var b, v := LastBegin(log), LastInval(log);
    assert b > 0 ==> log[b - 1].kind.Start?;
    assert v > 0 ==> log[v - 1].kind.Inval?;
    assert forall i :: 0 <= i < |log| && log[i].kind.Start? ==> i < b && log[i].at <= log[b - 1].at;
    assert forall j :: 0 <= j < |log| && log[j].kind.Inval? ==> j < v;
    hide LastBegin, LastInval, LastStart, InvalSinceStart;
  }

  /**
   On every run, steady or not: a trigger starts a cycle exactly when no flag is up and the history says
   that one is due; `ensure_local_refresh` does so too when there is no local data.
   */
  lemma DispositionExact(debounce: nat, steps: seq<Step>)
    requires Legal(Initial(debounce), steps)
    ensures var s := Exec(Initial(debounce), steps);
            var free := !s.shared.state.localRefreshing && !s.shared.state.remoteRefreshing;
            && (Trigger(s.shared, s.now, s.debounce).1.Started? <==> free && Due(s.log, s.now, s.debounce))
            && (EnsureLocal(s.shared, s.now, s.debounce).1.Started? <==>
                  free && (Due(s.log, s.now, s.debounce) || s.shared.state.localUpdatedAt.None?))
            && (Trigger(s.shared, s.now, s.debounce).1.AlreadyInProgress? <==> !free)
            && (EnsureLocal(s.shared, s.now, s.debounce).1.AlreadyInProgress? <==> !free)
  {
    RunTimed(Initial(debounce), steps);
    var s := Exec(Initial(debounce), steps);
    assert Timed(s);
    hide Exec, Legal;
    DispositionOf(s);
  }

  lemma DispositionOf(s: Sys)
    requires Timed(s)
    ensures var free := !s.shared.state.Refreshing();
            && (Trigger(s.shared, s.now, s.debounce).1.Started? <==> free && Due(s.log, s.now, s.debounce))
            && (EnsureLocal(s.shared, s.now, s.debounce).1.Started? <==>
                  free && (Due(s.log, s.now, s.debounce) || s.shared.state.localUpdatedAt.None?))
            && (Trigger(s.shared, s.now, s.debounce).1.AlreadyInProgress? <==> !free)
            && (EnsureLocal(s.shared, s.now, s.debounce).1.AlreadyInProgress? <==> !free)
  {
    DueExact(s.log, s.now, s.debounce);
    LastStartIsEarlier(s.log, s.now);
    hide Due, InvalSinceStart, LastStart, TimesOrdered;
  }

  /** What a call leaves behind when it starts a cycle, and when it does not. */
  predicate Called(s: Sys, t: Sys, starts: bool, pc: TaskPc) {
    && t.log == (if starts then s.log + [Entry(Start, s.now, s.localData, s.remoteData)] else s.log)
    && t.tasks == (if starts then map[s.nextTask := Task(|s.log|, pc)] else s.tasks)
    && (starts || !Idle(s) ==>
          && t.taken == s.taken[s.shared.nextHandle := Cycles(t.log, Start)]
          && t.shared.handles == s.shared.handles[s.shared.nextHandle := t.shared.state.doneTx])
    && (!starts && Idle(s) ==> t == s)
    && t.shared.local == s.shared.local && t.shared.remote == s.shared.remote
  }

  /**
   On every steady run a trigger, and likewise `ensure_local_refresh`, starts a cycle exactly when none
   runs and one is due by the history. It hands out a handle for the running cycle, new or joined, and
   changes nothing when it is debounced. With none running and none due there always is local data.
   */
  lemma CallsExact(s: Sys)
    requires Reachable(s)
    ensures Called(s, Apply(s, CallTrigger), Idle(s) && Due(s.log, s.now, s.debounce), Unspawned)
    ensures Called(s, Apply(s, CallEnsureLocal), Idle(s) && Due(s.log, s.now, s.debounce), LocalUnspawned)
  {
    ReachableInv(s);
    assert SingleFlight(s) && Timed(s);
    DispositionOf(s);
    if Idle(s) && !Due(s.log, s.now, s.debounce) {
      DueExact(s.log, s.now, s.debounce);
      assert Timestamped(s);
      assert s.shared.state.localUpdatedAt.Some?;
    }
    hide Inv, Due, Reachable, Timed, LastStart, InvalSinceStart;
    TriggerCalled(s);
    EnsureLocalCalled(s);
  }

  lemma TriggerCalled(s: Sys)
    requires SingleFlight(s)
    requires Trigger(s.shared, s.now, s.debounce).1.AlreadyInProgress? <==> !Idle(s)
    ensures Called(s, TriggerStep(s), Trigger(s.shared, s.now, s.debounce).1.Started?, Unspawned)
  {
    hide Trigger, Cycles;
    if Idle(s) {
      assert s.tasks == map[];
    }
  }

  lemma EnsureLocalCalled(s: Sys)
    requires SingleFlight(s)
    requires EnsureLocal(s.shared, s.now, s.debounce).1.AlreadyInProgress? <==> !Idle(s)
    ensures Called(s, EnsureLocalStep(s), EnsureLocal(s.shared, s.now, s.debounce).1.Started?, LocalUnspawned)
  {
    hide EnsureLocal, Cycles;
    if Idle(s) {
      assert s.tasks == map[];
    }
  }

  // ----- whole calls -----

  lemma Then(s: Sys, step: Step, rest: seq<Step>, end: Sys)
    requires Enabled(s, step) && Legal(Apply(s, step), rest) && Exec(Apply(s, step), rest) == end
    ensures Legal(s, [step] + rest) && Exec(s, [step] + rest) == end
  {
    assert ([step] + rest)[1..] == rest;
  }

  /** An `invalidate_*` call up to its trigger. */
  function Invalidation(scope: Scope, id: nat): seq<Step> {
    var clear := AdvanceInvalidator(id);
    [BeginInvalidate(scope)] + ([clear] + (if scope.Both? then [clear] + ([clear] + []) else [clear] + []))
  }

  /** What `invalidate_local`, `invalidate_remote` and `invalidate_all` leave behind before they trigger. */
  function AfterInvalidation(s: Sys, scope: Scope): Sys {
    var state := s.shared.state;
    s.(shared := s.shared.(
         local := if scope == RemoteOnly then s.shared.local else Cleared,
         remote := if scope == LocalOnly then s.shared.remote else Cleared,
         state := state.(
           localUpdatedAt := if scope == RemoteOnly then state.localUpdatedAt else None,
           remoteUpdatedAt := if scope == LocalOnly then state.remoteUpdatedAt else None,
           lastTriggeredAt := None,
           rerunRequested := state.rerunRequested || state.localRefreshing || state.remoteRefreshing)),
       invalidators := s.invalidators[s.nextInvalidator := Invalidator(scope, AtTrigger)],
       nextInvalidator := s.nextInvalidator + 1,
       log := s.log + [Entry(Inval, s.now, s.localData, s.remoteData)])
  }

  function InvalidatorAt(s: Sys, scope: Scope, pc: InvalidatorPc, local: Snapshot, remote: Snapshot): Sys {
    s.(shared := s.shared.(local := local, remote := remote),
       invalidators := s.invalidators[s.nextInvalidator := Invalidator(scope, pc)],
       nextInvalidator := s.nextInvalidator + 1)
  }

  /** The steps of an invalidator one by one. */
  lemma InvalidatorMoves(s: Sys, scope: Scope, local: Snapshot, remote: Snapshot)
    ensures var id := s.nextInvalidator;
            && InvalidatorStep(InvalidatorAt(s, scope, Begun, local, remote), id)
               == (if scope == RemoteOnly then InvalidatorAt(s, scope, AtLock, local, Cleared)
                   else InvalidatorAt(s, scope, if scope == Both then HalfCleared else AtLock, Cleared, remote))
            && InvalidatorStep(InvalidatorAt(s, scope, HalfCleared, local, remote), id)
               == InvalidatorAt(s, scope, AtLock, local, Cleared)
  {
  }

  lemma InvalidatorLocks(s: Sys, scope: Scope)
    ensures var id := s.nextInvalidator;
            var local, remote := if scope == RemoteOnly then s.shared.local else Cleared,
                                 if scope == LocalOnly then s.shared.remote else Cleared;
            InvalidatorStep(InvalidatorAt(s, scope, AtLock, local, remote), id) == AfterInvalidation(s, scope)
  {
  }

  /** An invalidation without interruption, from any state: what it empties, unsets and asks for, and nothing else. */
  lemma InvalidationExact(s: Sys, scope: Scope)
    ensures Legal(s, Invalidation(scope, s.nextInvalidator))
    ensures Exec(s, Invalidation(scope, s.nextInvalidator)) == AfterInvalidation(s, scope)
  {
    var id := s.nextInvalidator;
    var a := InvalidatorAt(s, scope, Begun, s.shared.local, s.shared.remote);
    var clear, end := AdvanceInvalidator(id), AfterInvalidation(s, scope);
    assert Apply(s, BeginInvalidate(scope)) == a;
    InvalidatorMoves(s, scope, s.shared.local, s.shared.remote);
    InvalidatorMoves(s, scope, Cleared, s.shared.remote);
    InvalidatorLocks(s, scope);
    hide InvalidatorStep, AfterInvalidation;
    var b := Apply(a, clear);
    if scope.Both? {
      var c := Apply(b, clear);
      Then(c, clear, [], end);
      Then(b, clear, [clear] + [], end);
      Then(a, clear, [clear] + ([clear] + []), end);
      Then(s, BeginInvalidate(scope), [clear] + ([clear] + ([clear] + [])), end);
    } else {
      Then(b, clear, [], end);
      Then(a, clear, [clear] + [], end);
      Then(s, BeginInvalidate(scope), [clear] + ([clear] + []), end);
    }
  }

  /** A cycle of both sides: spawned, both fetches, the two stores and timestamps, the end. */
  function FullCycle(id: nat, timeouts: nat, nodes: nat): seq<Step> {
    var go := AdvanceTask(id, timeouts, nodes);
    [go] + ([FetchLocal(id)] + ([FetchRemote(id)] + ([go] + ([go] + ([go] + ([go] + ([go] + ([go] + []))))))))
  }

  function LocalOnlyCycle(id: nat): seq<Step> {
    var go := AdvanceTask(id, 0, 0);
    [go] + ([FetchLocal(id)] + ([go] + ([go] + [])))
  }

  function TaskAt(s: Sys, id: nat, task: Task, shared: Shared, wipedLocal: bool, wipedRemote: bool): Sys {
    s.(shared := shared, tasks := map[id := task], wipedLocal := wipedLocal, wipedRemote := wipedRemote)
  }

  predicate Goes(s: Sys, step: Step, t: Sys) { Enabled(s, step) && Apply(s, step) == t }

  lemma GoesThen(s: Sys, step: Step, t: Sys, rest: seq<Step>, end: Sys)
    requires Goes(s, step, t) && Legal(t, rest) && Exec(t, rest) == end
    ensures Legal(s, [step] + rest) && Exec(s, [step] + rest) == end
  {
    Then(s, step, rest, end);
  }

  lemma FetchesFirst(s: Sys, id: nat, cycle: nat)
    requires s.tasks == map[id := Task(cycle, Fetching(None, None))]
    ensures Goes(s, FetchLocal(id), s.(tasks := map[id := Task(cycle, Fetching(Some(s.localData), None))]))
  {
  }

  lemma FetchesSecond(s: Sys, id: nat, cycle: nat, l: Option<nat>)
    requires s.tasks == map[id := Task(cycle, Fetching(l, None))]
    ensures Goes(s, FetchRemote(id), s.(tasks := map[id := Task(cycle, Fetching(l, Some(s.remoteData)))]))
  {
  }

  /** Any step of a task that is not its last. */
  lemma TaskGoes(s: Sys, id: nat, cycle: nat, pc: TaskPc, timeouts: nat, nodes: nat)
    requires s.tasks == map[id := Task(cycle, pc)]
    requires !pc.AtFinish? && !pc.LocalAtFinish? && Enabled(s, AdvanceTask(id, timeouts, nodes))
    ensures var e := Effect(s, Task(cycle, pc), timeouts, nodes);
            Goes(s, AdvanceTask(id, timeouts, nodes),
                 TaskAt(s, id, Task(cycle, NextPc(pc)), e.shared, e.wipedLocal, e.wipedRemote))
  {
    var e := Effect(s, Task(cycle, pc), timeouts, nodes);
    assert e == s.(shared := e.shared, wipedLocal := e.wipedLocal, wipedRemote := e.wipedRemote);
    hide Effect, NextPc;
    assert map[id := Task(cycle, pc)][id := Task(cycle, NextPc(pc))] == map[id := Task(cycle, NextPc(pc))];
  }

  /** What a finished cycle has left, apart from the flags. */
  predicate Delivered(s: Sys, t: Sys, cycle: nat) {
    && t.shared.local == Stored(cycle, s.localData)
    && t.shared.state.localUpdatedAt == Some(s.now)
    && t.shared.updateVersion == s.shared.updateVersion + 1
    && t.shared.handles == s.shared.handles && !t.wipedLocal
    && (forall h :: h in s.shared.handles && s.shared.handles[h] == s.shared.state.doneTx < |s.shared.channels| ==>
          t.shared.Released(h))
  }

  /** Everything is at rest again, with one more completed cycle in the history. */
  predicate Rested(s: Sys, t: Sys) {
    && t.tasks == map[] && t.nextTask == s.nextTask
    && !t.shared.state.localRefreshing && !t.shared.state.rerunRequested
    && t.log == s.log + [Entry(Done, s.now, s.localData, s.remoteData)]
  }

  /** One more cycle of both sides is under way. */
  predicate Restarted(s: Sys, t: Sys) {
    && t.tasks == map[s.nextTask := Task(|s.log| + 1, Unspawned)]
    && t.shared.state.localRefreshing && t.shared.state.remoteRefreshing && !t.shared.state.rerunRequested
    && t.log == s.log + [Entry(Done, s.now, s.localData, s.remoteData), Entry(Start, s.now, s.localData, s.remoteData)]
  }

  lemma CycleEnds(s: Sys, id: nat, cycle: nat)
    requires s.tasks == map[id := Task(cycle, AtFinish)]
    ensures var t := FinishStep(s, id);
            && t.shared.local == s.shared.local && t.shared.remote == s.shared.remote
            && t.shared.state.localUpdatedAt == s.shared.state.localUpdatedAt
            && t.shared.state.remoteUpdatedAt == s.shared.state.remoteUpdatedAt
            && t.shared.state.remoteTimeoutCount == s.shared.state.remoteTimeoutCount
            && t.shared.state.remoteNodeCount == s.shared.state.remoteNodeCount
            && t.shared.updateVersion == s.shared.updateVersion + 1
            && t.shared.handles == s.shared.handles && t.wipedLocal == s.wipedLocal && t.wipedRemote == s.wipedRemote
            && (if s.shared.state.rerunRequested then Restarted(s, t)
                else Rested(s, t) && !t.shared.state.remoteRefreshing)
  {
    var e := EndStep(s, id);
    assert e.tasks == map[];
    assert e.log == s.log + [Entry(Done, s.now, s.localData, s.remoteData)];
  }

  lemma CycleReleases(s: Sys, id: nat, h: nat)
    requires id in s.tasks && h in s.shared.handles
    requires s.shared.handles[h] == s.shared.state.doneTx < |s.shared.channels|
    ensures FinishStep(s, id).shared.Released(h)
    ensures FinishLocalStep(s, id).shared.Released(h)
  {
    assert s.shared.state.doneTx in s.shared.handles.Values;
  }

  lemma Finishes(s: Sys, id: nat, timeouts: nat, nodes: nat)
    requires id in s.tasks && s.tasks[id].pc.AtFinish?
    ensures var go := AdvanceTask(id, timeouts, nodes);
            Legal(s, [go] + []) && Exec(s, [go] + []) == FinishStep(s, id)
  {
    hide FinishStep;
    Then(s, AdvanceTask(id, timeouts, nodes), [], FinishStep(s, id));
  }

  lemma FetchesBoth(s: Sys, id: nat, cycle: nat, timeouts: nat, nodes: nat, rest: seq<Step>, end: Sys)
    requires s.tasks == map[id := Task(cycle, Unspawned)]
    requires var d := TaskAt(s, id, Task(cycle, StoreLocal(s.localData, s.remoteData)), s.shared, s.wipedLocal,
                             s.wipedRemote);
             Legal(d, rest) && Exec(d, rest) == end
    ensures var go := AdvanceTask(id, timeouts, nodes);
            var steps := [go] + ([FetchLocal(id)] + ([FetchRemote(id)] + ([go] + rest)));
            Legal(s, steps) && Exec(s, steps) == end
  {
    var go, l, r := AdvanceTask(id, timeouts, nodes), Some(s.localData), Some(s.remoteData);
    var a := TaskAt(s, id, Task(cycle, Fetching(None, None)), s.shared, s.wipedLocal, s.wipedRemote);
    PlainGoes(s, id, cycle, Unspawned, timeouts, nodes);
    FetchesOn(a, id, cycle, timeouts, nodes, rest, end);
    hide Goes, Legal, Exec, Enabled;
    GoesThen(s, go, a, [FetchLocal(id)] + ([FetchRemote(id)] + ([go] + rest)), end);
  }

  /** A step that only moves the task on. */
  lemma PlainGoes(s: Sys, id: nat, cycle: nat, pc: TaskPc, timeouts: nat, nodes: nat)
    requires s.tasks == map[id := Task(cycle, pc)]
    requires pc.Unspawned? || pc.LocalUnspawned? || (pc.Fetching? && pc.gotLocal.Some? && pc.gotRemote.Some?)
    ensures Goes(s, AdvanceTask(id, timeouts, nodes), s.(tasks := map[id := Task(cycle, NextPc(pc))]))
  {
    TaskGoes(s, id, cycle, pc, timeouts, nodes);
    assert Effect(s, Task(cycle, pc), timeouts, nodes) == s;
    hide Goes, NextPc, Effect;
  }

  lemma FetchesOn(a: Sys, id: nat, cycle: nat, timeouts: nat, nodes: nat, rest: seq<Step>, end: Sys)
    requires a.tasks == map[id := Task(cycle, Fetching(None, None))]
    requires var d := a.(tasks := map[id := Task(cycle, StoreLocal(a.localData, a.remoteData))]);
             Legal(d, rest) && Exec(d, rest) == end
    ensures var go := AdvanceTask(id, timeouts, nodes);
            var steps := [FetchLocal(id)] + ([FetchRemote(id)] + ([go] + rest));
            Legal(a, steps) && Exec(a, steps) == end
  {
    var go, l, r := AdvanceTask(id, timeouts, nodes), Some(a.localData), Some(a.remoteData);
    var b := a.(tasks := map[id := Task(cycle, Fetching(l, None))]);
    var c := a.(tasks := map[id := Task(cycle, Fetching(l, r))]);
    var d := a.(tasks := map[id := Task(cycle, StoreLocal(l.value, r.value))]);
    PlainGoes(c, id, cycle, Fetching(l, r), timeouts, nodes);
    FetchesFirst(a, id, cycle);
    FetchesSecond(b, id, cycle, l);
    hide Goes, Legal, Exec, Enabled;
    GoesThen(c, go, d, rest, end);
    GoesThen(b, FetchRemote(id), c, [go] + rest, end);
    GoesThen(a, FetchLocal(id), b, [FetchRemote(id)] + ([go] + rest), end);
  }

  /** Both sides stored and stamped. */
  function WithBoth(s: Sys, cycle: nat, timeouts: nat, nodes: nat): Shared {
    var local := MarkLocal(s.shared.(local := Stored(cycle, s.localData)), s.now);
    MarkRemote(local.(remote := Stored(cycle, s.remoteData)), s.now, timeouts, nodes)
  }

  lemma StoresLocal(d: Sys, id: nat, cycle: nat, l: nat, r: nat, timeouts: nat, nodes: nat, rest: seq<Step>, end: Sys)
    requires d.tasks == map[id := Task(cycle, StoreLocal(l, r))]
    requires var f := TaskAt(d, id, Task(cycle, StoreRemote(r)),
                             MarkLocal(d.shared.(local := Stored(cycle, l)), d.now), false, d.wipedRemote);
             Legal(f, rest) && Exec(f, rest) == end
    ensures var go := AdvanceTask(id, timeouts, nodes);
            Legal(d, [go] + ([go] + rest)) && Exec(d, [go] + ([go] + rest)) == end
  {
    var go := AdvanceTask(id, timeouts, nodes);
    var stored := d.shared.(local := Stored(cycle, l));
    var e := TaskAt(d, id, Task(cycle, LocalStored(r)), stored, false, d.wipedRemote);
    var f := TaskAt(d, id, Task(cycle, StoreRemote(r)), MarkLocal(stored, d.now), false, d.wipedRemote);
    TaskGoes(d, id, cycle, StoreLocal(l, r), timeouts, nodes);
    TaskGoes(e, id, cycle, LocalStored(r), timeouts, nodes);
    hide Goes, Legal, Exec, Enabled, MarkLocal, MarkRemote;
    GoesThen(e, go, f, rest, end);
    GoesThen(d, go, e, [go] + rest, end);
  }

  lemma StoresRemote(f: Sys, id: nat, cycle: nat, r: nat, timeouts: nat, nodes: nat, rest: seq<Step>, end: Sys)
    requires f.tasks == map[id := Task(cycle, StoreRemote(r))]
    requires var h := TaskAt(f, id, Task(cycle, AtFinish),
                             MarkRemote(f.shared.(remote := Stored(cycle, r)), f.now, timeouts, nodes), f.wipedLocal,
                             false);
             Legal(h, rest) && Exec(h, rest) == end
    ensures var go := AdvanceTask(id, timeouts, nodes);
            Legal(f, [go] + ([go] + rest)) && Exec(f, [go] + ([go] + rest)) == end
  {
    var go := AdvanceTask(id, timeouts, nodes);
    var stored := f.shared.(remote := Stored(cycle, r));
    var g := TaskAt(f, id, Task(cycle, RemoteStored), stored, f.wipedLocal, false);
    var h := TaskAt(f, id, Task(cycle, AtFinish), MarkRemote(stored, f.now, timeouts, nodes), f.wipedLocal, false);
    TaskGoes(f, id, cycle, StoreRemote(r), timeouts, nodes);
    TaskGoes(g, id, cycle, RemoteStored, timeouts, nodes);
    hide Goes, Legal, Exec, Enabled, MarkLocal, MarkRemote;
    GoesThen(g, go, h, rest, end);
    GoesThen(f, go, g, [go] + rest, end);
  }

  /**
   A cycle of both sides without interruption, from any state in which it is about to be spawned: both
   snapshots hold today's data, both timestamps and the counts are set, its waiters are released, and it
   starts over exactly when a rerun was requested.
   */
  lemma FullCycleDelivers(s: Sys, id: nat, cycle: nat, timeouts: nat, nodes: nat)
    requires s.tasks == map[id := Task(cycle, Unspawned)]
    ensures Legal(s, FullCycle(id, timeouts, nodes))
    ensures var t := Exec(s, FullCycle(id, timeouts, nodes));
            && Delivered(s, t, cycle)
            && t.shared.remote == Stored(cycle, s.remoteData) && !t.wipedRemote
            && t.shared.state.remoteUpdatedAt == Some(s.now)
            && t.shared.state.remoteTimeoutCount == timeouts && t.shared.state.remoteNodeCount == nodes
            && (if s.shared.state.rerunRequested then Restarted(s, t)
                else Rested(s, t) && !t.shared.state.remoteRefreshing)
  {
    var stored := WithBoth(s, cycle, timeouts, nodes);
    var ready := TaskAt(s, id, Task(cycle, AtFinish), stored, false, false);
    var go, end := AdvanceTask(id, timeouts, nodes), FinishStep(ready, id);
    Finishes(ready, id, timeouts, nodes);
    CycleEnds(ready, id, cycle);
    forall h | h in s.shared.handles && s.shared.handles[h] == s.shared.state.doneTx < |s.shared.channels|
      ensures end.shared.Released(h)
    {
      CycleReleases(ready, id, h);
    }
    hide FinishStep, Legal, Exec;
    var d := TaskAt(s, id, Task(cycle, StoreLocal(s.localData, s.remoteData)), s.shared, s.wipedLocal, s.wipedRemote);
    var f := TaskAt(s, id, Task(cycle, StoreRemote(s.remoteData)),
                    MarkLocal(s.shared.(local := Stored(cycle, s.localData)), s.now), false, s.wipedRemote);
    StoresRemote(f, id, cycle, s.remoteData, timeouts, nodes, [go] + [], end);
    StoresLocal(d, id, cycle, s.localData, s.remoteData, timeouts, nodes, [go] + ([go] + ([go] + [])), end);
    FetchesBoth(s, id, cycle, timeouts, nodes, [go] + ([go] + ([go] + ([go] + ([go] + [])))), end);
  }

  lemma LocalCycleEnds(s: Sys, id: nat, cycle: nat)
    requires s.tasks == map[id := Task(cycle, LocalAtFinish)]
    ensures var t := FinishLocalStep(s, id);
            && t.shared.local == s.shared.local && t.shared.remote == s.shared.remote
            && t.shared.state.localUpdatedAt == Some(s.now)
            && t.shared.state.remoteUpdatedAt == s.shared.state.remoteUpdatedAt
            && t.shared.updateVersion == s.shared.updateVersion + 1
            && t.shared.handles == s.shared.handles && t.wipedLocal == s.wipedLocal
            && (!s.shared.state.rerunRequested ==> Rested(s, t))
  {
    var t := FinishLocalStep(s, id);
    assert s.tasks - {id} == map[];
  }

  function LocalReady(s: Sys, id: nat, cycle: nat): Sys {
    TaskAt(s, id, Task(cycle, LocalAtFinish), s.shared.(local := Stored(cycle, s.localData)), false, s.wipedRemote)
  }

  lemma LocalCycleRuns(s: Sys, id: nat, cycle: nat)
    requires s.tasks == map[id := Task(cycle, LocalUnspawned)]
    ensures Legal(s, LocalOnlyCycle(id))
    ensures Exec(s, LocalOnlyCycle(id)) == FinishLocalStep(LocalReady(s, id, cycle), id)
  {
    var a := s.(tasks := map[id := Task(cycle, LocalFetching)]);
    var go, end := AdvanceTask(id, 0, 0), FinishLocalStep(LocalReady(s, id, cycle), id);
    PlainGoes(s, id, cycle, LocalUnspawned, 0, 0);
    assert LocalReady(a, id, cycle) == LocalReady(s, id, cycle);
    hide FinishLocalStep, Goes, Legal, Exec, Enabled;
    LocalCycleRest(a, id, cycle);
    GoesThen(s, go, a, [FetchLocal(id)] + ([go] + ([go] + [])), end);
  }

  lemma LocalCycleRest(a: Sys, id: nat, cycle: nat)
    requires a.tasks == map[id := Task(cycle, LocalFetching)]
    ensures var go, end := AdvanceTask(id, 0, 0), FinishLocalStep(LocalReady(a, id, cycle), id);
            var steps := [FetchLocal(id)] + ([go] + ([go] + []));
            Legal(a, steps) && Exec(a, steps) == end
  {
    var b, c := a.(tasks := map[id := Task(cycle, LocalStore(a.localData))]), LocalReady(a, id, cycle);
    var go, end := AdvanceTask(id, 0, 0), FinishLocalStep(c, id);
    LocalFetches(a, id, cycle);
    TaskGoes(b, id, cycle, LocalStore(a.localData), 0, 0);
    FinishesLocal(c, id);
    hide FinishLocalStep, Goes, Legal, Exec, Enabled;
    GoesThen(b, go, c, [go] + [], end);
    GoesThen(a, FetchLocal(id), b, [go] + ([go] + []), end);
  }

  /** The same for a local-only cycle, which leaves the remote side alone. */
  lemma LocalCycleDelivers(s: Sys, id: nat, cycle: nat)
    requires s.tasks == map[id := Task(cycle, LocalUnspawned)]
    ensures Legal(s, LocalOnlyCycle(id))
    ensures var t := Exec(s, LocalOnlyCycle(id));
            && Delivered(s, t, cycle)
            && t.shared.remote == s.shared.remote
            && t.shared.state.remoteUpdatedAt == s.shared.state.remoteUpdatedAt
            && (!s.shared.state.rerunRequested ==> Rested(s, t))
  {
    var c := LocalReady(s, id, cycle);
    var end := FinishLocalStep(c, id);
    LocalCycleEnds(c, id, cycle);
    forall h | h in s.shared.handles && s.shared.handles[h] == s.shared.state.doneTx < |s.shared.channels|
      ensures end.shared.Released(h)
    {
      CycleReleases(c, id, h);
    }
    hide FinishLocalStep, Legal, Exec;
    LocalCycleRuns(s, id, cycle);
  }

  lemma LocalFetches(s: Sys, id: nat, cycle: nat)
    requires s.tasks == map[id := Task(cycle, LocalFetching)]
    ensures Goes(s, FetchLocal(id), s.(tasks := map[id := Task(cycle, LocalStore(s.localData))]))
  {
  }

  lemma FinishesLocal(s: Sys, id: nat)
    requires id in s.tasks && s.tasks[id].pc.LocalAtFinish?
    ensures var go := AdvanceTask(id, 0, 0);
            Legal(s, [go] + []) && Exec(s, [go] + []) == FinishLocalStep(s, id)
  {
    hide FinishLocalStep;
    Then(s, AdvanceTask(id, 0, 0), [], FinishLocalStep(s, id));
  }
}
