/** The runs that mark where the guarantees of the refresh protocol end. */
module InventoryLimits {
  import opened Prelude
  import opened Inventory
  import opened InventoryProtocol
  import opened InventoryInvariant
  import opened InventoryTheorems

  /** One more step of a run under construction. */
  lemma {:induction false} Extend(s: Sys, steps: seq<Step>, step: Step)
    requires Legal(s, steps) && Enabled(Exec(s, steps), step)
    ensures Legal(s, steps + [step]) && Exec(s, steps + [step]) == Apply(Exec(s, steps), step)
    decreases |steps|
  {
    hide Apply, Enabled;
    if steps == [] {
      assert [step][1..] == [];
      assert Exec(Apply(s, step), []) == Apply(s, step);
    } else {
      Extend(Apply(s, steps[0]), steps[1..], step);
      assert (steps + [step])[1..] == steps[1..] + [step];
    }
  }

  /** A whole invalidation with its cycle, then a second invalidator that has only emptied the local snapshot. */
  const CLEARED_AGAIN: seq<Step> := [
    BeginInvalidate(LocalOnly), AdvanceInvalidator(0), AdvanceInvalidator(0), AdvanceInvalidator(0),
    AdvanceTask(0, 0, 0), FetchLocal(0), FetchRemote(0),
    AdvanceTask(0, 0, 0), AdvanceTask(0, 0, 0), AdvanceTask(0, 0, 0), AdvanceTask(0, 0, 0), AdvanceTask(0, 0, 0),
    AdvanceTask(0, 0, 0),
    BeginInvalidate(LocalOnly), AdvanceInvalidator(1)]

  /** Between its mutex region and its trigger an invalidator of the remote side meets a local-only cycle. */
  const JOINED_LOCAL_CYCLE: seq<Step> := [
    BeginInvalidate(RemoteOnly), AdvanceInvalidator(0), AdvanceInvalidator(0),
    CallEnsureLocal, AdvanceInvalidator(0),
    AdvanceTask(0, 0, 0), FetchLocal(0), AdvanceTask(0, 0, 0), AdvanceTask(0, 0, 0)]

  lemma RunsTo(s: Sys, steps: seq<Step>, n: nat, t: Sys)
    requires n < |steps| && Legal(s, steps[..n]) && Exec(s, steps[..n]) == t && Enabled(t, steps[n])
    ensures Legal(s, steps[..n + 1]) && Exec(s, steps[..n + 1]) == Apply(t, steps[n])
  {
    hide Apply, Enabled, Legal, Exec;
    Extend(s, steps[..n], steps[n]);
    assert steps[..n + 1] == steps[..n] + [steps[n]];
  }

  const QUIET: RefreshState := INITIAL.state

  /** The first run once its invalidator is at the trigger. */
  function ClearedOnce(debounce: nat): Sys {
    Initial(debounce).(invalidators := map[0 := Invalidator(LocalOnly, AtTrigger)], nextInvalidator := 1,
                       log := [Entry(Inval, 0, 0, 0)])
  }

  /** ... while its cycle runs ... */
  function ClearedCycle(debounce: nat, pc: TaskPc, local: Snapshot, localAt: Option<nat>, remote: Snapshot,
                        remoteAt: Option<nat>): Sys {
    Initial(debounce).(
      nextInvalidator := 1,
      shared := Shared(RefreshState(true, true, localAt, remoteAt, 0, 0, 1, Some(0), false), [true, false],
                       map[0 := 1], 1, local, remote, 0),
      tasks := map[0 := Task(1, pc)], nextTask := 1, taken := map[0 := 1], lastFull := 2,
      log := [Entry(Inval, 0, 0, 0), Entry(Start, 0, 0, 0)])
  }

  /** ... and when its cycle is over. */
  function ClearedSettled(debounce: nat): Sys {
    Initial(debounce).(
      nextInvalidator := 1,
      shared := Shared(RefreshState(false, false, Some(0), Some(0), 0, 0, 1, Some(0), false), [true, true],
                       map[0 := 1], 1, Stored(1, 0), Stored(1, 0), 1),
      nextTask := 1, taken := map[0 := 1], lastFull := 2,
      log := [Entry(Inval, 0, 0, 0), Entry(Start, 0, 0, 0), Entry(Done, 0, 0, 0)])
  }

  lemma OneStart()
    ensures [Entry(Inval, 0, 0, 0)] + [Entry(Start, 0, 0, 0)] == [Entry(Inval, 0, 0, 0), Entry(Start, 0, 0, 0)]
    ensures Cycles([Entry(Inval, 0, 0, 0), Entry(Start, 0, 0, 0)], Start) == 1
  {
    assert Cycles([Entry(Inval, 0, 0, 0)], Start) == 0;
    Recorded([Entry(Inval, 0, 0, 0)], Entry(Start, 0, 0, 0), 0);
    assert [Entry(Inval, 0, 0, 0)] + [Entry(Start, 0, 0, 0)] == [Entry(Inval, 0, 0, 0), Entry(Start, 0, 0, 0)];
  }

  lemma ClearedToOnce(debounce: nat)
    ensures Legal(Initial(debounce), CLEARED_AGAIN[..3])
    ensures Exec(Initial(debounce), CLEARED_AGAIN[..3]) == ClearedOnce(debounce)
  {
    var i, r := Initial(debounce), CLEARED_AGAIN;
    var s := i;
    assert r[..0] == [];
    RunsTo(i, r, 0, s); s := Apply(s, r[0]);
    RunsTo(i, r, 1, s); s := Apply(s, r[1]);
    RunsTo(i, r, 2, s); s := Apply(s, r[2]);
    assert s.invalidators == map[0 := Invalidator(LocalOnly, AtTrigger)];
  }

  lemma ClearedToStart(debounce: nat)
    ensures Legal(Initial(debounce), CLEARED_AGAIN[..4])
    ensures Exec(Initial(debounce), CLEARED_AGAIN[..4])
            == ClearedCycle(debounce, Unspawned, Cleared, None, Cleared, None)
  {
    var i, r := Initial(debounce), CLEARED_AGAIN;
    ClearedToOnce(debounce);
    hide Legal, Exec;
    var s := ClearedOnce(debounce);
    OneStart();
    RunsTo(i, r, 3, s); s := Apply(s, r[3]);
    assert s.tasks == map[0 := Task(1, Unspawned)] && s.taken == map[0 := 1] && s.invalidators == map[];
  }

  lemma ClearedToSpawned(debounce: nat)
    ensures Legal(Initial(debounce), CLEARED_AGAIN[..5])
    ensures Exec(Initial(debounce), CLEARED_AGAIN[..5])
            == ClearedCycle(debounce, Fetching(None, None), Cleared, None, Cleared, None)
  {
    var i, r := Initial(debounce), CLEARED_AGAIN;
    ClearedToStart(debounce);
    hide Legal, Exec;
    var s := ClearedCycle(debounce, Unspawned, Cleared, None, Cleared, None);
    RunsTo(i, r, 4, s); s := Apply(s, r[4]);
    assert s.tasks == map[0 := Task(1, Fetching(None, None))];
  }

  lemma ClearedToFetched(debounce: nat)
    ensures Legal(Initial(debounce), CLEARED_AGAIN[..7])
    ensures Exec(Initial(debounce), CLEARED_AGAIN[..7])
            == ClearedCycle(debounce, Fetching(Some(0), Some(0)), Cleared, None, Cleared, None)
  {
    var i, r := Initial(debounce), CLEARED_AGAIN;
    ClearedToSpawned(debounce);
    hide Legal, Exec;
    var s := ClearedCycle(debounce, Fetching(None, None), Cleared, None, Cleared, None);
    RunsTo(i, r, 5, s); s := Apply(s, r[5]);
    RunsTo(i, r, 6, s); s := Apply(s, r[6]);
    assert s.tasks == map[0 := Task(1, Fetching(Some(0), Some(0)))];
  }

  lemma ClearedToStoring(debounce: nat)
    ensures Legal(Initial(debounce), CLEARED_AGAIN[..10])
    ensures Exec(Initial(debounce), CLEARED_AGAIN[..10])
            == ClearedCycle(debounce, StoreRemote(0), Stored(1, 0), Some(0), Cleared, None)
  {
    var i, r := Initial(debounce), CLEARED_AGAIN;
    ClearedToFetched(debounce);
    hide Legal, Exec;
    var s := ClearedCycle(debounce, Fetching(Some(0), Some(0)), Cleared, None, Cleared, None);
    RunsTo(i, r, 7, s); s := Apply(s, r[7]);
    RunsTo(i, r, 8, s); s := Apply(s, r[8]);
    RunsTo(i, r, 9, s); s := Apply(s, r[9]);
    assert s.tasks == map[0 := Task(1, StoreRemote(0))];
  }

  lemma ClearedToFinishing(debounce: nat)
    ensures Legal(Initial(debounce), CLEARED_AGAIN[..12])
    ensures Exec(Initial(debounce), CLEARED_AGAIN[..12])
            == ClearedCycle(debounce, AtFinish, Stored(1, 0), Some(0), Stored(1, 0), Some(0))
  {
    var i, r := Initial(debounce), CLEARED_AGAIN;
    ClearedToStoring(debounce);
    hide Legal, Exec;
    var s := ClearedCycle(debounce, StoreRemote(0), Stored(1, 0), Some(0), Cleared, None);
    RunsTo(i, r, 10, s); s := Apply(s, r[10]);
    RunsTo(i, r, 11, s); s := Apply(s, r[11]);
    assert s.tasks == map[0 := Task(1, AtFinish)];
  }

  lemma ClearedToSettled(debounce: nat)
    ensures Legal(Initial(debounce), CLEARED_AGAIN[..13])
    ensures Exec(Initial(debounce), CLEARED_AGAIN[..13]) == ClearedSettled(debounce)
  {
    var i, r := Initial(debounce), CLEARED_AGAIN;
    ClearedToFinishing(debounce);
    hide Legal, Exec;
    var s := ClearedCycle(debounce, AtFinish, Stored(1, 0), Some(0), Stored(1, 0), Some(0));
    assert 0 in s.shared.handles && s.shared.handles[0] == 1;
    RunsTo(i, r, 12, s); s := Apply(s, r[12]);
    assert s.tasks == map[];
  }

  /**
   "No invalidator between its mutex region and its trigger" is not enough for both snapshots to
   hold data: here the local one is empty, because a second invalidator has emptied it and is still
   waiting for the mutex.
   */
  lemma EmptyWhileAnotherInvalidates(debounce: nat)
    ensures FullOnly(CLEARED_AGAIN) && NothingDropped(CLEARED_AGAIN) && Legal(Initial(debounce), CLEARED_AGAIN)
    ensures var s := Exec(Initial(debounce), CLEARED_AGAIN);
            Idle(s) && !AboutToTrigger(s) && LastInval(s.log) > 0 && s.shared.local.Cleared?
  {
    var i, r := Initial(debounce), CLEARED_AGAIN;
    ClearedToSettled(debounce);
    hide Legal, Exec;
    var s := ClearedSettled(debounce);
    RunsTo(i, r, 13, s); s := Apply(s, r[13]);
    RunsTo(i, r, 14, s); s := Apply(s, r[14]);
    assert r[..15] == r;
    LastInvalOfExample(debounce);
  }

  lemma LastInvalOfExample(debounce: nat)
    ensures LastInval([Entry(Inval, 0, 0, 0), Entry(Start, 0, 0, 0), Entry(Done, 0, 0, 0)]) == 1
  {
    var front := [Entry(Inval, 0, 0, 0), Entry(Start, 0, 0, 0)];
    assert LastInval([Entry(Inval, 0, 0, 0)]) == 1;
    Recorded([Entry(Inval, 0, 0, 0)], Entry(Start, 0, 0, 0), debounce);
    Recorded(front, Entry(Done, 0, 0, 0), debounce);
    assert front + [Entry(Done, 0, 0, 0)] == [Entry(Inval, 0, 0, 0), Entry(Start, 0, 0, 0), Entry(Done, 0, 0, 0)];
    assert front == [Entry(Inval, 0, 0, 0)] + [Entry(Start, 0, 0, 0)];
  }

  /** The local-only run after its third, fifth and last step. */
  function LostMid(debounce: nat): Sys {
    Initial(debounce).(invalidators := map[0 := Invalidator(RemoteOnly, AtTrigger)], nextInvalidator := 1,
                       log := [Entry(Inval, 0, 0, 0)])
  }

  function LostJoined(debounce: nat): Sys {
    LostMid(debounce).(
      invalidators := map[],
      shared := INITIAL.(state := QUIET.(lastTriggeredAt := Some(0), localRefreshing := true, doneTx := 1),
                         channels := [true, false], handles := map[0 := 1, 1 := 1], nextHandle := 2),
      tasks := map[0 := Task(1, LocalUnspawned)], nextTask := 1, taken := map[0 := 1, 1 := 1],
      log := [Entry(Inval, 0, 0, 0), Entry(Start, 0, 0, 0)])
  }

  function LostEnd(debounce: nat): Sys {
    LostJoined(debounce).(
      shared := INITIAL.(state := QUIET.(lastTriggeredAt := Some(0), localUpdatedAt := Some(0), doneTx := 1),
                         channels := [true, true], handles := map[0 := 1, 1 := 1], nextHandle := 2,
                         local := Stored(1, 0), updateVersion := 1),
      tasks := map[],
      log := [Entry(Inval, 0, 0, 0), Entry(Start, 0, 0, 0), Entry(Done, 0, 0, 0)])
  }

  lemma LostToMid(debounce: nat)
    ensures Legal(Initial(debounce), JOINED_LOCAL_CYCLE[..3])
    ensures Exec(Initial(debounce), JOINED_LOCAL_CYCLE[..3]) == LostMid(debounce)
  {
    var i, r := Initial(debounce), JOINED_LOCAL_CYCLE;
    var s := i;
    assert r[..0] == [];
    RunsTo(i, r, 0, s); s := Apply(s, r[0]);
    RunsTo(i, r, 1, s); s := Apply(s, r[1]);
    RunsTo(i, r, 2, s); s := Apply(s, r[2]);
    assert s.invalidators == map[0 := Invalidator(RemoteOnly, AtTrigger)];
  }

  lemma LostToJoined(debounce: nat)
    ensures Legal(Initial(debounce), JOINED_LOCAL_CYCLE[..5])
    ensures Exec(Initial(debounce), JOINED_LOCAL_CYCLE[..5]) == LostJoined(debounce)
  {
    var i, r := Initial(debounce), JOINED_LOCAL_CYCLE;
    LostToMid(debounce);
    hide Legal, Exec;
    var s := LostMid(debounce);
    OneStart();
    RunsTo(i, r, 3, s); s := Apply(s, r[3]);
    assert s.tasks == map[0 := Task(1, LocalUnspawned)] && s.taken == map[0 := 1];
    RunsTo(i, r, 4, s); s := Apply(s, r[4]);
    assert s.invalidators == map[];
    assert s.shared.handles == map[0 := 1, 1 := 1] && s.taken == map[0 := 1, 1 := 1];
  }

  lemma LostToStore(debounce: nat)
    ensures Legal(Initial(debounce), JOINED_LOCAL_CYCLE[..7])
    ensures Exec(Initial(debounce), JOINED_LOCAL_CYCLE[..7])
            == LostJoined(debounce).(tasks := map[0 := Task(1, LocalStore(0))])
  {
    var i, r := Initial(debounce), JOINED_LOCAL_CYCLE;
    LostToJoined(debounce);
    hide Legal, Exec;
    var s := LostJoined(debounce);
    RunsTo(i, r, 5, s); s := Apply(s, r[5]);
    RunsTo(i, r, 6, s); s := Apply(s, r[6]);
    assert s.tasks == map[0 := Task(1, LocalStore(0))];
  }

  lemma LostToEnd(debounce: nat)
    ensures Legal(Initial(debounce), JOINED_LOCAL_CYCLE[..9])
    ensures Exec(Initial(debounce), JOINED_LOCAL_CYCLE[..9]) == LostEnd(debounce)
  {
    var i, r := Initial(debounce), JOINED_LOCAL_CYCLE;
    LostToStore(debounce);
    hide Legal, Exec;
    var s := LostJoined(debounce).(tasks := map[0 := Task(1, LocalStore(0))]);
    RunsTo(i, r, 7, s); s := Apply(s, r[7]);
    assert s.tasks == map[0 := Task(1, LocalAtFinish)];
    RunsTo(i, r, 8, s); s := Apply(s, r[8]);
    assert 0 in s.shared.handles && s.shared.handles[0] == 1;
    assert s.tasks == map[];
  }

  /** With `ensure_local_refresh` an invalidation can be lost: nothing is left to refetch the remote side. */
  lemma LocalOnlyCycleLosesInvalidation(debounce: nat)
    ensures Legal(Initial(debounce), JOINED_LOCAL_CYCLE)
    ensures var s := Exec(Initial(debounce), JOINED_LOCAL_CYCLE);
            Idle(s) && s.invalidators == map[] && LastInval(s.log) > 0 && s.shared.remote.Cleared?
            && !s.shared.state.Refreshing() && !s.shared.state.rerunRequested
  {
    LostToEnd(debounce);
    hide Legal, Exec;
    assert JOINED_LOCAL_CYCLE[..9] == JOINED_LOCAL_CYCLE;
    LastInvalOfExample(debounce);
    assert LostEnd(debounce).tasks == map[];
  }

  // ----- an invalidator dropped before its trigger -----

  /** It empties the snapshot, a cycle that fetched before stores old data, it takes the mutex, and is dropped. */
  const DROPPED_TRIGGER: seq<Step> := [
    CallTrigger, AdvanceTask(0, 0, 0), FetchLocal(0), FetchRemote(0),
    LocalDataChanges, BeginInvalidate(LocalOnly), AdvanceInvalidator(0),
    AdvanceTask(0, 0, 0), AdvanceTask(0, 0, 0), AdvanceTask(0, 0, 0), AdvanceTask(0, 0, 0), AdvanceTask(0, 0, 0),
    AdvanceTask(0, 0, 0),
    AdvanceInvalidator(0), DropInvalidator(0)]

  /** Its cycle, with the data as it was at the start or as it is after the change. */
  function StaleCycle(debounce: nat, pc: TaskPc, localAt: Option<nat>, local: Snapshot, remote: Snapshot): Sys {
    Initial(debounce).(
      shared := Shared(RefreshState(true, true, localAt, None, 0, 0, 1, Some(0), false), [true, false],
                       map[0 := 1], 1, local, remote, 0),
      tasks := map[0 := Task(0, pc)], nextTask := 1, taken := map[0 := 1], log := [Entry(Start, 0, 0, 0)],
      lastFull := 1)
  }

  function Emptying(s: Sys): Sys {
    s.(localData := 1, invalidators := map[0 := Invalidator(LocalOnly, AtLock)], nextInvalidator := 1)
  }

  function StaleEnd(debounce: nat): Sys {
    Initial(debounce).(
      shared := Shared(RefreshState(false, false, Some(0), Some(0), 0, 0, 1, Some(0), false), [true, true],
                       map[0 := 1], 1, Stored(0, 0), Stored(0, 0), 1),
      nextTask := 1, taken := map[0 := 1], log := [Entry(Start, 0, 0, 0), Entry(Done, 0, 1, 0)], lastFull := 1,
      localData := 1, invalidators := map[0 := Invalidator(LocalOnly, AtLock)], nextInvalidator := 1)
  }

  lemma FirstStart()
    ensures [] + [Entry(Start, 0, 0, 0)] == [Entry(Start, 0, 0, 0)] && Cycles([Entry(Start, 0, 0, 0)], Start) == 1
  {
    Recorded([], Entry(Start, 0, 0, 0), 0);
  }

  /** The state after the very first call. */
  function FirstCall(debounce: nat, remoteToo: bool, pc: TaskPc): Sys {
    Initial(debounce).(
      shared := Shared(RefreshState(true, remoteToo, None, None, 0, 0, 1, Some(0), false), [true, false],
                       map[0 := 1], 1, Cleared, Cleared, 0),
      tasks := map[0 := Task(0, pc)], nextTask := 1, taken := map[0 := 1],
      log := [Entry(Start, 0, 0, 0)], lastFull := if remoteToo then 1 else 0)
  }

  lemma FirstTrigger(debounce: nat)
    ensures Apply(Initial(debounce), CallTrigger) == FirstCall(debounce, true, Unspawned)
  {
    FirstStart();
    var s := Initial(debounce);
    var t := StartStep(s, true, Unspawned);
    assert t.log == [Entry(Start, 0, 0, 0)] && t.tasks == map[0 := Task(0, Unspawned)];
    assert TriggerStep(s) == SubscribeStep(t);
    hide Cycles;
    assert SubscribeStep(t).taken == map[0 := 1];
  }

  lemma FirstEnsureLocal(debounce: nat)
    ensures Apply(Initial(debounce), CallEnsureLocal) == FirstCall(debounce, false, LocalUnspawned)
  {
    FirstStart();
    var s := Initial(debounce);
    var t := StartStep(s, false, LocalUnspawned);
    assert t.log == [Entry(Start, 0, 0, 0)] && t.tasks == map[0 := Task(0, LocalUnspawned)];
    assert EnsureLocalStep(s) == SubscribeStep(t);
    hide Cycles;
    assert SubscribeStep(t).taken == map[0 := 1];
  }

  lemma NoSteps(s: Sys, steps: seq<Step>)
    ensures Legal(s, steps[..0]) && Exec(s, steps[..0]) == s
  {
    assert steps[..0] == [];
  }

  lemma StaleToSpawned(debounce: nat)
    ensures Legal(Initial(debounce), DROPPED_TRIGGER[..2])
    ensures Exec(Initial(debounce), DROPPED_TRIGGER[..2])
        == StaleCycle(debounce, Fetching(None, None), None, Cleared, Cleared)
  {
    var i, r := Initial(debounce), DROPPED_TRIGGER;
    var s := i;
    NoSteps(i, r);
    FirstTrigger(debounce);
    hide Legal, Exec, TriggerStep;
    RunsTo(i, r, 0, s);
    s := FirstCall(debounce, true, Unspawned);
    RunsTo(i, r, 1, s); s := Apply(s, r[1]);
    assert s.tasks == map[0 := Task(0, Fetching(None, None))];
  }

  lemma StaleToFetched(debounce: nat)
    ensures Legal(Initial(debounce), DROPPED_TRIGGER[..4])
    ensures Exec(Initial(debounce), DROPPED_TRIGGER[..4])
            == StaleCycle(debounce, Fetching(Some(0), Some(0)), None, Cleared, Cleared)
  {
    var i, r := Initial(debounce), DROPPED_TRIGGER;
    StaleToSpawned(debounce);
    hide Legal, Exec;
    var s := StaleCycle(debounce, Fetching(None, None), None, Cleared, Cleared);
    RunsTo(i, r, 2, s); s := Apply(s, r[2]);
    RunsTo(i, r, 3, s); s := Apply(s, r[3]);
    assert s.tasks == map[0 := Task(0, Fetching(Some(0), Some(0)))];
  }

  lemma StaleToEmptied(debounce: nat)
    ensures Legal(Initial(debounce), DROPPED_TRIGGER[..7])
    ensures Exec(Initial(debounce), DROPPED_TRIGGER[..7])
            == Emptying(StaleCycle(debounce, Fetching(Some(0), Some(0)), None, Cleared, Cleared))
  {
    var i, r := Initial(debounce), DROPPED_TRIGGER;
    StaleToFetched(debounce);
    hide Legal, Exec;
    var s := StaleCycle(debounce, Fetching(Some(0), Some(0)), None, Cleared, Cleared);
    RunsTo(i, r, 4, s); s := Apply(s, r[4]);
    RunsTo(i, r, 5, s); s := Apply(s, r[5]);
    RunsTo(i, r, 6, s); s := Apply(s, r[6]);
    assert s.invalidators == map[0 := Invalidator(LocalOnly, AtLock)];
  }

  lemma StaleToStored(debounce: nat)
    ensures Legal(Initial(debounce), DROPPED_TRIGGER[..10])
    ensures Exec(Initial(debounce), DROPPED_TRIGGER[..10])
            == Emptying(StaleCycle(debounce, StoreRemote(0), Some(0), Stored(0, 0), Cleared))
  {
    var i, r := Initial(debounce), DROPPED_TRIGGER;
    StaleToEmptied(debounce);
    hide Legal, Exec;
    var s := Emptying(StaleCycle(debounce, Fetching(Some(0), Some(0)), None, Cleared, Cleared));
    RunsTo(i, r, 7, s); s := Apply(s, r[7]);
    RunsTo(i, r, 8, s); s := Apply(s, r[8]);
    RunsTo(i, r, 9, s); s := Apply(s, r[9]);
    assert s.tasks == map[0 := Task(0, StoreRemote(0))];
  }

  lemma StaleToEnd(debounce: nat)
    ensures Legal(Initial(debounce), DROPPED_TRIGGER[..13])
    ensures Exec(Initial(debounce), DROPPED_TRIGGER[..13]) == StaleEnd(debounce)
  {
    var i, r := Initial(debounce), DROPPED_TRIGGER;
    StaleToStored(debounce);
    hide Legal, Exec;
    var s := Emptying(StaleCycle(debounce, StoreRemote(0), Some(0), Stored(0, 0), Cleared));
    RunsTo(i, r, 10, s); s := Apply(s, r[10]);
    RunsTo(i, r, 11, s); s := Apply(s, r[11]);
    assert s.tasks == map[0 := Task(0, AtFinish)];
    assert 0 in s.shared.handles && s.shared.handles[0] == 1;
    RunsTo(i, r, 12, s); s := Apply(s, r[12]);
    assert s.tasks == map[] && s.log == [Entry(Start, 0, 0, 0), Entry(Done, 0, 1, 0)];
  }

  function StaleRecorded(debounce: nat): Sys {
    StaleEnd(debounce).(
      shared := Shared(RefreshState(false, false, None, Some(0), 0, 0, 1, None, false), [true, true],
                       map[0 := 1], 1, Stored(0, 0), Stored(0, 0), 1),
      log := [Entry(Start, 0, 0, 0), Entry(Done, 0, 1, 0), Entry(Inval, 0, 1, 0)],
      invalidators := map[0 := Invalidator(LocalOnly, AtTrigger)])
  }

  lemma StaleToRecorded(debounce: nat)
    ensures Legal(Initial(debounce), DROPPED_TRIGGER[..14])
    ensures Exec(Initial(debounce), DROPPED_TRIGGER[..14]) == StaleRecorded(debounce)
  {
    var i, r := Initial(debounce), DROPPED_TRIGGER;
    StaleToEnd(debounce);
    hide Legal, Exec;
    var s := StaleEnd(debounce);
    RunsTo(i, r, 13, s); s := Apply(s, r[13]);
    assert s.invalidators == map[0 := Invalidator(LocalOnly, AtTrigger)];
  }

  lemma LastInvalOfStale(debounce: nat)
    ensures LastInval(StaleRecorded(debounce).log) == 3
  {
    assert StaleRecorded(debounce).log == StaleEnd(debounce).log + [Entry(Inval, 0, 1, 0)];
    Recorded(StaleEnd(debounce).log, Entry(Inval, 0, 1, 0), debounce);
  }

  /** Dropped between its mutex region and its trigger, an invalidation leaves stale data with nothing running. */
  lemma DroppedTriggerLeavesStaleData(debounce: nat)
    ensures FullOnly(DROPPED_TRIGGER) && Legal(Initial(debounce), DROPPED_TRIGGER)
    ensures var s := Exec(Initial(debounce), DROPPED_TRIGGER);
            && Idle(s) && s.invalidators == map[] && s.owed && LastInval(s.log) > 0
            && s.shared.local.Stored? && s.shared.local.version < s.log[LastInval(s.log) - 1].localData
  {
    var i, r := Initial(debounce), DROPPED_TRIGGER;
    StaleToRecorded(debounce);
    LastInvalOfStale(debounce);
    hide Legal, Exec, LastInval;
    var s := StaleRecorded(debounce);
    RunsTo(i, r, 14, s); s := Apply(s, r[14]);
    assert s == StaleRecorded(debounce).(invalidators := s.invalidators, owed := true) && s.invalidators == map[];
    assert r[..15] == r;
  }

  // ----- a rerun without flags -----

  /** An invalidation is recorded during a local-only cycle, whose rerun leaves the flags down for the next trigger. */
  const UNFLAGGED_RERUN: seq<Step> := [
    CallEnsureLocal, BeginInvalidate(RemoteOnly), AdvanceInvalidator(0), AdvanceInvalidator(0),
    AdvanceTask(0, 0, 0), FetchLocal(0), AdvanceTask(0, 0, 0), AdvanceTask(0, 0, 0), CallTrigger]

  function Rerunning(debounce: nat, pc: TaskPc, local: Snapshot): Sys {
    Initial(debounce).(
      shared := Shared(RefreshState(true, false, None, None, 0, 0, 1, None, true), [true, false], map[0 := 1], 1,
          local, Cleared, 0),
      tasks := map[0 := Task(0, pc)], nextTask := 1, taken := map[0 := 1],
      invalidators := map[0 := Invalidator(RemoteOnly, AtTrigger)], nextInvalidator := 1,
      log := [Entry(Start, 0, 0, 0), Entry(Inval, 0, 0, 0)])
  }

  lemma RerunAsked(debounce: nat)
    ensures Legal(Initial(debounce), UNFLAGGED_RERUN[..4])
    ensures Exec(Initial(debounce), UNFLAGGED_RERUN[..4]) == Rerunning(debounce, LocalUnspawned, Cleared)
  {
    var i, r := Initial(debounce), UNFLAGGED_RERUN;
    var s := i;
    NoSteps(i, r);
    FirstEnsureLocal(debounce);
    hide Legal, Exec, EnsureLocalStep;
    RunsTo(i, r, 0, s);
    s := FirstCall(debounce, false, LocalUnspawned);
    RunsTo(i, r, 1, s); s := Apply(s, r[1]);
    RunsTo(i, r, 2, s); s := Apply(s, r[2]);
    RunsTo(i, r, 3, s); s := Apply(s, r[3]);
    assert s.invalidators == map[0 := Invalidator(RemoteOnly, AtTrigger)];
    assert s.log == [Entry(Start, 0, 0, 0), Entry(Inval, 0, 0, 0)];
  }

  lemma RerunStored(debounce: nat)
    ensures Legal(Initial(debounce), UNFLAGGED_RERUN[..7])
    ensures Exec(Initial(debounce), UNFLAGGED_RERUN[..7]) == Rerunning(debounce, LocalAtFinish, Stored(0, 0))
  {
    var i, r := Initial(debounce), UNFLAGGED_RERUN;
    RerunAsked(debounce);
    hide Legal, Exec;
    var s := Rerunning(debounce, LocalUnspawned, Cleared);
    RunsTo(i, r, 4, s); s := Apply(s, r[4]);
    RunsTo(i, r, 5, s); s := Apply(s, r[5]);
    RunsTo(i, r, 6, s); s := Apply(s, r[6]);
    assert s.tasks == map[0 := Task(0, LocalAtFinish)];
  }

  /** With an invalidation during a local-only cycle two refreshes can be in flight at once. */
  lemma UnflaggedRerunRunsTwice(debounce: nat)
    ensures Legal(Initial(debounce), UNFLAGGED_RERUN)
    ensures var s := Exec(Initial(debounce), UNFLAGGED_RERUN);
            1 in s.tasks && 2 in s.tasks && s.tasks[1].pc.Unspawned? && s.tasks[2].pc.Unspawned?
  {
    var i, r := Initial(debounce), UNFLAGGED_RERUN;
    RerunStored(debounce);
    hide Legal, Exec;
    var s := Rerunning(debounce, LocalAtFinish, Stored(0, 0));
    RunsTo(i, r, 7, s); s := Apply(s, r[7]);
    assert !s.shared.state.Refreshing() && s.shared.state.lastTriggeredAt.None?;
    assert s.nextTask == 2 && 1 in s.tasks && s.tasks[1].pc.Unspawned?;
    RunsTo(i, r, 8, s); s := Apply(s, r[8]);
    assert r[..9] == r;
  }
}
