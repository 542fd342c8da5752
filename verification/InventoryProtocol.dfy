/**
 Every interleaving of callers, invalidators and background refresh tasks over the shared
 inventory. One step is one mutex region, one snapshot store, one fetch or one spawn.

 Each fetch returns the data version of the moment it runs. The history `log` records, with their
 times and with the data versions current at that moment, the cycles started, the invalidations
 (their mutex regions) and the cycles completed.
 */
module InventoryProtocol {
  import opened Prelude
  import opened Inventory

  datatype Kind = Start | Inval | Done
  datatype Entry = Entry(kind: Kind, at: nat, localData: nat, remoteData: nat)

  /** Where a `run_refresh` task stands; the last three belong to `run_local_refresh`. */
  datatype TaskPc =
    | Unspawned
    | Fetching(gotLocal: Option<nat>, gotRemote: Option<nat>)
    | StoreLocal(l: nat, r: nat)
    | LocalStored(r: nat)
    | StoreRemote(r: nat)
    | RemoteStored
    | AtFinish
    | LocalUnspawned
    | LocalFetching
    | LocalStore(l: nat)
    | LocalAtFinish

  /** `cycle` is the position in the log of the entry that started the cycle. */
  datatype Task = Task(cycle: nat, pc: TaskPc)

  datatype InvalidatorPc = Begun | HalfCleared | AtLock | AtTrigger
  datatype Invalidator = Invalidator(scope: Scope, pc: InvalidatorPc)

  datatype Sys = Sys(
    shared: Shared,
    tasks: map<nat, Task>,
    nextTask: nat,
    invalidators: map<nat, Invalidator>,
    nextInvalidator: nat,
    taken: map<nat, nat>,       // per live handle: the number of cycles started when it was taken
    log: seq<Entry>,
    now: nat,
    localData: nat,
    remoteData: nat,
    debounce: nat,
    wipedLocal: bool,           // a dropped invalidator emptied the local snapshot, and nothing was stored since
    wipedRemote: bool,
    owed: bool,                 // the last invalidation has had no cycle, and its trigger call was dropped
    lastFull: nat)              // one past the position in the log where the last cycle of both sides started

  datatype Step =
    | Tick(elapsed: nat)
    | LocalDataChanges
    | RemoteDataChanges
    | CallTrigger
    | CallEnsureLocal
    | BeginInvalidate(scope: Scope)
    | AdvanceInvalidator(id: nat)
    | DropInvalidator(id: nat)
    | FetchLocal(id: nat)
    | FetchRemote(id: nat)
    | AdvanceTask(id: nat, timeouts: nat, nodes: nat)
    | DropHandle(id: nat)

  function Initial(debounce: nat): Sys {
    Sys(INITIAL, map[], 0, map[], 0, map[], [], 0, 0, 0, debounce, false, false, false, 0)
  }

  // ----- the steps -----

  predicate Enabled(s: Sys, step: Step) {
    match step
    case AdvanceInvalidator(id) => id in s.invalidators
    case DropInvalidator(id) => id in s.invalidators
    case FetchLocal(id) =>
      id in s.tasks &&
      (s.tasks[id].pc.LocalFetching? || (s.tasks[id].pc.Fetching? && s.tasks[id].pc.gotLocal.None?))
    case FetchRemote(id) => id in s.tasks && s.tasks[id].pc.Fetching? && s.tasks[id].pc.gotRemote.None?
    case AdvanceTask(id, _, _) =>
      id in s.tasks && !s.tasks[id].pc.LocalFetching? &&
      (s.tasks[id].pc.Fetching? ==> s.tasks[id].pc.gotLocal.Some? && s.tasks[id].pc.gotRemote.Some?)
    case DropHandle(id) => id in s.shared.handles
    case _ => true
  }

  function Record(s: Sys, kind: Kind): Sys {
    s.(log := s.log + [Entry(kind, s.now, s.localData, s.remoteData)])
  }

  /** A task for the cycle the newest log entry started. */
  function AddTask(s: Sys, pc: TaskPc): Sys {
    s.(tasks := s.tasks[s.nextTask := Task(if s.log == [] then 0 else |s.log| - 1, pc)], nextTask := s.nextTask + 1)
  }

  function Cycles(log: seq<Entry>, kind: Kind): nat {
    if log == [] then 0
    else Cycles(log[..|log| - 1], kind) + if log[|log| - 1].kind == kind then 1 else 0
  }

  /** A new cycle: flags up, a new channel, and a task that still has to be spawned. */
  function StartStep(s: Sys, remoteToo: bool, pc: TaskPc): Sys {
    var begun := s.(shared := StartCycle(s.shared, s.now, remoteToo), owed := false,
                    lastFull := if remoteToo then |s.log| + 1 else s.lastFull);
    AddTask(Record(begun, Start), pc)
  }

  function SubscribeStep(s: Sys): Sys {
    s.(shared := s.shared.Subscribe(s.shared.state.doneTx),
       taken := s.taken[s.shared.nextHandle := Cycles(s.log, Start)])
  }

  function TriggerStep(s: Sys): Sys {
    match Trigger(s.shared, s.now, s.debounce).1
    case AlreadyInProgress => SubscribeStep(s)
    case Debounced => s
    case Started => SubscribeStep(StartStep(s, true, Unspawned))
  }

  function EnsureLocalStep(s: Sys): Sys {
    match EnsureLocal(s.shared, s.now, s.debounce).1
    case AlreadyInProgress => SubscribeStep(s)
    case Debounced => s
    case Started => SubscribeStep(StartStep(s, false, LocalUnspawned))
  }

  function MoveTask(s: Sys, id: nat, pc: TaskPc): Sys
    requires id in s.tasks
  {
    s.(tasks := s.tasks[id := s.tasks[id].(pc := pc)])
  }

  function EndStep(s: Sys, id: nat): Sys
    requires id in s.tasks
  {
    Record(s.(shared := EndCycle(s.shared), tasks := s.tasks - {id}), Done)
  }

  function FinishStep(s: Sys, id: nat): Sys
    requires id in s.tasks
  {
    if s.shared.state.rerunRequested then StartStep(EndStep(s, id), true, Unspawned) else EndStep(s, id)
  }

  function FinishLocalStep(s: Sys, id: nat): Sys
    requires id in s.tasks
  {
    var (shared, rerun) := FinishLocal(s.shared, s.now);
    var ended := Record(s.(shared := shared, tasks := s.tasks - {id}), Done);
    if rerun then AddTask(ended, Unspawned) else ended
  }

  /** The steps of the protocol act on the shared object exactly as the regions of the source do. */
  lemma StepsAreRegions(s: Sys, id: nat)
    requires id in s.tasks
    ensures TriggerStep(s).shared == Trigger(s.shared, s.now, s.debounce).0
    ensures EnsureLocalStep(s).shared == EnsureLocal(s.shared, s.now, s.debounce).0
    ensures FinishStep(s, id).shared == Finish(s.shared, s.now).0
    ensures FinishLocalStep(s, id).shared == FinishLocal(s.shared, s.now).0
  {
    hide FinishLocal, Finish, Trigger, EnsureLocal, TriggerStep, EnsureLocalStep, FinishStep, FinishLocalStep;
    CallRegions(s);
    FinishRegion(s, id);
    FinishLocalRegion(s, id);
  }

  lemma FinishLocalRegion(s: Sys, id: nat)
    requires id in s.tasks
    ensures FinishLocalStep(s, id).shared == FinishLocal(s.shared, s.now).0
  {
    hide FinishLocal;
  }

  lemma CallRegions(s: Sys)
    ensures TriggerStep(s).shared == Trigger(s.shared, s.now, s.debounce).0
    ensures EnsureLocalStep(s).shared == EnsureLocal(s.shared, s.now, s.debounce).0
  {
    hide StartCycle, Cycles;
    assert StartStep(s, true, Unspawned).shared == StartCycle(s.shared, s.now, true);
    assert StartStep(s, false, LocalUnspawned).shared == StartCycle(s.shared, s.now, false);
    StartedChannel(s.shared, s.now);
  }

  lemma StartedChannel(s: Shared, now: nat)
    ensures StartCycle(s, now, true).state.doneTx == |s.channels|
        && StartCycle(s, now, false).state.doneTx == |s.channels|
  {
  }

  lemma FinishRegion(s: Sys, id: nat)
    requires id in s.tasks
    ensures FinishStep(s, id).shared == Finish(s.shared, s.now).0
  {
    assert EndStep(s, id).shared == EndCycle(s.shared);
    hide EndCycle, StartCycle;
  }

  /** Where a task goes next, before its final step. */
  function NextPc(pc: TaskPc): TaskPc
    requires pc.Fetching? ==> pc.gotLocal.Some? && pc.gotRemote.Some?
  {
    match pc
    case Unspawned => Fetching(None, None)
    case Fetching(l, r) => StoreLocal(l.value, r.value)
    case StoreLocal(l, r) => LocalStored(r)
    case LocalStored(r) => StoreRemote(r)
    case StoreRemote(r) => RemoteStored
    case RemoteStored => AtFinish
    case LocalUnspawned => LocalFetching
    case LocalStore(l) => LocalAtFinish
    case _ => pc
  }

  /** What it does to the shared object on the way. */
  function Effect(s: Sys, task: Task, timeouts: nat, nodes: nat): Sys {
    if task.pc.StoreLocal? || task.pc.LocalStore? then
      s.(shared := s.shared.(local := Stored(task.cycle, task.pc.l)), wipedLocal := false)
    else if task.pc.StoreRemote? then
      s.(shared := s.shared.(remote := Stored(task.cycle, task.pc.r)), wipedRemote := false)
    else if task.pc.LocalStored? then s.(shared := MarkLocal(s.shared, s.now))
    else if task.pc.RemoteStored? then s.(shared := MarkRemote(s.shared, s.now, timeouts, nodes))
    else s
  }

  function TaskStep(s: Sys, id: nat, timeouts: nat, nodes: nat): Sys
    requires Enabled(s, AdvanceTask(id, timeouts, nodes))
  {
    if s.tasks[id].pc.AtFinish? then FinishStep(s, id)
    else if s.tasks[id].pc.LocalAtFinish? then FinishLocalStep(s, id)
    else MoveTask(Effect(s, s.tasks[id], timeouts, nodes), id, NextPc(s.tasks[id].pc))
  }

  function MoveInvalidator(s: Sys, id: nat, pc: InvalidatorPc): Sys
    requires id in s.invalidators
  {
    s.(invalidators := s.invalidators[id := s.invalidators[id].(pc := pc)])
  }

  function InvalidatorStep(s: Sys, id: nat): Sys
    requires id in s.invalidators
  {
    var scope := s.invalidators[id].scope;
    match s.invalidators[id].pc
    case Begun =>
      if scope.RemoteOnly? then MoveInvalidator(s.(shared := s.shared.(remote := Cleared)), id, AtLock)
      else MoveInvalidator(s.(shared := s.shared.(local := Cleared)), id, if scope.Both? then HalfCleared else AtLock)
    case HalfCleared => MoveInvalidator(s.(shared := s.shared.(remote := Cleared)), id, AtLock)
    case AtLock => MoveInvalidator(Record(s.(shared := Invalidate(s.shared, scope)), Inval), id, AtTrigger)
    case AtTrigger => TriggerStep(s.(invalidators := s.invalidators - {id}))
  }

  /** Has this invalidator emptied the local snapshot without having taken the mutex yet? */
  predicate HasClearedLocal(i: Invalidator) { i.pc.HalfCleared? || (i.pc.AtLock? && !i.scope.RemoteOnly?) }
  predicate HasClearedRemote(i: Invalidator) { i.pc.AtLock? && !i.scope.LocalOnly? }

  /** The future of an `invalidate_*` call is dropped. */
  function DropStep(s: Sys, id: nat): Sys
    requires id in s.invalidators
  {
    var i := s.invalidators[id];
    s.(invalidators := s.invalidators - {id},
       wipedLocal := s.wipedLocal || HasClearedLocal(i),
       wipedRemote := s.wipedRemote || HasClearedRemote(i),
       owed := s.owed || (i.pc.AtTrigger? && InvalSinceStart(s.log)))
  }

  function Apply(s: Sys, step: Step): Sys
    requires Enabled(s, step)
  {
    match step
    case Tick(elapsed) => s.(now := s.now + elapsed)
    case LocalDataChanges => s.(localData := s.localData + 1)
    case RemoteDataChanges => s.(remoteData := s.remoteData + 1)
    case CallTrigger => TriggerStep(s)
    case CallEnsureLocal => EnsureLocalStep(s)
    case BeginInvalidate(scope) =>
      s.(invalidators := s.invalidators[s.nextInvalidator := Invalidator(scope, Begun)],
         nextInvalidator := s.nextInvalidator + 1)
    case AdvanceInvalidator(id) => InvalidatorStep(s, id)
    case DropInvalidator(id) => DropStep(s, id)
    case FetchLocal(id) =>
      if s.tasks[id].pc.LocalFetching? then MoveTask(s, id, LocalStore(s.localData))
      else MoveTask(s, id, s.tasks[id].pc.(gotLocal := Some(s.localData)))
    case FetchRemote(id) => MoveTask(s, id, s.tasks[id].pc.(gotRemote := Some(s.remoteData)))
    case AdvanceTask(id, timeouts, nodes) => TaskStep(s, id, timeouts, nodes)
    case DropHandle(id) => s.(shared := s.shared.(handles := s.shared.handles - {id}), taken := s.taken - {id})
  }

  predicate Legal(s: Sys, steps: seq<Step>)
    decreases |steps|
  {
    steps == [] || (Enabled(s, steps[0]) && Legal(Apply(s, steps[0]), steps[1..]))
  }

  function Exec(s: Sys, steps: seq<Step>): Sys
    requires Legal(s, steps)
    decreases |steps|
  {
    if steps == [] then s else Exec(Apply(s, steps[0]), steps[1..])
  }

  // ----- what the log says -----

  /** The time of the last cycle start. */
  function LastStart(log: seq<Entry>): Option<nat> {
    if log == [] then None
    else if log[|log| - 1].kind.Start? then Some(log[|log| - 1].at)
    else LastStart(log[..|log| - 1])
  }

  /** Has an invalidation happened since the last cycle start? */
  predicate InvalSinceStart(log: seq<Entry>) {
    log != [] && !log[|log| - 1].kind.Start? && (log[|log| - 1].kind.Inval? || InvalSinceStart(log[..|log| - 1]))
  }

  /** One past the position of the last invalidation; 0 when there is none. */
  function LastInval(log: seq<Entry>): (n: nat)
    ensures n <= |log|
    ensures n > 0 ==> log[n - 1].kind.Inval?
    ensures forall i :: n <= i < |log| ==> !log[i].kind.Inval?
  {
    if log == [] then 0
    else if log[|log| - 1].kind.Inval? then |log|
    else LastInval(log[..|log| - 1])
  }

  /** One past the position of the last cycle start; 0 when there is none. */
  function LastBegin(log: seq<Entry>): (n: nat)
    ensures n <= |log|
    ensures n > 0 ==> log[n - 1].kind.Start?
    ensures forall i :: n <= i < |log| ==> !log[i].kind.Start?
  {
    if log == [] then 0
    else if log[|log| - 1].kind.Start? then |log|
    else LastBegin(log[..|log| - 1])
  }

  /** Two successive starts are a debounce interval apart or have an invalidation between them. */
  predicate Spaced(log: seq<Entry>, debounce: nat) {
    log != [] ==>
      var front := log[..|log| - 1];
      Spaced(front, debounce) &&
      (log[|log| - 1].kind.Start? && LastStart(front).Some? ==>
         InvalSinceStart(front) || log[|log| - 1].at >= LastStart(front).value + debounce)
  }

  predicate Ordered(log: seq<Entry>, now: nat, localData: nat, remoteData: nat) {
    && (forall i :: 0 <= i < |log| ==>
          log[i].at <= now && log[i].localData <= localData && log[i].remoteData <= remoteData)
    && (forall i, j :: 0 <= i <= j < |log| ==>
          log[i].at <= log[j].at && log[i].localData <= log[j].localData && log[i].remoteData <= log[j].remoteData)
  }

  // ----- the runs of the theorems -----

  predicate IsLocalPc(pc: TaskPc) {
    pc.LocalUnspawned? || pc.LocalFetching? || pc.LocalStore? || pc.LocalAtFinish?
  }

  /** A local-only cycle is in flight. */
  predicate LocalCycle(s: Sys) { exists t :: t in s.tasks && IsLocalPc(s.tasks[t].pc) }

  /** No local-only cycle ends with a rerun requested. */
  predicate Steady(s: Sys, step: Step)
    requires Enabled(s, step)
  {
    !(step.AdvanceTask? && s.tasks[step.id].pc.LocalAtFinish? && s.shared.state.rerunRequested)
  }

  predicate SteadyRun(s: Sys, steps: seq<Step>)
    requires Legal(s, steps)
    decreases |steps|
  {
    steps == [] || (Steady(s, steps[0]) && SteadyRun(Apply(s, steps[0]), steps[1..]))
  }

  /**
   No local-only cycle starts while an invalidation waits for its cycle, and no invalidation is
   recorded while a local-only cycle runs.
   */
  predicate Gentle(s: Sys, step: Step)
    requires Enabled(s, step)
  {
    match step
    case CallEnsureLocal => EnsureLocal(s.shared, s.now, s.debounce).1.Started? ==> !InvalSinceStart(s.log)
    case AdvanceInvalidator(id) => s.invalidators[id].pc.AtLock? ==> !LocalCycle(s)
    case _ => true
  }

  predicate GentleRun(s: Sys, steps: seq<Step>)
    requires Legal(s, steps)
    decreases |steps|
  {
    steps == [] || (Gentle(s, steps[0]) && GentleRun(Apply(s, steps[0]), steps[1..]))
  }
}
