/** The inductive invariant of the refresh protocol, and its proof step by step. */
module InventoryInvariant {
  import opened Prelude
  import opened Inventory
  import opened InventoryProtocol

  // ----- the inductive invariant -----

  predicate NoTask(tasks: map<nat, Task>) { forall t :: t !in tasks }
  predicate Idle(s: Sys) { NoTask(s.tasks) }

  predicate SingleFlight(s: Sys) {
    && (forall a, b :: a in s.tasks && b in s.tasks ==> a == b)
    && s.shared.state.localRefreshing == !Idle(s)
    && s.shared.state.remoteRefreshing == (!Idle(s) && !LocalCycle(s))
    && (s.shared.state.rerunRequested ==> !Idle(s))
  }

  predicate Debounce(s: Sys) {
    && Ordered(s.log, s.now, s.localData, s.remoteData)
    && Spaced(s.log, s.debounce)
    && s.shared.state.lastTriggeredAt == (if InvalSinceStart(s.log) then None else LastStart(s.log))
    && (s.shared.state.lastTriggeredAt.Some? ==> s.shared.state.lastTriggeredAt.value <= s.now)
    && (s.shared.state.rerunRequested ==> InvalSinceStart(s.log))
    && (!Idle(s) && InvalSinceStart(s.log) ==> s.shared.state.rerunRequested)
  }

  predicate Counted(s: Sys) {
    && s.shared.updateVersion == Cycles(s.log, Done)
    && Cycles(s.log, Start) == Cycles(s.log, Done) + (if Idle(s) then 0 else 1)
  }

  predicate Waiting(s: Sys) {
    var sh := s.shared;
    && sh.state.doneTx < |sh.channels|
    && (!Idle(s) ==> !sh.channels[sh.state.doneTx])
    && sh.handles.Keys == s.taken.Keys
    && (forall h :: h in sh.handles ==> h < sh.nextHandle && HandleOk(s, h))
  }

  /** A handle belongs to the cycle it was taken in, and its channel is up once that cycle is over. */
  predicate HandleOk(s: Sys, h: nat)
    requires h in s.shared.handles && h in s.taken
  {
    var c := s.shared.handles[h];
    && c < |s.shared.channels|
    && 1 <= s.taken[h] <= Cycles(s.log, Start)
    && (s.taken[h] == Cycles(s.log, Start) <==> c == s.shared.state.doneTx)
    && (s.taken[h] < Cycles(s.log, Start) || Idle(s) ==> s.shared.channels[c])
  }

  predicate FreshVersions(log: seq<Entry>, cycle: nat, l: Option<nat>, r: Option<nat>) {
    && cycle < |log| && log[cycle].kind.Start?
    && (l.Some? ==> log[cycle].localData <= l.value)
    && (r.Some? ==> log[cycle].remoteData <= r.value)
  }

  predicate Fetched(s: Sys) {
    && (forall t :: t in s.tasks ==>
          FreshVersions(s.log, s.tasks[t].cycle, LocalInHand(s.tasks[t].pc), RemoteInHand(s.tasks[t].pc)))
    && (s.shared.local.Stored? ==> FreshVersions(s.log, s.shared.local.cycle, Some(s.shared.local.version), None))
    && (s.shared.remote.Stored? ==> FreshVersions(s.log, s.shared.remote.cycle, None, Some(s.shared.remote.version)))
  }

  function LocalInHand(pc: TaskPc): Option<nat> {
    match pc
    case Fetching(l, _) => l
    case StoreLocal(l, _) => Some(l)
    case LocalStore(l) => Some(l)
    case _ => None
  }

  function RemoteInHand(pc: TaskPc): Option<nat> {
    match pc
    case Fetching(_, r) => r
    case StoreLocal(_, r) => Some(r)
    case LocalStored(r) => Some(r)
    case StoreRemote(r) => Some(r)
    case _ => None
  }

  predicate LocalCurrent(s: Sys) { s.shared.local.Stored? && s.shared.local.cycle >= LastInval(s.log) }
  predicate RemoteCurrent(s: Sys) { s.shared.remote.Stored? && s.shared.remote.cycle >= LastInval(s.log) }

  predicate PastLocal(pc: TaskPc) { pc.LocalStored? || pc.StoreRemote? || PastRemote(pc) || pc.LocalAtFinish? }
  predicate PastRemote(pc: TaskPc) { pc.RemoteStored? || pc.AtFinish? }

  /** Some invalidator has emptied the snapshot and not yet taken the mutex. */
  predicate ClearingLocal(s: Sys) { exists i :: i in s.invalidators && HasClearedLocal(s.invalidators[i]) }
  predicate ClearingRemote(s: Sys) { exists i :: i in s.invalidators && HasClearedRemote(s.invalidators[i]) }

  /** Some invalidator is between its mutex region and its trigger call. */
  predicate AboutToTrigger(s: Sys) {
    exists i :: i in s.invalidators && s.invalidators[i].pc.AtTrigger?
  }

  /** Current, or emptied by an invalidator that is on its way to the mutex or was dropped there. */
  predicate LocalSettled(s: Sys) { LocalCurrent(s) || (s.shared.local.Cleared? && (ClearingLocal(s) || s.wipedLocal)) }
  predicate RemoteSettled(s: Sys) {
    RemoteCurrent(s) || (s.shared.remote.Cleared? && (ClearingRemote(s) || s.wipedRemote))
  }

  /** A running task has yet to store the side. */
  predicate LocalPending(s: Sys) { exists t :: t in s.tasks && !PastLocal(s.tasks[t].pc) }
  predicate RemotePending(s: Sys) {
    exists t :: t in s.tasks && !IsLocalPc(s.tasks[t].pc) && !PastRemote(s.tasks[t].pc)
  }

  /** The running cycle is the last one that started, and only cycles of both sides store the remote side. */
  predicate CyclesOk(s: Sys) {
    && s.lastFull <= LastBegin(s.log)
    && (forall t :: t in s.tasks ==>
          && s.tasks[t].cycle + 1 == LastBegin(s.log)
          && (!IsLocalPc(s.tasks[t].pc) ==> s.lastFull == LastBegin(s.log)))
    && (s.shared.local.Stored? ==> s.shared.local.cycle + 1 <= LastBegin(s.log))
    && (s.shared.remote.Stored? ==> s.shared.remote.cycle + 1 <= s.lastFull)
  }

  /** A side that a cycle has fetched since the last invalidation is settled, or that cycle has yet to store it. */
  predicate Covered(s: Sys) {
    && (LastBegin(s.log) > LastInval(s.log) ==> LocalSettled(s) || LocalPending(s))
    && (s.lastFull > LastInval(s.log) ==> RemoteSettled(s) || RemotePending(s))
  }

  /** An invalidation without a cycle still has its trigger coming, unless that was dropped. */
  predicate Owing(s: Sys) { Idle(s) && InvalSinceStart(s.log) ==> AboutToTrigger(s) || s.owed }

  predicate Marked(pc: TaskPc) { pc.StoreRemote? || pc.RemoteStored? || pc.AtFinish? }

  /** A cycle that was not invalidated leaves the local timestamp behind. */
  predicate Timestamped(s: Sys) {
    LastStart(s.log).Some? && !InvalSinceStart(s.log) && (forall t :: t in s.tasks ==> Marked(s.tasks[t].pc)) ==>
      s.shared.state.localUpdatedAt.Some?
  }

  predicate InvalidatorsOk(s: Sys) {
    forall i :: i in s.invalidators ==>
      i < s.nextInvalidator && (s.invalidators[i].pc.HalfCleared? ==> s.invalidators[i].scope.Both?)
  }

  predicate OwedOk(s: Sys) { s.owed ==> InvalSinceStart(s.log) }

  predicate Inv(s: Sys) {
    && SingleFlight(s) && Debounce(s) && Counted(s) && Waiting(s) && Fetched(s) && CyclesOk(s) && Covered(s)
    && OwedOk(s) && Owing(s) && Timestamped(s) && InvalidatorsOk(s)
  }

  // ----- one more log entry -----

  lemma Recorded(log: seq<Entry>, e: Entry, debounce: nat)
    ensures forall k: Kind :: Cycles(log + [e], k) == Cycles(log, k) + if e.kind == k then 1 else 0
    ensures LastStart(log + [e]) == if e.kind.Start? then Some(e.at) else LastStart(log)
    ensures InvalSinceStart(log + [e]) == (!e.kind.Start? && (e.kind.Inval? || InvalSinceStart(log)))
    ensures LastInval(log + [e]) == if e.kind.Inval? then |log| + 1 else LastInval(log)
    ensures LastBegin(log + [e]) == if e.kind.Start? then |log| + 1 else LastBegin(log)
    ensures Spaced(log + [e], debounce) <==>
              Spaced(log, debounce) &&
              (e.kind.Start? && LastStart(log).Some? ==>
                 InvalSinceStart(log) || e.at >= LastStart(log).value + debounce)
  {
    SnocFront(log, e);
  }

  // ----- every step keeps the invariant -----

  lemma InitialInv(debounce: nat)
    ensures Inv(Initial(debounce))
  {
  }

  /** What excuses an empty snapshot goes on excusing it. */
  lemma ExcusesStay(s: Sys, s': Sys)
    requires forall i :: i in s.invalidators && HasClearedLocal(s.invalidators[i]) ==>
               s'.wipedLocal || (i in s'.invalidators && HasClearedLocal(s'.invalidators[i]))
    requires forall i :: i in s.invalidators && HasClearedRemote(s.invalidators[i]) ==>
               s'.wipedRemote || (i in s'.invalidators && HasClearedRemote(s'.invalidators[i]))
    requires (s.wipedLocal ==> s'.wipedLocal) && (s.wipedRemote ==> s'.wipedRemote)
    ensures ClearingLocal(s) || s.wipedLocal ==> ClearingLocal(s') || s'.wipedLocal
    ensures ClearingRemote(s) || s.wipedRemote ==> ClearingRemote(s') || s'.wipedRemote
  {
    if ClearingLocal(s) {
      var i :| i in s.invalidators && HasClearedLocal(s.invalidators[i]);
      assert s'.wipedLocal || HasClearedLocal(s'.invalidators[i]);
    }
    if ClearingRemote(s) {
      var i :| i in s.invalidators && HasClearedRemote(s.invalidators[i]);
      assert s'.wipedRemote || HasClearedRemote(s'.invalidators[i]);
    }
  }

  lemma SameExcuses(s: Sys, s': Sys)
    requires s'.invalidators == s.invalidators && s'.wipedLocal == s.wipedLocal && s'.wipedRemote == s.wipedRemote
    ensures ClearingLocal(s') == ClearingLocal(s) && ClearingRemote(s') == ClearingRemote(s)
    ensures AboutToTrigger(s') == AboutToTrigger(s)
  {
  }

  /** Tasks, history and snapshots stay as they are, and so does every excuse. */
  ghost predicate SameWork(s: Sys, s': Sys) {
    && s'.tasks == s.tasks && s'.log == s.log && s'.shared.local == s.shared.local
       && s'.shared.remote == s.shared.remote
    && s'.lastFull == s.lastFull
    && (ClearingLocal(s) || s.wipedLocal ==> ClearingLocal(s') || s'.wipedLocal)
    && (ClearingRemote(s) || s.wipedRemote ==> ClearingRemote(s') || s'.wipedRemote)
  }

  lemma SameSettled(s: Sys, s': Sys)
    requires SameWork(s, s')
    ensures LocalSettled(s) ==> LocalSettled(s')
    ensures RemoteSettled(s) ==> RemoteSettled(s')
  {
    hide ClearingLocal, ClearingRemote, LastInval;
  }

  lemma SameCovered(s: Sys, s': Sys)
    requires SameWork(s, s') && CyclesOk(s) && Covered(s)
    ensures CyclesOk(s') && Covered(s')
  {
    SameSettled(s, s');
    hide LocalSettled, RemoteSettled, LastInval, LastBegin, ClearingLocal, ClearingRemote;
  }

  lemma SameFetched(s: Sys, s': Sys)
    requires SameWork(s, s') && Fetched(s)
    ensures Fetched(s')
  {
    hide ClearingLocal, ClearingRemote, LocalInHand, RemoteInHand;
  }

  // ----- a cycle starts -----

  function FirstPc(full: bool): TaskPc { if full then Unspawned else LocalUnspawned }

  /** A new cycle, of both sides or of the local side only. */
  function Begin(s: Sys, full: bool): Sys { StartStep(s, full, FirstPc(full)) }

  /** May a cycle start now without breaking the debounce rule? */
  predicate MayStart(s: Sys) {
    Idle(s) && (InvalSinceStart(s.log) || LastStart(s.log).None? || s.now >= LastStart(s.log).value + s.debounce)
  }

  lemma BeginTasks(s: Sys, full: bool)
    requires Idle(s)
    ensures Begin(s, full).tasks.Keys == {s.nextTask}
        && Begin(s, full).tasks[s.nextTask] == Task(|s.log|, FirstPc(full))
    ensures !Idle(Begin(s, full)) && LocalCycle(Begin(s, full)) == !full
  {
    var s' := Begin(s, full);
    assert s.nextTask in s'.tasks;
    assert forall t :: t in s'.tasks <==> t == s.nextTask;
    assert IsLocalPc(s'.tasks[s.nextTask].pc) == !full;
  }

  lemma StartSingleFlight(s: Sys, full: bool)
    requires SingleFlight(s) && Idle(s)
    ensures SingleFlight(Begin(s, full))
  {
    BeginTasks(s, full);
    assert forall t :: t in Begin(s, full).tasks <==> t in Begin(s, full).tasks.Keys;
    hide Idle, LocalCycle;
  }

  lemma OrderedSnoc(s: Sys, kind: Kind)
    requires Ordered(s.log, s.now, s.localData, s.remoteData)
    ensures Ordered(Record(s, kind).log, s.now, s.localData, s.remoteData)
  {
  }

  lemma StartDebounce(s: Sys, full: bool)
    requires Debounce(s) && MayStart(s)
    ensures Debounce(Begin(s, full))
  {
    OrderedSnoc(s, Start);
    hide Ordered;
    Recorded(s.log, Entry(Start, s.now, s.localData, s.remoteData), s.debounce);
  }

  lemma StartCounted(s: Sys, full: bool)
    requires Counted(s) && Idle(s)
    ensures Counted(Begin(s, full))
  {
    Recorded(s.log, Entry(Start, s.now, s.localData, s.remoteData), s.debounce);
    BeginTasks(s, full);
    hide Idle;
  }

  lemma StartWaiting(s: Sys, full: bool)
    requires Waiting(s) && Idle(s)
    ensures Waiting(Begin(s, full))
  {
    Recorded(s.log, Entry(Start, s.now, s.localData, s.remoteData), s.debounce);
    BeginTasks(s, full);
  }

  lemma StartFetched(s: Sys, full: bool)
    requires Fetched(s)
    ensures Fetched(Begin(s, full))
  {
  }

  lemma StartCovered(s: Sys, full: bool)
    requires Idle(s) && CyclesOk(s) && Covered(s)
    ensures var s' := Begin(s, full); CyclesOk(s') && Covered(s') && OwedOk(s') && Owing(s') && Timestamped(s')
  {
    var s' := Begin(s, full);
    Recorded(s.log, Entry(Start, s.now, s.localData, s.remoteData), s.debounce);
    BeginTasks(s, full);
    SameExcuses(s, s');
    assert forall t :: t in s'.tasks <==> t in s'.tasks.Keys;
    assert !Marked(s'.tasks[s.nextTask].pc) && !PastLocal(s'.tasks[s.nextTask].pc);
    assert !RemotePending(s);
    hide Idle, LastInval, LastBegin, InvalSinceStart, LastStart, ClearingLocal, ClearingRemote, AboutToTrigger;
  }

  predicate MidInv(s: Sys) {
    && SingleFlight(s) && Debounce(s) && Counted(s) && Waiting(s) && Fetched(s) && CyclesOk(s) && Covered(s)
    && OwedOk(s) && Timestamped(s) && InvalidatorsOk(s)
  }

  lemma StartKeeps(s: Sys, full: bool)
    requires MidInv(s) && MayStart(s)
    ensures Inv(Begin(s, full)) && !Idle(Begin(s, full))
  {
    assert InvalidatorsOk(Begin(s, full));
    hide SingleFlight, Debounce, Counted, Waiting, Fetched, CyclesOk, Covered, OwedOk, Timestamped, Owing,
      InvalidatorsOk;
    BeginTasks(s, full);
    StartSingleFlight(s, full);
    StartDebounce(s, full);
    StartCounted(s, full);
    StartWaiting(s, full);
    StartFetched(s, full);
    StartCovered(s, full);
  }

  // ----- a call joins or starts a cycle -----

  lemma SubscribeParts(s: Sys)
    requires Waiting(s) && Counted(s) && !Idle(s)
    ensures Waiting(SubscribeStep(s)) && Counted(SubscribeStep(s))
  {
  }

  lemma SubscribeKeeps(s: Sys)
    requires Inv(s) && !Idle(s)
    ensures Inv(SubscribeStep(s))
  {
    var s' := SubscribeStep(s);
    SameExcuses(s, s');
    assert SameWork(s, s') && s'.shared.state == s.shared.state && InvalidatorsOk(s') && OwedOk(s');
    assert LocalCycle(s') == LocalCycle(s) && Idle(s') == Idle(s) && SingleFlight(s');
    assert Debounce(s') && Owing(s') && Timestamped(s');
    hide SingleFlight, Debounce, Counted, Waiting, Fetched, CyclesOk, Covered, OwedOk, Timestamped, Owing,
      InvalidatorsOk, SubscribeStep, SameWork;
    SubscribeParts(s);
    SameCovered(s, s');
    SameFetched(s, s');
  }

  lemma TriggerCases(s: Sys)
    requires MidInv(s)
    ensures match Trigger(s.shared, s.now, s.debounce).1
            case AlreadyInProgress => !Idle(s)
            case Debounced => Idle(s) && !InvalSinceStart(s.log)
            case Started => MayStart(s)
  {
  }

  lemma TriggerKeeps(s: Sys)
    requires MidInv(s)
    ensures Inv(TriggerStep(s))
  {
    hide SingleFlight, Debounce, Counted, Waiting, Fetched, CyclesOk, Covered, OwedOk, Timestamped, InvalidatorsOk,
      MayStart, Trigger;
    TriggerCases(s);
    match Trigger(s.shared, s.now, s.debounce).1
    case AlreadyInProgress =>
      assert Owing(s);
      SubscribeKeeps(s);
    case Debounced =>
      assert Owing(s);
    case Started =>
      StartKeeps(s, true);
      SubscribeKeeps(Begin(s, true));
  }

  lemma EnsureLocalCases(s: Sys)
    requires MidInv(s)
    ensures match EnsureLocal(s.shared, s.now, s.debounce).1
            case AlreadyInProgress => !Idle(s)
            case Debounced => true
            case Started => MayStart(s)
  {
  }

  lemma EnsureLocalKeeps(s: Sys)
    requires Inv(s)
    ensures Inv(EnsureLocalStep(s))
  {
    EnsureLocalCases(s);
    hide SingleFlight, Debounce, Counted, Waiting, Fetched, CyclesOk, Covered, OwedOk, Timestamped, Owing,
      InvalidatorsOk;
    hide MayStart, EnsureLocal;
    match EnsureLocal(s.shared, s.now, s.debounce).1
    case AlreadyInProgress => SubscribeKeeps(s);
    case Debounced =>
    case Started =>
      StartKeeps(s, false);
      SubscribeKeeps(Begin(s, false));
  }

  // ----- a cycle ends -----

  lemma EndsIdle(s: Sys, id: nat)
    requires SingleFlight(s) && id in s.tasks
    ensures Idle(EndStep(s, id)) && SingleFlight(EndStep(s, id))
  {
  }

  lemma EndDebounce(s: Sys, id: nat)
    requires SingleFlight(s) && Debounce(s) && id in s.tasks
    ensures Debounce(EndStep(s, id))
    ensures InvalSinceStart(EndStep(s, id).log) == InvalSinceStart(s.log)
  {
    EndsIdle(s, id);
    OrderedSnoc(s, Done);
    hide Ordered;
    Recorded(s.log, Entry(Done, s.now, s.localData, s.remoteData), s.debounce);
  }

  lemma EndCounted(s: Sys, id: nat)
    requires SingleFlight(s) && Counted(s) && id in s.tasks
    ensures Counted(EndStep(s, id))
  {
    EndsIdle(s, id);
    Recorded(s.log, Entry(Done, s.now, s.localData, s.remoteData), s.debounce);
  }

  lemma EndWaiting(s: Sys, id: nat)
    requires SingleFlight(s) && Waiting(s) && id in s.tasks
    ensures Waiting(EndStep(s, id))
  {
    EndsIdle(s, id);
    Recorded(s.log, Entry(Done, s.now, s.localData, s.remoteData), s.debounce);
  }

  lemma EndFetched(s: Sys, id: nat)
    requires Fetched(s) && id in s.tasks
    ensures Fetched(EndStep(s, id))
  {
  }

  /** The last step of either kind of task. */
  predicate IsLast(pc: TaskPc) { pc.AtFinish? || pc.LocalAtFinish? }

  lemma EndCovered(s: Sys, id: nat)
    requires SingleFlight(s) && CyclesOk(s) && Covered(s) && OwedOk(s) && Timestamped(s)
    requires id in s.tasks && IsLast(s.tasks[id].pc)
    requires s.tasks[id].pc.LocalAtFinish? ==> s.shared.state.localUpdatedAt.Some?
    ensures var s' := EndStep(s, id); CyclesOk(s') && Covered(s') && OwedOk(s') && Timestamped(s')
  {
    var s' := EndStep(s, id);
    EndsIdle(s, id);
    SameExcuses(s, s');
    Recorded(s.log, Entry(Done, s.now, s.localData, s.remoteData), s.debounce);
    assert !LocalPending(s) && !RemotePending(s);
    assert s'.shared.local == s.shared.local && s'.shared.remote == s.shared.remote && s'.lastFull == s.lastFull;
    hide ClearingLocal, ClearingRemote, LocalPending, RemotePending, LastInval, LastBegin, LastStart, InvalSinceStart;
  }

  lemma EndKeeps(s: Sys, id: nat)
    requires MidInv(s) && id in s.tasks && IsLast(s.tasks[id].pc)
    requires s.tasks[id].pc.LocalAtFinish? ==> s.shared.state.localUpdatedAt.Some?
    ensures MidInv(EndStep(s, id)) && Idle(EndStep(s, id))
    ensures InvalSinceStart(EndStep(s, id).log) == InvalSinceStart(s.log)
  {
    assert InvalidatorsOk(EndStep(s, id));
    EndsIdle(s, id);
    EndDebounce(s, id);
    hide SingleFlight, Debounce, Counted, Waiting, Fetched, CyclesOk, Covered, OwedOk, Timestamped, InvalidatorsOk,
      InvalSinceStart;
    EndCounted(s, id);
    EndWaiting(s, id);
    EndFetched(s, id);
    EndCovered(s, id);
  }

  lemma FinishKeeps(s: Sys, id: nat)
    requires Inv(s) && id in s.tasks && s.tasks[id].pc.AtFinish?
    ensures Inv(FinishStep(s, id))
  {
    assert s.shared.state.rerunRequested <==> InvalSinceStart(s.log) by {
      assert !Idle(s);
    }
    hide SingleFlight, Debounce, Counted, Waiting, Fetched, CyclesOk, Covered, OwedOk, Timestamped, InvalidatorsOk,
      InvalSinceStart;
    EndKeeps(s, id);
    if s.shared.state.rerunRequested {
      StartKeeps(EndStep(s, id), true);
    }
  }

  /** Unless a rerun was requested, a local-only cycle ends as a full one would after a timestamp. */
  lemma FinishLocalIsEnd(s: Sys, id: nat)
    requires SingleFlight(s) && id in s.tasks && s.tasks[id].pc.LocalAtFinish? && !s.shared.state.rerunRequested
    ensures FinishLocalStep(s, id) == EndStep(s.(shared := MarkLocal(s.shared, s.now)), id)
  {
    assert LocalCycle(s);
    assert !s.shared.state.remoteRefreshing;
    var marked := s.(shared := MarkLocal(s.shared, s.now));
    assert FinishLocal(s.shared, s.now).0 == EndCycle(marked.shared);
  }

  lemma MarkKeeps(s: Sys)
    requires Inv(s)
    ensures Inv(s.(shared := MarkLocal(s.shared, s.now)))
  {
    var s' := s.(shared := MarkLocal(s.shared, s.now));
    SameShared(s, s');
    MarkFrame(s);
    hide SingleFlight, Debounce, Counted, Waiting, Fetched, CyclesOk, Covered, OwedOk, Timestamped, Owing,
      InvalidatorsOk, Quiet;
    QuietKeeps(s, s');
  }

  lemma MarkFrame(s: Sys)
    requires Fetched(s) && CyclesOk(s) && Covered(s) && OwedOk(s) && Owing(s) && Timestamped(s) && InvalidatorsOk(s)
    ensures var s' := s.(shared := MarkLocal(s.shared, s.now));
            && Fetched(s') && CyclesOk(s') && Covered(s') && OwedOk(s') && Owing(s') && Timestamped(s')
            && InvalidatorsOk(s')
  {
    var s' := s.(shared := MarkLocal(s.shared, s.now));
    SameExcuses(s, s');
    assert Owing(s') && Timestamped(s') && InvalidatorsOk(s') && OwedOk(s') && SameWork(s, s');
    hide Fetched, CyclesOk, Covered, SameWork;
    SameCovered(s, s');
    SameFetched(s, s');
  }

  lemma FinishLocalKeeps(s: Sys, id: nat)
    requires Inv(s) && id in s.tasks && s.tasks[id].pc.LocalAtFinish? && !s.shared.state.rerunRequested
    ensures Inv(FinishLocalStep(s, id))
  {
    FinishLocalIsEnd(s, id);
    assert !InvalSinceStart(s.log) by {
      assert !Idle(s);
    }
    var marked := s.(shared := MarkLocal(s.shared, s.now));
    assert marked.shared.state.localUpdatedAt.Some?;
    hide SingleFlight, Debounce, Counted, Waiting, Fetched, CyclesOk, Covered, OwedOk, Timestamped, InvalidatorsOk;
    hide InvalSinceStart, FinishLocalStep, EndStep;
    MarkKeeps(s);
    EndKeeps(marked, id);
  }

  // ----- a task moves on -----

  /** Nothing but time, data, snapshots, timestamps and program counters moves. */
  predicate Quiet(s: Sys, s': Sys) {
    && s'.log == s.log && s'.debounce == s.debounce && s'.taken == s.taken
    && s'.now >= s.now && s'.localData >= s.localData && s'.remoteData >= s.remoteData
    && SameKinds(s, s')
    && s'.shared.(local := s.shared.local, remote := s.shared.remote, state := s.shared.state) == s.shared
    && s'.shared.state.localRefreshing == s.shared.state.localRefreshing
    && s'.shared.state.remoteRefreshing == s.shared.state.remoteRefreshing
    && s'.shared.state.rerunRequested == s.shared.state.rerunRequested
    && s'.shared.state.lastTriggeredAt == s.shared.state.lastTriggeredAt
    && s'.shared.state.doneTx == s.shared.state.doneTx
  }

  predicate SameKinds(s: Sys, s': Sys) {
    && s'.tasks.Keys == s.tasks.Keys
    && (forall t :: t in s.tasks ==> IsLocalPc(s'.tasks[t].pc) == IsLocalPc(s.tasks[t].pc))
  }

  lemma SameIdle(s: Sys, s': Sys)
    requires SameKinds(s, s')
    ensures Idle(s') == Idle(s) && LocalCycle(s') == LocalCycle(s)
  {
    if LocalCycle(s) {
      var t :| t in s.tasks && IsLocalPc(s.tasks[t].pc);
      assert IsLocalPc(s'.tasks[t].pc);
    }
  }

  lemma QuietKeeps(s: Sys, s': Sys)
    requires Quiet(s, s') && SingleFlight(s) && Debounce(s) && Counted(s) && Waiting(s)
    ensures SingleFlight(s') && Debounce(s') && Counted(s') && Waiting(s')
  {
    SameIdle(s, s');
    hide Idle, LocalCycle;
    forall h | h in s'.shared.handles
      ensures HandleOk(s', h)
    {
      assert HandleOk(s, h);
    }
  }

  /** A store of the local snapshot by this task. */
  predicate StoresLocal(task: Task, s: Sys, s1: Sys) {
    !PastLocal(task.pc) && LocalInHand(task.pc).Some? && !s1.wipedLocal
    && s1.shared.local == Stored(task.cycle, LocalInHand(task.pc).value)
  }

  predicate StoresRemote(task: Task, s: Sys, s1: Sys) {
    !IsLocalPc(task.pc) && !PastRemote(task.pc) && RemoteInHand(task.pc).Some? && !s1.wipedRemote
    && s1.shared.remote == Stored(task.cycle, RemoteInHand(task.pc).value)
  }

  /** What a task does before its final step: at most one snapshot store or timestamp, then a move. */
  predicate IsMove(s: Sys, id: nat, s1: Sys, pc: TaskPc)
    requires id in s.tasks
  {
    var task := s.tasks[id];
    && s1 == s.(shared := s1.shared, wipedLocal := s1.wipedLocal, wipedRemote := s1.wipedRemote)
    && Quiet(s, s1) && IsLocalPc(pc) == IsLocalPc(task.pc)
    && (LocalInHand(pc).None? || LocalInHand(pc) == LocalInHand(task.pc))
    && (RemoteInHand(pc).None? || RemoteInHand(pc) == RemoteInHand(task.pc))
    && ((s1.shared.local == s.shared.local && s1.wipedLocal == s.wipedLocal) || StoresLocal(task, s, s1))
    && ((s1.shared.remote == s.shared.remote && s1.wipedRemote == s.wipedRemote) || StoresRemote(task, s, s1))
    && (PastLocal(pc) ==> PastLocal(task.pc) || StoresLocal(task, s, s1))
    && (PastRemote(pc) ==> PastRemote(task.pc) || StoresRemote(task, s, s1))
    && (s.shared.state.localUpdatedAt.Some? || (Marked(pc) && !Marked(task.pc))
       ==> s1.shared.state.localUpdatedAt.Some?)
  }

  /** How the program counter moves. */
  lemma NextHand(pc: TaskPc)
    requires pc.Fetching? ==> pc.gotLocal.Some? && pc.gotRemote.Some?
    ensures IsLocalPc(NextPc(pc)) == IsLocalPc(pc)
    ensures LocalInHand(NextPc(pc)).None? || LocalInHand(NextPc(pc)) == LocalInHand(pc)
    ensures RemoteInHand(NextPc(pc)).None? || RemoteInHand(NextPc(pc)) == RemoteInHand(pc)
    ensures PastLocal(NextPc(pc)) ==> PastLocal(pc) || pc.StoreLocal? || pc.LocalStore?
    ensures PastRemote(NextPc(pc)) ==> PastRemote(pc) || pc.StoreRemote?
    ensures Marked(NextPc(pc)) && !Marked(pc) ==> pc.LocalStored?
  {
  }

  lemma LocalStoreIsMove(s: Sys, id: nat)
    requires id in s.tasks && (s.tasks[id].pc.StoreLocal? || s.tasks[id].pc.LocalStore?)
    ensures IsMove(s, id, Effect(s, s.tasks[id], 0, 0), NextPc(s.tasks[id].pc))
  {
    var s1 := s.(shared := s.shared.(local := Stored(s.tasks[id].cycle, s.tasks[id].pc.l)), wipedLocal := false);
    assert Effect(s, s.tasks[id], 0, 0) == s1;
    NextHand(s.tasks[id].pc);
    hide Effect, NextPc, Quiet;
    SameShared(s, s1);
  }

  lemma RemoteStoreIsMove(s: Sys, id: nat)
    requires id in s.tasks && s.tasks[id].pc.StoreRemote?
    ensures IsMove(s, id, Effect(s, s.tasks[id], 0, 0), NextPc(s.tasks[id].pc))
  {
    var s1 := s.(shared := s.shared.(remote := Stored(s.tasks[id].cycle, s.tasks[id].pc.r)), wipedRemote := false);
    assert Effect(s, s.tasks[id], 0, 0) == s1;
    NextHand(s.tasks[id].pc);
    hide Effect, NextPc, Quiet;
    SameShared(s, s1);
  }

  lemma MarkIsMove(s: Sys, id: nat, timeouts: nat, nodes: nat)
    requires id in s.tasks && (s.tasks[id].pc.LocalStored? || s.tasks[id].pc.RemoteStored?)
    ensures IsMove(s, id, Effect(s, s.tasks[id], timeouts, nodes), NextPc(s.tasks[id].pc))
  {
    var s1 := s.(shared := if s.tasks[id].pc.LocalStored? then MarkLocal(s.shared, s.now)
                           else MarkRemote(s.shared, s.now, timeouts, nodes));
    assert Effect(s, s.tasks[id], timeouts, nodes) == s1;
    NextHand(s.tasks[id].pc);
    hide Effect, NextPc, Quiet;
    SameShared(s, s1);
  }

  lemma PlainIsMove(s: Sys, id: nat)
    requires id in s.tasks
        && (s.tasks[id].pc.Fetching? ==> s.tasks[id].pc.gotLocal.Some? && s.tasks[id].pc.gotRemote.Some?)
    requires Effect(s, s.tasks[id], 0, 0) == s
    requires !s.tasks[id].pc.StoreLocal? && !s.tasks[id].pc.LocalStore? && !s.tasks[id].pc.StoreRemote?
    requires !s.tasks[id].pc.LocalStored?
    ensures IsMove(s, id, s, NextPc(s.tasks[id].pc))
  {
    NextHand(s.tasks[id].pc);
    hide Effect, NextPc, Quiet;
    SameShared(s, s);
  }

  lemma TaskMoves(s: Sys, id: nat, timeouts: nat, nodes: nat)
    requires Enabled(s, AdvanceTask(id, timeouts, nodes)) && !IsLast(s.tasks[id].pc)
    ensures IsMove(s, id, Effect(s, s.tasks[id], timeouts, nodes), NextPc(s.tasks[id].pc))
  {
    hide IsMove, NextPc;
    var pc := s.tasks[id].pc;
    if pc.StoreLocal? || pc.LocalStore? {
      LocalStoreIsMove(s, id);
    } else if pc.StoreRemote? {
      RemoteStoreIsMove(s, id);
    } else if pc.LocalStored? || pc.RemoteStored? {
      MarkIsMove(s, id, timeouts, nodes);
    } else {
      PlainIsMove(s, id);
    }
  }

  lemma SameShared(s: Sys, s1: Sys)
    requires s1 == s.(shared := s1.shared, wipedLocal := s1.wipedLocal, wipedRemote := s1.wipedRemote)
    requires s1.shared == s.shared.(local := s1.shared.local, remote := s1.shared.remote, state := s1.shared.state)
    requires s1.shared.state == s.shared.state.(
               localUpdatedAt := s1.shared.state.localUpdatedAt, remoteUpdatedAt := s1.shared.state.remoteUpdatedAt,
               remoteTimeoutCount := s1.shared.state.remoteTimeoutCount,
               remoteNodeCount := s1.shared.state.remoteNodeCount)
    ensures Quiet(s, s1)
  {
  }

  lemma MoveQuiet(s: Sys, id: nat, s1: Sys, pc: TaskPc)
    requires id in s.tasks && IsMove(s, id, s1, pc)
    ensures Quiet(s, MoveTask(s1, id, pc))
    ensures InvalidatorsOk(s) ==> InvalidatorsOk(MoveTask(s1, id, pc))
    ensures OwedOk(s) ==> OwedOk(MoveTask(s1, id, pc))
  {
    assert MoveTask(s1, id, pc).tasks.Keys == s.tasks.Keys;
  }

  lemma MoveFetched(s: Sys, id: nat, s1: Sys, pc: TaskPc)
    requires Fetched(s) && id in s.tasks && IsMove(s, id, s1, pc)
    ensures Fetched(MoveTask(s1, id, pc))
  {
    hide Quiet;
    assert FreshVersions(s.log, s.tasks[id].cycle, LocalInHand(s.tasks[id].pc), RemoteInHand(s.tasks[id].pc));
  }

  /** A store by a task that is not older than the last invalidation settles its side. */
  lemma MoveSettles(s: Sys, id: nat, s1: Sys, pc: TaskPc)
    requires id in s.tasks && IsMove(s, id, s1, pc)
    ensures var s' := MoveTask(s1, id, pc);
            && s'.log == s.log && s'.lastFull == s.lastFull
            && AboutToTrigger(s') == AboutToTrigger(s) && s'.owed == s.owed
            && (s.tasks[id].cycle >= LastInval(s.log) ==>
                  && (LocalSettled(s) || StoresLocal(s.tasks[id], s, s1) ==> LocalSettled(s'))
                  && (RemoteSettled(s) || StoresRemote(s.tasks[id], s, s1) ==> RemoteSettled(s')))
            && (PastLocal(pc) ==> PastLocal(s.tasks[id].pc) || StoresLocal(s.tasks[id], s, s1))
            && (PastRemote(pc) ==> PastRemote(s.tasks[id].pc) || StoresRemote(s.tasks[id], s, s1))
  {
    var s' := MoveTask(s1, id, pc);
    hide LastInval;
    assert s'.invalidators == s.invalidators;
    assert ClearingLocal(s') == ClearingLocal(s) && ClearingRemote(s') == ClearingRemote(s) by {
      hide IsMove, Quiet;
    }
    hide ClearingLocal, ClearingRemote;
  }

  lemma MoveCycles(s: Sys, id: nat, s1: Sys, pc: TaskPc)
    requires CyclesOk(s) && id in s.tasks && IsMove(s, id, s1, pc)
    ensures CyclesOk(MoveTask(s1, id, pc)) && Owing(MoveTask(s1, id, pc))
  {
    assert id in MoveTask(s1, id, pc).tasks;
    hide Quiet, LastBegin;
  }

  lemma MoveCovered(s: Sys, id: nat, s1: Sys, pc: TaskPc)
    requires SingleFlight(s) && CyclesOk(s) && Covered(s) && id in s.tasks && IsMove(s, id, s1, pc)
    ensures Covered(MoveTask(s1, id, pc))
  {
    var s' := MoveTask(s1, id, pc);
    assert id in s'.tasks && s'.tasks[id] == Task(s.tasks[id].cycle, pc) && IsLocalPc(pc) == IsLocalPc(s.tasks[id].pc);
    assert LocalPending(s) <==> !PastLocal(s.tasks[id].pc);
    assert RemotePending(s) <==> !IsLocalPc(s.tasks[id].pc) && !PastRemote(s.tasks[id].pc);
    assert !PastLocal(pc) ==> LocalPending(s');
    assert !IsLocalPc(pc) && !PastRemote(pc) ==> RemotePending(s');
    MoveSettles(s, id, s1, pc);
    StoredSides(s, id, s1, pc);
    hide IsMove, MoveTask, LocalPending, RemotePending, LocalSettled, RemoteSettled, LastInval, LastBegin, SingleFlight;
    hide StoresLocal, StoresRemote, PastLocal, PastRemote;
  }

  lemma StoredSides(s: Sys, id: nat, s1: Sys, pc: TaskPc)
    requires id in s.tasks && IsMove(s, id, s1, pc)
    ensures StoresRemote(s.tasks[id], s, s1) ==> !IsLocalPc(s.tasks[id].pc)
    ensures var s' := MoveTask(s1, id, pc);
            && (LocalSettled(s) ==> LocalSettled(s') || StoresLocal(s.tasks[id], s, s1))
            && (RemoteSettled(s) ==> RemoteSettled(s') || StoresRemote(s.tasks[id], s, s1))
  {
    var s' := MoveTask(s1, id, pc);
    assert s'.invalidators == s.invalidators;
    hide Quiet, LastInval;
    assert ClearingLocal(s') == ClearingLocal(s) && ClearingRemote(s') == ClearingRemote(s) by {
      hide IsMove;
    }
    hide ClearingLocal, ClearingRemote;
  }

  lemma MoveTimestamped(s: Sys, id: nat, s1: Sys, pc: TaskPc)
    requires SingleFlight(s) && Timestamped(s) && id in s.tasks && IsMove(s, id, s1, pc)
    ensures Timestamped(MoveTask(s1, id, pc))
  {
    var s' := MoveTask(s1, id, pc);
    assert s'.tasks[id].pc == pc;
    hide InvalSinceStart, LastStart;
  }

  lemma TaskKeeps(s: Sys, id: nat, timeouts: nat, nodes: nat)
    requires Inv(s) && Enabled(s, AdvanceTask(id, timeouts, nodes)) && Steady(s, AdvanceTask(id, timeouts, nodes))
    ensures Inv(TaskStep(s, id, timeouts, nodes))
  {
    hide SingleFlight, Debounce, Counted, Waiting, Fetched, CyclesOk, Covered, OwedOk, Timestamped, Owing,
      InvalidatorsOk, Quiet;
    if s.tasks[id].pc.AtFinish? {
      FinishKeeps(s, id);
    } else if s.tasks[id].pc.LocalAtFinish? {
      FinishLocalKeeps(s, id);
    } else {
      var s1, pc := Effect(s, s.tasks[id], timeouts, nodes), NextPc(s.tasks[id].pc);
      TaskMoves(s, id, timeouts, nodes);
      assert TaskStep(s, id, timeouts, nodes) == MoveTask(s1, id, pc);
      hide IsMove, TaskStep;
      MoveQuiet(s, id, s1, pc);
      QuietKeeps(s, MoveTask(s1, id, pc));
      MoveFetched(s, id, s1, pc);
      MoveCycles(s, id, s1, pc);
      MoveCovered(s, id, s1, pc);
      MoveTimestamped(s, id, s1, pc);
    }
  }

  lemma FetchMoves(s: Sys, step: Step)
    requires Enabled(s, step) && (step.FetchLocal? || step.FetchRemote?)
    ensures var pc := Apply(s, step).tasks[step.id].pc;
            && Apply(s, step) == MoveTask(s, step.id, pc) && IsLocalPc(pc) == IsLocalPc(s.tasks[step.id].pc)
            && !PastLocal(pc) && !PastRemote(pc) && !Marked(pc)
            && (LocalInHand(pc) == LocalInHand(s.tasks[step.id].pc) || LocalInHand(pc) == Some(s.localData))
            && (RemoteInHand(pc) == RemoteInHand(s.tasks[step.id].pc) || RemoteInHand(pc) == Some(s.remoteData))
  {
  }

  lemma FetchedNow(s: Sys, id: nat, pc: TaskPc)
    requires Debounce(s) && Fetched(s) && id in s.tasks
    requires LocalInHand(pc) == LocalInHand(s.tasks[id].pc) || LocalInHand(pc) == Some(s.localData)
    requires RemoteInHand(pc) == RemoteInHand(s.tasks[id].pc) || RemoteInHand(pc) == Some(s.remoteData)
    ensures Fetched(MoveTask(s, id, pc))
  {
    assert FreshVersions(s.log, s.tasks[id].cycle, LocalInHand(s.tasks[id].pc), RemoteInHand(s.tasks[id].pc));
    assert FreshVersions(s.log, s.tasks[id].cycle, LocalInHand(pc), RemoteInHand(pc));
    hide LocalInHand, RemoteInHand, Spaced;
  }

  lemma FetchCovered(s: Sys, id: nat, pc: TaskPc)
    requires SingleFlight(s) && CyclesOk(s) && Covered(s) && Timestamped(s)
    requires id in s.tasks && IsLocalPc(pc) == IsLocalPc(s.tasks[id].pc)
    requires !PastLocal(pc) && !PastRemote(pc) && !Marked(pc)
    ensures var s' := MoveTask(s, id, pc); CyclesOk(s') && Covered(s') && Owing(s') && Timestamped(s')
  {
    var s' := MoveTask(s, id, pc);
    SameExcuses(s, s');
    assert s'.tasks[id] == Task(s.tasks[id].cycle, pc) && id in s'.tasks;
    assert forall t :: t in s'.tasks ==> t == id;
    assert LocalPending(s');
    assert RemotePending(s) ==> RemotePending(s');
    assert RemoteSettled(s) ==> RemoteSettled(s');
    hide LocalSettled, RemoteSettled, LastInval, LastBegin, InvalSinceStart, LastStart, LocalPending, RemotePending;
  }

  lemma PcQuiet(s: Sys, id: nat, pc: TaskPc)
    requires id in s.tasks && IsLocalPc(pc) == IsLocalPc(s.tasks[id].pc)
    ensures Quiet(s, MoveTask(s, id, pc)) && (InvalidatorsOk(s) ==> InvalidatorsOk(MoveTask(s, id, pc)))
    ensures OwedOk(s) ==> OwedOk(MoveTask(s, id, pc))
  {
    assert MoveTask(s, id, pc).tasks.Keys == s.tasks.Keys;
  }

  lemma FetchKeeps(s: Sys, step: Step)
    requires Inv(s) && Enabled(s, step) && (step.FetchLocal? || step.FetchRemote?)
    ensures Inv(Apply(s, step))
  {
    var id, pc := step.id, Apply(s, step).tasks[step.id].pc;
    assert id in s.tasks;
    FetchMoves(s, step);
    hide Apply, Enabled, SingleFlight, Debounce, Counted, Waiting, Fetched, CyclesOk, Covered, OwedOk, Timestamped,
      Owing, InvalidatorsOk, Quiet;
    PcQuiet(s, id, pc);
    FetchedNow(s, id, pc);
    FetchCovered(s, id, pc);
    QuietKeeps(s, MoveTask(s, id, pc));
  }

  // ----- an invalidator moves on -----

  predicate BeforeLock(pc: InvalidatorPc) { pc.Begun? || pc.HalfCleared? }

  lemma ClearExcuses(s: Sys, id: nat)
    requires InvalidatorsOk(s) && id in s.invalidators && BeforeLock(s.invalidators[id].pc)
    ensures var s' := InvalidatorStep(s, id);
            && s' == s.(invalidators := s'.invalidators, shared := s'.shared)
            && s'.shared == s.shared.(local := s'.shared.local, remote := s'.shared.remote)
            && (s'.shared.local == s.shared.local || (s'.shared.local.Cleared? && ClearingLocal(s')))
            && (s'.shared.remote == s.shared.remote || (s'.shared.remote.Cleared? && ClearingRemote(s')))
            && InvalidatorsOk(s') && (OwedOk(s) ==> OwedOk(s'))
  {
    hide TriggerStep, Record;
    var s' := InvalidatorStep(s, id);
    assert id in s'.invalidators;
    assert s.invalidators[id].scope.RemoteOnly? || HasClearedLocal(s'.invalidators[id]);
    assert s.invalidators[id].scope.RemoteOnly? || s.invalidators[id].pc.HalfCleared?
        ==> HasClearedRemote(s'.invalidators[id]);
  }

  lemma ClearKeepsExcuses(s: Sys, id: nat)
    requires InvalidatorsOk(s) && id in s.invalidators && BeforeLock(s.invalidators[id].pc)
    ensures var s' := InvalidatorStep(s, id);
            && (ClearingLocal(s) ==> ClearingLocal(s')) && (ClearingRemote(s) ==> ClearingRemote(s'))
            && (AboutToTrigger(s) ==> AboutToTrigger(s'))
  {
    hide TriggerStep, Record;
    var s' := InvalidatorStep(s, id);
    assert s'.invalidators == s.invalidators[id := s'.invalidators[id]];
    assert HasClearedLocal(s.invalidators[id]) ==> HasClearedLocal(s'.invalidators[id]);
    hide InvalidatorStep;
    OneInvalidatorMoves(s, s', id);
  }

  lemma OneInvalidatorMoves(s: Sys, s': Sys, id: nat)
    requires id in s.invalidators && id in s'.invalidators
        && s'.invalidators == s.invalidators[id := s'.invalidators[id]]
    requires BeforeLock(s.invalidators[id].pc)
    requires HasClearedLocal(s.invalidators[id]) ==> HasClearedLocal(s'.invalidators[id])
    ensures (ClearingLocal(s) ==> ClearingLocal(s')) && (ClearingRemote(s) ==> ClearingRemote(s'))
    ensures AboutToTrigger(s) ==> AboutToTrigger(s')
  {
    if ClearingLocal(s) {
      var i :| i in s.invalidators && HasClearedLocal(s.invalidators[i]);
      assert HasClearedLocal(s'.invalidators[i]);
    }
    if ClearingRemote(s) {
      var i :| i in s.invalidators && HasClearedRemote(s.invalidators[i]);
      assert HasClearedRemote(s'.invalidators[i]);
    }
    if AboutToTrigger(s) {
      var i :| i in s.invalidators && s.invalidators[i].pc.AtTrigger?;
      assert s'.invalidators[i].pc.AtTrigger?;
    }
  }

  /** Emptying a snapshot takes it from settled to settled. */
  lemma ClearSettled(s: Sys, id: nat)
    requires InvalidatorsOk(s) && id in s.invalidators && BeforeLock(s.invalidators[id].pc)
    ensures LocalSettled(s) ==> LocalSettled(InvalidatorStep(s, id))
    ensures RemoteSettled(s) ==> RemoteSettled(InvalidatorStep(s, id))
  {
    ClearExcuses(s, id);
    ClearKeepsExcuses(s, id);
    hide InvalidatorStep, ClearingLocal, ClearingRemote, AboutToTrigger, LastInval, InvalidatorsOk;
  }

  lemma ClearCovered(s: Sys, id: nat)
    requires CyclesOk(s) && Covered(s) && Owing(s) && Timestamped(s) && Fetched(s) && InvalidatorsOk(s)
    requires id in s.invalidators && BeforeLock(s.invalidators[id].pc)
    ensures var s' := InvalidatorStep(s, id);
            CyclesOk(s') && Covered(s') && Owing(s') && Timestamped(s') && Fetched(s')
  {
    var s' := InvalidatorStep(s, id);
    ClearExcuses(s, id);
    ClearKeepsExcuses(s, id);
    ClearSettled(s, id);
    assert s'.tasks == s.tasks && s'.log == s.log && s'.lastFull == s.lastFull;
    assert Fetched(s') by {
      hide ClearingLocal, ClearingRemote, LocalInHand, RemoteInHand, InvalidatorStep;
    }
    hide InvalidatorStep, LocalSettled, RemoteSettled, LastInval, LastBegin, InvalSinceStart, LastStart, AboutToTrigger;
    hide Fetched, InvalidatorsOk, ClearingLocal, ClearingRemote;
  }

  lemma ClearKeeps(s: Sys, id: nat)
    requires Inv(s) && id in s.invalidators && BeforeLock(s.invalidators[id].pc)
    ensures Inv(InvalidatorStep(s, id))
  {
    ClearExcuses(s, id);
    hide InvalidatorStep, SingleFlight, Debounce, Counted, Waiting, Fetched, CyclesOk, Covered, OwedOk, Timestamped,
      Owing, InvalidatorsOk;
    ClearCovered(s, id);
    assert Quiet(s, InvalidatorStep(s, id));
    hide Quiet;
    QuietKeeps(s, InvalidatorStep(s, id));
  }

  lemma LockDebounce(s: Sys, id: nat)
    requires SingleFlight(s) && Debounce(s) && id in s.invalidators && s.invalidators[id].pc.AtLock?
    ensures Debounce(InvalidatorStep(s, id))
  {
    OrderedSnoc(s, Inval);
    hide Ordered;
    Recorded(s.log, Entry(Inval, s.now, s.localData, s.remoteData), s.debounce);
  }

  lemma LockCovered(s: Sys, id: nat)
    requires SingleFlight(s) && CyclesOk(s) && id in s.invalidators && s.invalidators[id].pc.AtLock?
    ensures var s' := InvalidatorStep(s, id);
            CyclesOk(s') && Covered(s') && OwedOk(s') && Owing(s') && Timestamped(s') && SingleFlight(s')
  {
    var s' := InvalidatorStep(s, id);
    Recorded(s.log, Entry(Inval, s.now, s.localData, s.remoteData), s.debounce);
    assert s'.invalidators[id].pc.AtTrigger?;
    assert AboutToTrigger(s');
    assert s'.tasks == s.tasks && LocalCycle(s') == LocalCycle(s);
  }

  lemma LockKeeps(s: Sys, id: nat)
    requires Inv(s) && id in s.invalidators && s.invalidators[id].pc.AtLock?
    ensures Inv(InvalidatorStep(s, id))
  {
    LockRest(s, id);
    hide SingleFlight, Debounce, Counted, Waiting, Fetched, CyclesOk, Covered, OwedOk, Timestamped, Owing,
      InvalidatorsOk;
    hide InvalidatorStep;
    LockDebounce(s, id);
    LockCovered(s, id);
  }

  lemma LockRest(s: Sys, id: nat)
    requires Counted(s) && Waiting(s) && Fetched(s) && InvalidatorsOk(s)
    requires id in s.invalidators && s.invalidators[id].pc.AtLock?
    ensures var s' := InvalidatorStep(s, id); Counted(s') && Waiting(s') && Fetched(s') && InvalidatorsOk(s')
  {
    Recorded(s.log, Entry(Inval, s.now, s.localData, s.remoteData), s.debounce);
    assert InvalidatorStep(s, id).tasks == s.tasks;
  }

  lemma RemovedExcuses(s: Sys, id: nat)
    requires id in s.invalidators && s.invalidators[id].pc.AtTrigger?
    ensures SameWork(s, s.(invalidators := s.invalidators - {id}))
  {
    ExcusesStay(s, s.(invalidators := s.invalidators - {id}));
    hide ClearingLocal, ClearingRemote;
  }

  lemma RemovedRest(s: Sys, id: nat)
    requires Inv(s)
    ensures var s' := s.(invalidators := s.invalidators - {id});
            && SingleFlight(s') && Debounce(s') && Counted(s') && Waiting(s') && Timestamped(s')
            && InvalidatorsOk(s') && OwedOk(s')
  {
    hide Fetched, Covered, CyclesOk, Ordered, Spaced, LastStart, InvalSinceStart, Cycles;
  }

  lemma RemovedKeeps(s: Sys, id: nat)
    requires Inv(s) && id in s.invalidators && s.invalidators[id].pc.AtTrigger?
    ensures MidInv(s.(invalidators := s.invalidators - {id}))
  {
    var s' := s.(invalidators := s.invalidators - {id});
    RemovedExcuses(s, id);
    RemovedRest(s, id);
    hide SingleFlight, Debounce, Counted, Waiting, Fetched, CyclesOk, Covered, OwedOk, Timestamped, InvalidatorsOk,
      SameWork;
    SameCovered(s, s');
    SameFetched(s, s');
  }

  lemma InvalidatorKeeps(s: Sys, id: nat)
    requires Inv(s) && Enabled(s, AdvanceInvalidator(id))
    ensures Inv(InvalidatorStep(s, id))
  {
    hide Inv, MidInv;
    if s.invalidators[id].pc.AtTrigger? {
      RemovedKeeps(s, id);
      TriggerKeeps(s.(invalidators := s.invalidators - {id}));
    } else if s.invalidators[id].pc.AtLock? {
      LockKeeps(s, id);
    } else {
      ClearKeeps(s, id);
    }
  }

  lemma DropExcuses(s: Sys, id: nat)
    requires id in s.invalidators
    ensures SameWork(s, DropStep(s, id))
    ensures InvalSinceStart(s.log) && (AboutToTrigger(s) || s.owed) ==>
              AboutToTrigger(DropStep(s, id)) || DropStep(s, id).owed
  {
    var s' := DropStep(s, id);
    ExcusesStay(s, s');
    if InvalSinceStart(s.log) && AboutToTrigger(s) && !s'.owed {
      var i :| i in s.invalidators && s.invalidators[i].pc.AtTrigger?;
      assert i in s'.invalidators;
    }
  }

  lemma DropInvalidatorKeeps(s: Sys, id: nat)
    requires Inv(s) && id in s.invalidators
    ensures Inv(DropStep(s, id))
  {
    var s' := DropStep(s, id);
    DropExcuses(s, id);
    assert SingleFlight(s') && Debounce(s') && Counted(s') && Waiting(s') && Timestamped(s') && InvalidatorsOk(s')
        && Owing(s') && OwedOk(s');
    hide SingleFlight, Debounce, Counted, Waiting, Fetched, CyclesOk, Covered, OwedOk, Timestamped, InvalidatorsOk,
      Owing, SameWork, DropStep;
    SameCovered(s, s');
    SameFetched(s, s');
  }

  // ----- the rest of the steps -----

  predicate IsEnvironment(step: Step) {
    step.Tick? || step.LocalDataChanges? || step.RemoteDataChanges? || step.BeginInvalidate?
  }

  lemma EnvironmentShape(s: Sys, step: Step)
    requires InvalidatorsOk(s) && OwedOk(s) && Owing(s) && Timestamped(s) && IsEnvironment(step)
    ensures var s' := Apply(s, step);
            SameWork(s, s') && Quiet(s, s') && InvalidatorsOk(s') && OwedOk(s') && Owing(s') && Timestamped(s')
  {
    var s' := Apply(s, step);
    assert forall i :: i in s.invalidators ==> i in s'.invalidators && s'.invalidators[i] == s.invalidators[i];
    ExcusesStay(s, s');
    if AboutToTrigger(s) {
      var i :| i in s.invalidators && s.invalidators[i].pc.AtTrigger?;
      assert s'.invalidators[i].pc.AtTrigger?;
    }
  }

  lemma OtherKeeps(s: Sys, step: Step)
    requires Inv(s) && IsEnvironment(step)
    ensures Inv(Apply(s, step))
  {
    hide Apply, SingleFlight, Debounce, Counted, Waiting, Fetched, CyclesOk, Covered, OwedOk, Timestamped, Owing,
      InvalidatorsOk, Quiet, SameWork;
    EnvironmentShape(s, step);
    SameCovered(s, Apply(s, step));
    SameFetched(s, Apply(s, step));
    QuietKeeps(s, Apply(s, step));
  }

  lemma DropWaiting(s: Sys, id: nat)
    requires Waiting(s) && id in s.shared.handles
    ensures Waiting(Apply(s, DropHandle(id)))
  {
    var s' := Apply(s, DropHandle(id));
    forall h | h in s'.shared.handles
      ensures HandleOk(s', h)
    {
      assert HandleOk(s, h);
    }
  }

  /** Only the live handles differ. */
  lemma DropShape(s: Sys, id: nat)
    requires Inv(s) && id in s.shared.handles
    ensures var s' := Apply(s, DropHandle(id));
            && SameWork(s, s') && SingleFlight(s') && Debounce(s') && Counted(s')
            && Timestamped(s') && InvalidatorsOk(s') && Owing(s') && OwedOk(s')
  {
    var s' := Apply(s, DropHandle(id));
    assert s' == s.(shared := s'.shared, taken := s'.taken) && s'.shared == s.shared.(handles := s'.shared.handles);
    SameExcuses(s, s');
    hide Waiting, Fetched, Covered, CyclesOk, Ordered, Spaced, ClearingLocal, ClearingRemote, AboutToTrigger;
    hide Apply, LastStart, InvalSinceStart, Cycles;
  }

  lemma DropKeeps(s: Sys, id: nat)
    requires Inv(s) && id in s.shared.handles
    ensures Inv(Apply(s, DropHandle(id)))
  {
    DropShape(s, id);
    hide Apply, SingleFlight, Debounce, Counted, Waiting, Fetched, CyclesOk, Covered, OwedOk, Timestamped;
    hide InvalidatorsOk, Owing, SameWork;
    DropWaiting(s, id);
    SameCovered(s, Apply(s, DropHandle(id)));
    SameFetched(s, Apply(s, DropHandle(id)));
  }

  lemma StepKeeps(s: Sys, step: Step)
    requires Inv(s) && Enabled(s, step) && Steady(s, step)
    ensures Inv(Apply(s, step))
  {
    hide Inv, MidInv, TriggerStep, EnsureLocalStep, InvalidatorStep, TaskStep, DropStep;
    match step
    case CallTrigger =>
      InvIsMid(s);
      TriggerKeeps(s);
    case CallEnsureLocal => EnsureLocalKeeps(s);
    case AdvanceInvalidator(id) => InvalidatorKeeps(s, id);
    case DropInvalidator(id) => DropInvalidatorKeeps(s, id);
    case AdvanceTask(id, timeouts, nodes) => TaskKeeps(s, id, timeouts, nodes);
    case FetchLocal(id) => FetchKeeps(s, step);
    case FetchRemote(id) => FetchKeeps(s, step);
    case DropHandle(id) => DropKeeps(s, id);
    case _ => OtherKeeps(s, step);
  }

  lemma InvIsMid(s: Sys)
    requires Inv(s)
    ensures MidInv(s)
  {
  }

  lemma {:induction false} RunKeeps(s: Sys, steps: seq<Step>)
    requires Inv(s) && Legal(s, steps) && SteadyRun(s, steps)
    ensures Inv(Exec(s, steps))
    decreases |steps|
  {
    hide Inv, Enabled, Apply, Steady;
    if steps != [] {
      StepKeeps(s, steps[0]);
      RunKeeps(Apply(s, steps[0]), steps[1..]);
    }
  }
}
