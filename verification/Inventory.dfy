/**
 The model inventory as one shared object: the fields behind the `refresh_state` mutex, the
 completion channels with their live receivers, the two swapped snapshots and the version counter.

 Every function below is one indivisible action of the source: a mutex region or a single
 snapshot store. The class performs the same actions on mutable fields; InventoryProtocol
 interleaves them.
 */
module Inventory {
  import opened Prelude

  datatype Disposition = AlreadyInProgress | Debounced | Started

  /** Which caches an `invalidate_*` call empties. */
  datatype Scope = LocalOnly | RemoteOnly | Both

  /** A snapshot is the empty vector or what the fetch of some cycle returned. */
  datatype Snapshot = Cleared | Stored(cycle: nat, version: nat)

  datatype RefreshState = RefreshState(
    localRefreshing: bool,
    remoteRefreshing: bool,
    localUpdatedAt: Option<nat>,
    remoteUpdatedAt: Option<nat>,
    remoteTimeoutCount: nat,
    remoteNodeCount: nat,
    doneTx: nat,
    lastTriggeredAt: Option<nat>,
    rerunRequested: bool)
  {
    predicate Refreshing() { localRefreshing || remoteRefreshing }
  }

  /** `channels[c]` is the value held by watch channel `c`; `handles` maps each live receiver to its channel. */
  datatype Shared = Shared(
    state: RefreshState,
    channels: seq<bool>,
    handles: map<nat, nat>,
    nextHandle: nat,
    local: Snapshot,
    remote: Snapshot,
    updateVersion: nat)
  {
    function Subscribe(channel: nat): Shared {
      this.(handles := handles[nextHandle := channel], nextHandle := nextHandle + 1)
    }

    /** `watch::Sender::send(true)`: without a live receiver the value stays as it is. */
    function Signal(): Shared {
      if state.doneTx in handles.Values && state.doneTx < |channels|
      then this.(channels := channels[state.doneTx := true])
      else this
    }

    /** What `RefreshHandle::wait` waits for: the value is true, or the sender is gone. */
    predicate Released(handle: nat) {
      handle in handles && handles[handle] < |channels| &&
      (channels[handles[handle]] || handles[handle] != state.doneTx)
    }
  }

  const INITIAL: Shared :=
    Shared(RefreshState(false, false, None, None, 0, 0, 0, None, false), [true], map[], 0, Cleared, Cleared, 0)

  /** `Instant::duration_since` saturates at zero. */
  function Elapsed(now: nat, last: nat): nat {
    if now < last then 0 else now - last
  }

  function StartCycle(s: Shared, now: nat, remoteToo: bool): Shared {
    s.(state := s.state.(lastTriggeredAt := Some(now), localRefreshing := true, remoteRefreshing := remoteToo,
                         rerunRequested := false, doneTx := |s.channels|),
       channels := s.channels + [false])
  }

  function Trigger(s: Shared, now: nat, debounce: nat): (Shared, Disposition) {
    if s.state.Refreshing() then
      (s.Subscribe(s.state.doneTx), AlreadyInProgress)
    else if s.state.lastTriggeredAt.Some? && Elapsed(now, s.state.lastTriggeredAt.value) < debounce then
      (s, Debounced)
    else
      (StartCycle(s, now, true).Subscribe(|s.channels|), Started)
  }

  function EnsureLocal(s: Shared, now: nat, debounce: nat): (Shared, Disposition) {
    if s.state.Refreshing() then
      (s.Subscribe(s.state.doneTx), AlreadyInProgress)
    else if s.state.lastTriggeredAt.Some? && Elapsed(now, s.state.lastTriggeredAt.value) < debounce
            && s.state.localUpdatedAt.Some? then
      (s, Debounced)
    else
      (StartCycle(s, now, false).Subscribe(|s.channels|), Started)
  }

  /** The mutex region of `invalidate_local`, `invalidate_remote` and `invalidate_all`. */
  function Invalidate(s: Shared, scope: Scope): Shared {
    s.(state := s.state.(
       localUpdatedAt := if scope.RemoteOnly? then s.state.localUpdatedAt else None,
       remoteUpdatedAt := if scope.LocalOnly? then s.state.remoteUpdatedAt else None,
       lastTriggeredAt := None,
       rerunRequested := s.state.rerunRequested || s.state.Refreshing()))
  }

  function MarkLocal(s: Shared, now: nat): Shared {
    s.(state := s.state.(localUpdatedAt := Some(now)))
  }

  function MarkRemote(s: Shared, now: nat, timeouts: nat, nodes: nat): Shared {
    s.(state := s.state.(remoteTimeoutCount := timeouts, remoteNodeCount := nodes, remoteUpdatedAt := Some(now)))
  }

  /** Flags down, waiters signalled, version counted. */
  function EndCycle(s: Shared): Shared {
    var ended := s.(state := s.state.(localRefreshing := false, remoteRefreshing := false, rerunRequested := false));
    ended.Signal().(updateVersion := s.updateVersion + 1)
  }

  /** The final mutex region of `run_refresh`; the flag says whether a follow-up cycle is spawned. */
  function Finish(s: Shared, now: nat): (Shared, bool) {
    var rerun := s.state.rerunRequested;
    (if rerun then StartCycle(EndCycle(s), now, true) else EndCycle(s), rerun)
  }

  /** The mutex region of `run_local_refresh`: a rerun is spawned without raising the flags again. */
  function FinishLocal(s: Shared, now: nat): (Shared, bool) {
    var ended := s.(state := s.state.(localUpdatedAt := Some(now), localRefreshing := false, rerunRequested := false))
                 .Signal();
    (ended.(updateVersion := ended.updateVersion + 1), s.state.rerunRequested)
  }

  class ModelInventory {
    var localRefreshing: bool
    var remoteRefreshing: bool
    var localUpdatedAt: Option<nat>
    var remoteUpdatedAt: Option<nat>
    var remoteTimeoutCount: nat
    var remoteNodeCount: nat
    var doneTx: nat
    var lastTriggeredAt: Option<nat>
    var rerunRequested: bool
    var channels: seq<bool>
    var handles: map<nat, nat>
    var nextHandle: nat
    var local: Snapshot
    var remote: Snapshot
    var updateVersion: nat
    const debounce: nat

    function View(): Shared
      reads this
    {
      Shared(RefreshState(localRefreshing, remoteRefreshing, localUpdatedAt, remoteUpdatedAt, remoteTimeoutCount,
                          remoteNodeCount, doneTx, lastTriggeredAt, rerunRequested),
             channels, handles, nextHandle, local, remote, updateVersion)
    }

    constructor (debounce: nat)
      ensures View() == INITIAL && this.debounce == debounce
    {
      this.debounce := debounce;
      localRefreshing, remoteRefreshing, rerunRequested := false, false, false;
      localUpdatedAt, remoteUpdatedAt, lastTriggeredAt := None, None, None;
      remoteTimeoutCount, remoteNodeCount := 0, 0;
      doneTx, channels, handles, nextHandle := 0, [true], map[], 0;
      local, remote, updateVersion := Cleared, Cleared, 0;
    }

    method Subscribe(channel: nat) returns (handle: nat)
      modifies `handles, `nextHandle
      ensures handle == old(nextHandle) && nextHandle == handle + 1 && handles == old(handles)[handle := channel]
    {
      handle := nextHandle;
      handles := handles[handle := channel];
      nextHandle := nextHandle + 1;
    }

    /** Flags up and a channel of its own for the cycle that starts now. */
    method BeginCycle(now: nat, remoteToo: bool)
      modifies this
      ensures View() == StartCycle(old(View()), now, remoteToo)
    {
      lastTriggeredAt := Some(now);
      localRefreshing := true;
      remoteRefreshing := remoteToo;
      rerunRequested := false;
      doneTx := |channels|;
      channels := channels + [false];
    }

    method Signal()
      modifies `channels
      ensures channels == if doneTx in handles.Values && doneTx < |old(channels)|
                          then old(channels)[doneTx := true] else old(channels)
    {
      if doneTx in handles.Values && doneTx < |channels| {
        channels := channels[doneTx := true];
      }
    }

    /** `trigger_refresh`; the handle is the receiver the caller may wait on, absent when debounced. */
    method TriggerRefresh(now: nat) returns (disposition: Disposition, handle: Option<nat>)
      modifies this
      ensures (View(), disposition) == Trigger(old(View()), now, debounce)
      ensures handle == if disposition.Debounced? then None else Some(old(nextHandle))
    {
      if localRefreshing || remoteRefreshing {
        var h := Subscribe(doneTx);
        return AlreadyInProgress, Some(h);
      }
      if lastTriggeredAt.Some? && Elapsed(now, lastTriggeredAt.value) < debounce {
        return Debounced, None;
      }
      BeginCycle(now, true);
      var h := Subscribe(doneTx);
      return Started, Some(h);
    }

    method EnsureLocalRefresh(now: nat) returns (disposition: Disposition, handle: Option<nat>)
      modifies this
      ensures (View(), disposition) == EnsureLocal(old(View()), now, debounce)
      ensures handle == if disposition.Debounced? then None else Some(old(nextHandle))
    {
      if localRefreshing || remoteRefreshing {
        var h := Subscribe(doneTx);
        return AlreadyInProgress, Some(h);
      }
      if lastTriggeredAt.Some? && Elapsed(now, lastTriggeredAt.value) < debounce && localUpdatedAt.Some? {
        return Debounced, None;
      }
      BeginCycle(now, false);
      var h := Subscribe(doneTx);
      return Started, Some(h);
    }

    method InvalidateRegion(scope: Scope)
      modifies `localUpdatedAt, `remoteUpdatedAt, `lastTriggeredAt, `rerunRequested
      ensures View() == Invalidate(old(View()), scope)
    {
      if !scope.RemoteOnly? {
        localUpdatedAt := None;
      }
      if !scope.LocalOnly? {
        remoteUpdatedAt := None;
      }
      lastTriggeredAt := None;
      if localRefreshing || remoteRefreshing {
        rerunRequested := true;
      }
    }

    method EndRefresh() returns (rerun: bool)
      modifies this
      ensures View() == EndCycle(old(View())) && rerun == old(rerunRequested)
    {
      localRefreshing := false;
      remoteRefreshing := false;
      rerun := rerunRequested;
      rerunRequested := false;
      Signal();
      updateVersion := updateVersion + 1;
    }

    /** The end of `run_refresh`. */
    method FinishRefresh(now: nat) returns (rerun: bool)
      modifies this
      ensures (View(), rerun) == Finish(old(View()), now)
    {
      rerun := EndRefresh();
      if rerun {
        BeginCycle(now, true);
      }
    }

    /** The end of `run_local_refresh`. */
    method FinishLocalRefresh(now: nat) returns (rerun: bool)
      modifies this
      ensures (View(), rerun) == FinishLocal(old(View()), now)
    {
      localUpdatedAt := Some(now);
      localRefreshing := false;
      rerun := rerunRequested;
      rerunRequested := false;
      Signal();
      updateVersion := updateVersion + 1;
    }
  }
}
