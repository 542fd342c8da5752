/**
 Concurrent users of the profile runtime cache.

 A call that misses the cache builds a runtime with no lock held, then locks the cache, checks it
 again, reads the mesh cell, records the fingerprint and inserts. The mesh cell has a lock of its
 own, so it may be written between the read and the insert. A call may also be dropped at any await.
 */
module ProfileTheorems {
  import opened Prelude
  import opened ProfileRuntimes

  /** A runtime object; its id is its identity. */
  datatype Runtime = Runtime(fingerprint: string, mesh: Option<Mesh>)

  datatype Call =
    | Missed(profile: string)
    | Built(profile: string, runtime: nat)
    | Locked(profile: string, runtime: nat)
    | MeshRead(profile: string, runtime: nat)

  /** What a call returned, and how often its profile had been evicted by then. */
  datatype Return = Return(profile: string, runtime: nat, evictions: nat)

  /** `setters` are `set_mesh` calls that have written the cell and not yet visited the cache. */
  datatype Sys = Sys(
    objects: seq<Runtime>, runtimes: map<string, nat>, fps: map<string, string>, cell: Option<Mesh>, lock: Option<nat>,
    calls: map<nat, Call>, setters: map<nat, Mesh>, evicted: map<string, nat>, answers: seq<Return>)

  const INITIAL := Sys([], map[], map[], None, None, map[], map[], map[], [])

  datatype Step =
    | Lookup(thread: nat, profile: string)
    | Build(thread: nat, fingerprint: string)
    | Recheck(thread: nat)
    | ReadMesh(thread: nat)
    | InsertRuntime(thread: nat)
    | Abandon(thread: nat)
    | Reload(listing: map<string, string>)
    | WriteCell(setter: nat, mesh: Mesh)
    | SetAll(setter: nat)
    | WriteHandle(handle: Mesh)
    | Shutdown

  predicate Enabled(s: Sys, step: Step) {
    match step
    case Lookup(t, p) => s.lock.None? && t !in s.calls
    case Build(t, f) => t in s.calls && s.calls[t].Missed?
    case Recheck(t) => s.lock.None? && t in s.calls && s.calls[t].Built?
    case ReadMesh(t) => t in s.calls && s.calls[t].Locked? && s.calls[t].runtime < |s.objects|
    case InsertRuntime(t) => t in s.calls && s.calls[t].MeshRead? && s.calls[t].runtime < |s.objects|
    case Abandon(t) => t in s.calls
    case Reload(listing) => s.lock.None?
    case WriteCell(c, m) => c !in s.setters
    case SetAll(c) => s.lock.None? && c in s.setters
    case WriteHandle(m) => true
    case Shutdown => s.lock.None?
  }

  function Evictions(s: Sys, profile: string): nat { if profile in s.evicted then s.evicted[profile] else 0 }

  function Returned(s: Sys, profile: string, runtime: nat): seq<Return> {
    s.answers + [Return(profile, runtime, Evictions(s, profile))]
  }

  /** One more eviction for every profile that leaves the cache. */
  function Evicted(s: Sys, kept: map<string, nat>): map<string, nat> {
    map p | p in s.evicted.Keys + s.runtimes.Keys :: Evictions(s, p) + if p in s.runtimes && p !in kept then 1 else 0
  }

  function WithMesh(r: Runtime, cell: Option<Mesh>): Runtime { if cell.Some? then r.(mesh := cell) else r }

  function SetMeshes(s: Sys, m: Mesh): seq<Runtime> {
    seq(|s.objects|, i requires 0 <= i < |s.objects| =>
      if i in s.runtimes.Values then s.objects[i].(mesh := Some(m)) else s.objects[i])
  }

  function Apply(s: Sys, step: Step): Sys
    requires Enabled(s, step)
  {
    match step
    case Lookup(t, p) =>
      if p in s.runtimes then s.(answers := Returned(s, p, s.runtimes[p])) else s.(calls := s.calls[t := Missed(p)])
    case Build(t, f) =>
      s.(objects := s.objects + [Runtime(f, None)], calls := s.calls[t := Built(s.calls[t].profile, |s.objects|)])
    case Recheck(t) =>
      var p := s.calls[t].profile;
      if p in s.runtimes then s.(answers := Returned(s, p, s.runtimes[p]), calls := s.calls - {t})
      else s.(lock := Some(t), calls := s.calls[t := Locked(p, s.calls[t].runtime)])
    case ReadMesh(t) =>
      var r := s.calls[t].runtime;
      s.(objects := s.objects[r := WithMesh(s.objects[r], s.cell)],
          calls := s.calls[t := MeshRead(s.calls[t].profile, r)])
    case InsertRuntime(t) =>
      var p, r := s.calls[t].profile, s.calls[t].runtime;
      s.(fps := s.fps[p := s.objects[r].fingerprint], runtimes := s.runtimes[p := r], lock := None,
         calls := s.calls - {t}, answers := Returned(s, p, r))
    case Abandon(t) =>
      s.(calls := s.calls - {t}, lock := if s.lock == Some(t) then None else s.lock)
    case Reload(listing) =>
      var kept := Retained(s.runtimes, s.fps, listing);
      s.(runtimes := kept, fps := RetainedFps(s.runtimes, s.fps, listing), evicted := Evicted(s, kept))
    case WriteCell(c, m) => s.(cell := Some(m), setters := s.setters[c := m])
    case SetAll(c) => s.(objects := SetMeshes(s, s.setters[c]), setters := s.setters - {c})
    case WriteHandle(m) => s.(cell := Some(m))
    case Shutdown => s.(runtimes := map[], evicted := Evicted(s, map[]))
  }

  predicate Legal(s: Sys, steps: seq<Step>)
    decreases |steps|
  {
    steps == [] || (Enabled(s, steps[0]) && Legal(Apply(s, steps[0]), steps[1..]))
  }

  function Exec(s: Sys, steps: seq<Step>): Sys
    requires Legal(s, steps)
    decreases |steps|
  {
    if steps == [] then s else Exec(Apply(s, steps[0]), steps[1..])
  }

  // ----- the invariant -----

  predicate HoldsLock(call: Call) { call.Locked? || call.MeshRead? }

  /** The lock is held by the one call past its second check, whose profile is not cached. */
  ghost predicate LockOk(s: Sys) {
    && (forall t :: t in s.calls && HoldsLock(s.calls[t]) <==> s.lock == Some(t))
    && (forall t :: t in s.calls && HoldsLock(s.calls[t]) ==> s.calls[t].profile !in s.runtimes)
  }

  /** Runtimes in use exist, and one that is still private to a call is not cached. */
  predicate ObjectsOk(s: Sys) {
    && (forall p :: p in s.runtimes ==> s.runtimes[p] < |s.objects|)
    && (forall t :: t in s.calls && !s.calls[t].Missed? ==> s.calls[t].runtime < |s.objects|)
    && (forall t, p :: t in s.calls && !s.calls[t].Missed? && p in s.runtimes ==> s.calls[t].runtime != s.runtimes[p])
    && (forall t, u :: t in s.calls && u in s.calls && t != u && !s.calls[t].Missed? && !s.calls[u].Missed? ==>
          s.calls[t].runtime != s.calls[u].runtime)
  }

  /** The fingerprint recorded for a cached runtime is its own. */
  predicate OwnFingerprint(s: Sys) {
    forall p :: p in s.runtimes
        ==> p in s.fps && s.runtimes[p] < |s.objects| && s.fps[p] == s.objects[s.runtimes[p]].fingerprint
  }

  /** What was returned since a profile's last eviction is what is cached for it. */
  predicate ReturnsCached(s: Sys) {
    forall r :: r in s.answers ==>
      r.evictions <= Evictions(s, r.profile)
      && (r.evictions == Evictions(s, r.profile) ==> r.profile in s.runtimes && s.runtimes[r.profile] == r.runtime)
  }

  predicate ReturnsAgree(s: Sys) {
    forall r, q :: r in s.answers && q in s.answers && r.profile == q.profile && r.evictions == q.evictions
        ==> r.runtime == q.runtime
  }

  ghost predicate Inv(s: Sys) { LockOk(s) && ObjectsOk(s) && OwnFingerprint(s) && ReturnsCached(s) && ReturnsAgree(s) }

  predicate Evicts(step: Step) { step.Reload? || step.Shutdown? }

  /** An eviction takes entries away and counts them; nothing else moves. */
  lemma EvictionShape(s: Sys, step: Step)
    requires Enabled(s, step) && Evicts(step)
    ensures var s' := Apply(s, step);
            && s'.lock == s.lock && s'.calls == s.calls && s'.objects == s.objects && s'.answers == s.answers
            && (forall p :: p in s'.runtimes ==> p in s.runtimes && s'.runtimes[p] == s.runtimes[p])
            && (forall p :: Evictions(s', p) == Evictions(s, p) + if p in s.runtimes && p !in s'.runtimes then 1 else 0)
            && (forall p :: p in s'.runtimes && p in s.fps ==> p in s'.fps && s'.fps[p] == s.fps[p])
  {
  }

  lemma LockMoves(s: Sys, step: Step)
    requires LockOk(s) && Enabled(s, step) && (step.Recheck? || step.InsertRuntime? || step.Abandon?)
    ensures LockOk(Apply(s, step))
  {
    hide SetMeshes, Evicted, Retained, RetainedFps, Returned;
  }

  lemma LockStays(s: Sys, step: Step)
    requires LockOk(s) && Enabled(s, step) && !Evicts(step) && !(step.Recheck? || step.InsertRuntime? || step.Abandon?)
    ensures LockOk(Apply(s, step))
  {
    hide SetMeshes, Evicted, Retained, RetainedFps, Returned;
    var s' := Apply(s, step);
    assert s'.lock == s.lock && s'.runtimes == s.runtimes;
  }

  lemma LockKept(s: Sys, step: Step)
    requires Inv(s) && Enabled(s, step)
    ensures LockOk(Apply(s, step))
  {
    hide ObjectsOk, OwnFingerprint, ReturnsCached, ReturnsAgree;
    if Evicts(step) {
      EvictionShape(s, step);
      hide Apply;
    } else {
      hide Apply, Enabled, LockOk;
      if step.Recheck? || step.InsertRuntime? || step.Abandon? {
        LockMoves(s, step);
      } else {
        LockStays(s, step);
      }
    }
  }

  lemma BuildObjectsKept(s: Sys, step: Step)
    requires ObjectsOk(s) && Enabled(s, step) && step.Build?
    ensures ObjectsOk(Apply(s, step))
  {
  }

  lemma InsertObjectsKept(s: Sys, step: Step)
    requires ObjectsOk(s) && Enabled(s, step) && step.InsertRuntime?
    ensures ObjectsOk(Apply(s, step))
  {
  }

  lemma ObjectsKept(s: Sys, step: Step)
    requires Inv(s) && Enabled(s, step)
    ensures ObjectsOk(Apply(s, step))
  {
    hide LockOk, OwnFingerprint, ReturnsCached, ReturnsAgree, Evicted, RetainedFps;
    if Evicts(step) {
      EvictionShape(s, step);
      hide Apply;
    } else if step.Build? {
      BuildObjectsKept(s, step);
    } else if step.InsertRuntime? {
      InsertObjectsKept(s, step);
    } else {
      var s' := Apply(s, step);
      assert s'.runtimes == s.runtimes && |s'.objects| == |s.objects|;
      assert forall t :: t in s'.calls && !s'.calls[t].Missed? ==>
          t in s.calls && !s.calls[t].Missed? && s'.calls[t].runtime == s.calls[t].runtime;
    }
  }

  lemma FingerprintKept(s: Sys, step: Step)
    requires Inv(s) && Enabled(s, step)
    ensures OwnFingerprint(Apply(s, step))
  {
    hide LockOk, ReturnsCached, ReturnsAgree, Evicted;
    if Evicts(step) {
      EvictionShape(s, step);
      hide Apply;
    }
  }

  /** Answering with what is cached. */
  lemma AnswerKept(s: Sys, s': Sys, p: string)
    requires ReturnsCached(s) && ReturnsAgree(s) && p in s'.runtimes
    requires s'.answers == s.answers + [Return(p, s'.runtimes[p], Evictions(s', p))]
    requires forall q :: Evictions(s', q) == Evictions(s, q)
    requires forall q :: q in s.runtimes ==> q in s'.runtimes && s'.runtimes[q] == s.runtimes[q]
    ensures ReturnsCached(s') && ReturnsAgree(s')
  {
    assert forall r :: r in s'.answers <==> r in s.answers || r == Return(p, s'.runtimes[p], Evictions(s', p));
  }

  lemma EvictionAnswersKept(s: Sys, step: Step)
    requires Inv(s) && Enabled(s, step) && Evicts(step)
    ensures ReturnsCached(Apply(s, step)) && ReturnsAgree(Apply(s, step))
  {
    EvictionShape(s, step);
    hide Apply, LockOk, ObjectsOk, OwnFingerprint, Evictions;
  }

  lemma ReturnsKept(s: Sys, step: Step)
    requires Inv(s) && Enabled(s, step)
    ensures ReturnsCached(Apply(s, step)) && ReturnsAgree(Apply(s, step))
  {
    hide ObjectsOk, OwnFingerprint, SetMeshes, RetainedFps, Evicted;
    var s' := Apply(s, step);
    if Evicts(step) {
      EvictionAnswersKept(s, step);
    } else if s'.answers == s.answers {
      assert s'.runtimes == s.runtimes && s'.evicted == s.evicted;
    } else {
      var p := if step.Lookup? then step.profile else s.calls[step.thread].profile;
      hide ReturnsCached, ReturnsAgree;
      AnswerKept(s, s', p);
    }
  }

  lemma StepKeeps(s: Sys, step: Step)
    requires Inv(s) && Enabled(s, step)
    ensures Inv(Apply(s, step))
  {
    LockKept(s, step);
    ObjectsKept(s, step);
    FingerprintKept(s, step);
    ReturnsKept(s, step);
  }

  lemma {:induction false} RunKeeps(s: Sys, steps: seq<Step>)
    requires Inv(s) && Legal(s, steps)
    ensures Inv(Exec(s, steps))
    decreases |steps|
  {
    hide Inv, Enabled, Apply;
    if steps != [] {
      StepKeeps(s, steps[0]);
      RunKeeps(Apply(s, steps[0]), steps[1..]);
    }
  }

  /**
   Calls for one profile with no eviction of it between them return the same runtime, and the
   cache still holds it.
   */
  lemma CallsAgree(steps: seq<Step>, r: Return, q: Return)
    requires Legal(INITIAL, steps)
    requires r in Exec(INITIAL, steps).answers && q in Exec(INITIAL, steps).answers && r.profile == q.profile
    ensures r.evictions == q.evictions ==> r.runtime == q.runtime
    ensures var s := Exec(INITIAL, steps);
            r.evictions == Evictions(s, r.profile) ==> r.profile in s.runtimes && s.runtimes[r.profile] == r.runtime
  {
    RunKeeps(INITIAL, steps);
  }

  /** A reload keeps exactly the cached runtimes that are still listed with the fingerprint they were built from. */
  lemma ReloadIsExact(steps: seq<Step>, listing: map<string, string>, p: string)
    requires Legal(INITIAL, steps) && Enabled(Exec(INITIAL, steps), Reload(listing))
        && p in Exec(INITIAL, steps).runtimes
    ensures var s := Exec(INITIAL, steps);
            && s.runtimes[p] < |s.objects|
            && var t := Apply(s, Reload(listing));
            && (p in t.runtimes <==> p in listing && listing[p] == s.objects[s.runtimes[p]].fingerprint)
            && (p in t.runtimes ==> t.runtimes[p] == s.runtimes[p])
            && (p in t.fps <==> p in t.runtimes)
  {
    RunKeeps(INITIAL, steps);
  }

  // ----- mesh coverage -----

  /** Every cached runtime carries the mesh. */
  predicate AllCarry(s: Sys, m: Mesh) {
    forall p :: p in s.runtimes ==> s.runtimes[p] < |s.objects| && s.objects[s.runtimes[p]].mesh == Some(m)
  }

  /** So does the one about to be cached, and the ones built later will. */
  ghost predicate Covers(s: Sys, m: Mesh) {
    && s.cell == Some(m) && AllCarry(s, m)
    && (forall t :: t in s.calls && s.calls[t].MeshRead? ==>
          s.calls[t].runtime < |s.objects| && s.objects[s.calls[t].runtime].mesh == Some(m))
  }

  /** No rival of setter `c`: nobody else writes the cell or visits the cache. */
  predicate NoRival(step: Step, c: nat) {
    !step.WriteCell? && !step.WriteHandle? && (step.SetAll? ==> step.setter == c)
  }

  lemma ReadMeshCovers(s: Sys, step: Step, m: Mesh)
    requires Inv(s) && Enabled(s, step) && step.ReadMesh? && Covers(s, m)
    ensures Covers(Apply(s, step), m)
  {
    hide OwnFingerprint, ReturnsCached, ReturnsAgree;
  }

  lemma InsertCovers(s: Sys, step: Step, m: Mesh)
    requires Inv(s) && Enabled(s, step) && step.InsertRuntime? && Covers(s, m)
    ensures Covers(Apply(s, step), m)
  {
    hide OwnFingerprint, ReturnsCached, ReturnsAgree, LockOk;
  }

  lemma EvictionCovers(s: Sys, step: Step, m: Mesh)
    requires Enabled(s, step) && Evicts(step) && Covers(s, m)
    ensures Covers(Apply(s, step), m)
  {
    EvictionShape(s, step);
    assert Apply(s, step).cell == s.cell;
    hide Apply;
  }

  lemma CoversFrom(s: Sys, s': Sys, m: Mesh)
    requires Covers(s, m) && s'.cell == s.cell && s'.runtimes == s.runtimes && s.objects <= s'.objects
    requires forall t :: t in s'.calls && s'.calls[t].MeshRead? ==> t in s.calls && s'.calls[t] == s.calls[t]
    ensures Covers(s', m)
  {
  }

  /** Steps that touch neither the cache nor an existing object. */
  lemma QuietCovers(s: Sys, step: Step, m: Mesh)
    requires Enabled(s, step) && Covers(s, m) && (step.Lookup? || step.Build? || step.Recheck? || step.Abandon?)
    ensures Covers(Apply(s, step), m)
  {
    hide Covers, SetMeshes, Evicted, Retained, RetainedFps, Returned;
    CoversFrom(s, Apply(s, step), m);
  }

  lemma CoversKept(s: Sys, step: Step, m: Mesh)
    requires Inv(s) && Enabled(s, step) && Covers(s, m)
    requires !step.WriteCell? && !step.WriteHandle? && !step.SetAll?
    ensures Covers(Apply(s, step), m)
  {
    hide Inv, Covers, Apply, Enabled;
    if step.ReadMesh? {
      ReadMeshCovers(s, step, m);
    } else if step.InsertRuntime? {
      InsertCovers(s, step, m);
    } else if Evicts(step) {
      EvictionCovers(s, step, m);
    } else {
      QuietCovers(s, step, m);
    }
  }

  lemma SetAllCovers(s: Sys, c: nat, m: Mesh)
    requires Inv(s) && Enabled(s, SetAll(c)) && s.cell == Some(m) && s.setters[c] == m
    ensures Covers(Apply(s, SetAll(c)), m)
  {
    var s' := Apply(s, SetAll(c));
    forall p | p in s'.runtimes
      ensures s'.runtimes[p] < |s'.objects| && s'.objects[s'.runtimes[p]].mesh == Some(m)
    {
      assert s.runtimes[p] in s.runtimes.Values;
    }
    assert forall t :: t in s'.calls ==> !HoldsLock(s'.calls[t]);
  }

  /** The visit hands the mesh to the cached runtimes, to no other, and changes nothing else of them. */
  lemma SetAllExact(s: Sys, c: nat, r: nat)
    requires Enabled(s, SetAll(c)) && r < |s.objects|
    ensures var t := Apply(s, SetAll(c));
            && |t.objects| == |s.objects| && t.objects[r].fingerprint == s.objects[r].fingerprint
            && t.objects[r].mesh == (if exists p :: p in s.runtimes && s.runtimes[p] == r then Some(s.setters[c])
                                     else s.objects[r].mesh)
            && t.runtimes == s.runtimes && t.fps == s.fps && t.cell == s.cell
  {
    assert r in s.runtimes.Values <==> exists p :: p in s.runtimes && s.runtimes[p] == r;
  }

  /** Between the write of the cell and the visit: the cell holds the mesh and the setter still has it to hand out. */
  ghost predicate SetterWaits(s: Sys, c: nat, m: Mesh) { s.cell == Some(m) && c in s.setters && s.setters[c] == m }

  lemma {:induction false} WaitingRun(s: Sys, steps: seq<Step>, c: nat, m: Mesh)
    requires Inv(s) && SetterWaits(s, c, m) && Legal(s, steps)
    requires forall i :: 0 <= i < |steps| ==> NoRival(steps[i], c) && !steps[i].SetAll?
    ensures Inv(Exec(s, steps)) && SetterWaits(Exec(s, steps), c, m)
    decreases |steps|
  {
    if steps != [] {
      StepKeeps(s, steps[0]);
      assert NoRival(steps[0], c);
      assert SetterWaits(Apply(s, steps[0]), c, m);
      hide Inv, Apply, Enabled;
      WaitingRun(Apply(s, steps[0]), steps[1..], c, m);
    }
  }

  lemma {:induction false} CoveredRun(s: Sys, steps: seq<Step>, c: nat, m: Mesh)
    requires Inv(s) && Covers(s, m) && Legal(s, steps)
    requires forall i :: 0 <= i < |steps| ==> NoRival(steps[i], c) && !steps[i].SetAll?
    ensures Covers(Exec(s, steps), m)
    decreases |steps|
  {
    hide Inv, Covers, Apply, Enabled;
    if steps != [] {
      assert NoRival(steps[0], c) && !steps[0].SetAll?;
      StepKeeps(s, steps[0]);
      CoversKept(s, steps[0], m);
      CoveredRun(Apply(s, steps[0]), steps[1..], c, m);
    }
  }

  /**
   A `set_mesh` with no rival: from the moment it returns until the next write, every cached runtime
   carries the mesh, also one built or inserted while it ran, and one inserted afterwards.
   */
  lemma MeshReachesAll(before: seq<Step>, c: nat, m: Mesh, during: seq<Step>, after: seq<Step>)
    requires Legal(INITIAL, before)
    requires Enabled(Exec(INITIAL, before), WriteCell(c, m))
    requires var s := Apply(Exec(INITIAL, before), WriteCell(c, m));
             && Legal(s, during) && Enabled(Exec(s, during), SetAll(c))
             && Legal(Apply(Exec(s, during), SetAll(c)), after)
    requires forall i :: 0 <= i < |during| ==> NoRival(during[i], c) && !during[i].SetAll?
    requires forall i :: 0 <= i < |after| ==> NoRival(after[i], c) && !after[i].SetAll?
    ensures var s := Apply(Exec(INITIAL, before), WriteCell(c, m));
            AllCarry(Exec(Apply(Exec(s, during), SetAll(c)), after), m)
  {
    var start := Exec(INITIAL, before);
    InitialInv();
    RunKeeps(INITIAL, before);
    hide Inv, Legal, Exec, AllCarry, Covers;
    StepKeeps(start, WriteCell(c, m));
    WriteWaits(start, c, m);
    hide Apply, Enabled;
    var s := Apply(start, WriteCell(c, m));
    WaitingRun(s, during, c, m);
    var t := Exec(s, during);
    SetAllCovers(t, c, m);
    StepKeeps(t, SetAll(c));
    CoveredRun(Apply(t, SetAll(c)), after, c, m);
    CoversAll(Exec(Apply(t, SetAll(c)), after), m);
  }

  lemma InitialInv()
    ensures Inv(INITIAL)
  {
  }

  lemma WriteWaits(s: Sys, c: nat, m: Mesh)
    requires Enabled(s, WriteCell(c, m))
    ensures SetterWaits(Apply(s, WriteCell(c, m)), c, m)
  {
  }

  lemma CoversAll(s: Sys, m: Mesh)
    requires Covers(s, m)
    ensures AllCarry(s, m)
  {
  }

  /**
   A call that misses and is not disturbed: it caches and returns a new runtime with the fingerprint of its
   configuration and the mesh the cell holds, a rival's too, or none while the cell is empty.
   */
  lemma MissIsCached(s: Sys, thread: nat, p: string, f: string)
    requires Inv(s) && s.lock.None? && thread !in s.calls && p !in s.runtimes
    ensures var steps := [Lookup(thread, p), Build(thread, f), Recheck(thread), ReadMesh(thread),
                          InsertRuntime(thread)];
            && Legal(s, steps)
            && Exec(s, steps).runtimes == s.runtimes[p := |s.objects|]
            && Exec(s, steps).objects == s.objects + [Runtime(f, s.cell)]
            && Exec(s, steps).fps == s.fps[p := f]
            && Exec(s, steps).answers == s.answers + [Return(p, |s.objects|, Evictions(s, p))]
            && Exec(s, steps).calls == s.calls && Exec(s, steps).lock.None?
  {
    hide Inv, Legal, Exec, Enabled, Apply;
    var rest := [ReadMesh(thread), InsertRuntime(thread)];
    LockedInserts(s, thread, p, f);
    MissLocks(s, thread, p, f, rest, CachedState(s, p, f));
    assert [Lookup(thread, p), Build(thread, f), Recheck(thread)] + rest
           == [Lookup(thread, p), Build(thread, f), Recheck(thread), ReadMesh(thread), InsertRuntime(thread)];
  }

  /** Past the second check. */
  function LockedState(s: Sys, thread: nat, p: string, f: string): Sys {
    s.(objects := s.objects + [Runtime(f, None)], calls := s.calls[thread := Locked(p, |s.objects|)],
       lock := Some(thread))
  }

  function CachedState(s: Sys, p: string, f: string): Sys {
    s.(objects := s.objects + [Runtime(f, s.cell)], runtimes := s.runtimes[p := |s.objects|], fps := s.fps[p := f],
       lock := None, answers := s.answers + [Return(p, |s.objects|, Evictions(s, p))])
  }

  lemma MissLocks(s: Sys, thread: nat, p: string, f: string, rest: seq<Step>, end: Sys)
    requires s.lock.None? && thread !in s.calls && p !in s.runtimes
    requires var c := LockedState(s, thread, p, f); Legal(c, rest) && Exec(c, rest) == end
    ensures var steps := [Lookup(thread, p), Build(thread, f), Recheck(thread)] + rest;
            Legal(s, steps) && Exec(s, steps) == end
  {
    hide Legal, Exec, SetMeshes, Evicted, Retained, RetainedFps, Returned;
    var a := s.(calls := s.calls[thread := Missed(p)]);
    var b := s.(objects := s.objects + [Runtime(f, None)], calls := s.calls[thread := Built(p, |s.objects|)]);
    var c := LockedState(s, thread, p, f);
    assert Apply(s, Lookup(thread, p)) == a && Apply(a, Build(thread, f)) == b && Apply(b, Recheck(thread)) == c;
    hide Apply;
    Then(b, Recheck(thread), rest, end);
    Then(a, Build(thread, f), [Recheck(thread)] + rest, end);
    Then(s, Lookup(thread, p), [Build(thread, f)] + ([Recheck(thread)] + rest), end);
    assert [Lookup(thread, p)] + ([Build(thread, f)] + ([Recheck(thread)] + rest))
           == [Lookup(thread, p), Build(thread, f), Recheck(thread)] + rest;
  }

  lemma LockedInserts(s: Sys, thread: nat, p: string, f: string)
    requires thread !in s.calls
    ensures var c, steps := LockedState(s, thread, p, f), [ReadMesh(thread), InsertRuntime(thread)];
            Legal(c, steps) && Exec(c, steps) == CachedState(s, p, f)
  {
    hide Legal, Exec, SetMeshes, Evicted, Retained, RetainedFps;
    var c, e := LockedState(s, thread, p, f), CachedState(s, p, f);
    var d := Apply(c, ReadMesh(thread));
    assert d.objects == s.objects + [Runtime(f, s.cell)] && d.calls == s.calls[thread := MeshRead(p, |s.objects|)];
    assert d.calls - {thread} == s.calls;
    assert Apply(d, InsertRuntime(thread)) == e;
    hide Apply;
    Nothing(e);
    Then(d, InsertRuntime(thread), [], e);
    assert [InsertRuntime(thread)] + [] == [InsertRuntime(thread)];
    Then(c, ReadMesh(thread), [InsertRuntime(thread)], e);
    assert [ReadMesh(thread)] + [InsertRuntime(thread)] == [ReadMesh(thread), InsertRuntime(thread)];
  }

  lemma Nothing(s: Sys)
    ensures Legal(s, []) && Exec(s, []) == s
  {
  }

  lemma Then(s: Sys, step: Step, rest: seq<Step>, end: Sys)
    requires Enabled(s, step) && Legal(Apply(s, step), rest) && Exec(Apply(s, step), rest) == end
    ensures Legal(s, [step] + rest) && Exec(s, [step] + rest) == end
  {
    assert ([step] + rest)[1..] == rest;
  }
}
