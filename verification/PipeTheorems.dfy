/** What descriptor ownership amounts to over whole runs. */
module PipeTheorems {
  import opened Prelude
  import opened PipeRegistry
  import opened PipeProtocol

  // ----- removing a whole agent is a sequence of removals -----

  function Without(s: Sys, order: seq<Key>): Sys { s.(table := RemovedAll(s.table, order)) }

  lemma {:induction false} WithoutUnfolds(s: Sys, order: seq<Key>)
    requires order != []
    ensures Without(s, order) == Remove(Without(s, order[..|order| - 1]), order[|order| - 1])
    ensures Enabled(Without(s, order[..|order| - 1]), Unregister(order[|order| - 1]))
  {
  }

  lemma {:induction false} WithoutKeeps(s: Sys, order: seq<Key>)
    requires Inv(s)
    ensures Inv(Without(s, order))
  {
    if order != [] {
      var front, last := order[..|order| - 1], order[|order| - 1];
      WithoutKeeps(s, front);
      WithoutUnfolds(s, order);
      hide Inv, RemovedAll;
      SimpleKeeps(Without(s, front), Unregister(last));
    } else {
      assert Without(s, order) == s;
    }
  }

  lemma StepKeeps(s: Sys, step: Step)
    requires Inv(s) && Enabled(s, step)
    ensures Inv(Apply(s, step))
  {
    if step.UnregisterAll? {
      WithoutKeeps(s, step.order);
    } else {
      SimpleKeeps(s, step);
    }
  }

  lemma {:induction false} RunKeeps(s: Sys, steps: seq<Step>)
    requires Inv(s) && Legal(s, steps)
    ensures Inv(Exec(s, steps))
    decreases |steps|
  {
    hide Inv, Enabled, Apply;
    if steps != [] {
      StepKeeps(s, steps[0]);
      RunKeeps(Apply(s, steps[0]), steps[1..]);
    }
  }

  /**
   On every run a descriptor has at most one owner, meets at most one handshake and is closed at
   most once, then ownerless.
   */
  lemma OwnershipIsLinear(steps: seq<Step>, fd: Fd)
    requires Legal(INITIAL, steps)
    ensures var s := Exec(INITIAL, steps);
            && (forall p, q :: At(s, p) == Some(fd) && At(s, q) == Some(fd) ==> p == q)
            && s.handed[fd] <= 1 && s.table.closes[fd] <= 1
            && !(fd in s.table.closes && Owned(s, fd))
            && (fd in s.handed ==> forall p :: At(s, p) == Some(fd) ==> p.spot.InHandshake? || p.spot.InConnection?)
  {
    InitialInv();
    RunKeeps(INITIAL, steps);
  }

  // ----- leaks -----

  /**
   The step drops no server that is connected and still holds descriptors, and no collection with
   descriptors pending.
   */
  ghost predicate Clean(s: Sys, step: Step)
    requires Enabled(s, step)
  {
    match step
    case Insert(t) => s.openings[t].key in s.table.regs ==> CleanServer(s.table.regs[s.openings[t].key])
    case Unregister(key) => key in s.table.regs ==> CleanServer(s.table.regs[key])
    case DropCollection(c) => s.collections[c].pending == map[]
    case UnregisterAll(agent, order) =>
      forall k :: k in s.table.regs && k.agent == agent ==> CleanServer(s.table.regs[k])
    case _ => true
  }

  predicate CleanServer(server: Server) { server.connected.Some? ==> server.read.None? && server.write.None? }

  ghost predicate CleanRun(s: Sys, steps: seq<Step>)
    requires Legal(s, steps)
    decreases |steps|
  {
    steps == [] || (Clean(s, steps[0]) && CleanRun(Apply(s, steps[0]), steps[1..]))
  }

  ghost predicate NoLeak(s: Sys) { forall fd :: !Leaked(s, fd) }

  lemma OwnedElsewhere(s: Sys, step: Step, fd: Fd)
    requires Enabled(s, step) && Simple(step) && Inv(s) && Owned(s, fd)
    ensures || Owned(Apply(s, step), fd) || fd in Apply(s, step).table.closes
            || exists spot :: Forgets(s, step, spot) && fd in Contents(s, spot)
  {
    var p :| At(s, p) == Some(fd);
    ClosesAreReleased(s, step);
    var here := Contents(s, p.spot);
    assert fd in here by {
      hide At;
      assert p == Place(p.spot, false) || p == Place(p.spot, true);
    }
    hide Apply, Enabled, Contents, Vacated, Forgets;
    if Vacated(s, step) != Some(p.spot) && !Forgets(s, step, p.spot) {
      OthersStay(s, step, p);
    } else if Vacated(s, step) == Some(p.spot) && !step.OpenFails? {
      assert fd in Released(s, step);
    } else if step.OpenFails? {
      NothingVacated(s, step, p.spot);
    }
  }

  lemma NothingVacated(s: Sys, step: Step, spot: Spot)
    requires Enabled(s, step) && step.OpenFails?
    ensures Vacated(s, step).None? && !Forgets(s, step, spot)
  {
  }

  lemma NewIsOwned(s: Sys, step: Step, fd: Fd)
    requires Enabled(s, step) && Simple(step) && s.created <= fd < Apply(s, step).created
    ensures Owned(Apply(s, step), fd) || fd in Apply(s, step).table.closes
  {
    if step.OpenPipes? {
      NewAt(s, step, false);
      NewAt(s, step, true);
      var p, q := Place(InOpening(step.thread), false), Place(InOpening(step.thread), true);
      assert At(Apply(s, step), p) == Some(fd) || At(Apply(s, step), q) == Some(fd);
    } else {
      ClosesAreReleased(s, step);
    }
  }

  /** A clean step leaks nothing. */
  lemma CleanStepLeaksNothing(s: Sys, step: Step)
    requires Enabled(s, step) && Simple(step) && Inv(s) && NoLeak(s) && Clean(s, step)
    ensures NoLeak(Apply(s, step))
  {
    var s' := Apply(s, step);
    ClosesAreReleased(s, step);
    HandsOut(s, step);
    forall spot | Forgets(s, step, spot)
      ensures Contents(s, spot) == multiset{}
    {
      CleanForgetsNothing(s, step, spot);
    }
    hide Apply, Enabled, Clean, Contents, Released, Forgets;
    forall fd: Fd
      ensures !Leaked(s', fd)
    {
      assert !Leaked(s, fd);
      if fd < s.created && fd !in s.table.closes {
        OwnedElsewhere(s, step, fd);
      } else if s.created <= fd && fd < s'.created {
        NewIsOwned(s, step, fd);
      }
    }
  }

  lemma CleanForgetsNothing(s: Sys, step: Step, spot: Spot)
    requires Enabled(s, step) && Simple(step) && Clean(s, step) && Forgets(s, step, spot)
    ensures Contents(s, spot) == multiset{}
  {
  }

  /** A leak is for good. */
  lemma LeaksStay(s: Sys, step: Step, fd: Fd)
    requires Enabled(s, step) && Simple(step) && Inv(s) && Leaked(s, fd)
    ensures Leaked(Apply(s, step), fd)
  {
    var s' := Apply(s, step);
    ClosesAreReleased(s, step);
    HandsOut(s, step);
    if fd in Released(s, step) {
      var w := ReleasedIsOwned(s, step, fd);
      assert false;
    }
    if Owned(s', fd) {
      var p :| At(s', p) == Some(fd);
      if IsNew(step, p.spot) {
        NewAt(s, step, p.writing);
      } else {
        MovesFrom(s, step, p);
      }
      assert false;
    }
  }

  lemma UncleanForgets(s: Sys, step: Step) returns (spot: Spot)
    requires Enabled(s, step) && Simple(step) && BothOrNone(s) && !Clean(s, step)
    ensures Forgets(s, step, spot) && At(s, Place(spot, false)).Some?
    ensures Vacated(s, step) != Some(spot) && !step.OpenPipes? && !step.OpenFails?
  {
    if step.DropCollection? {
      var name :| name in s.collections[step.collection].pending;
      spot := InPending(step.collection, name);
    } else {
      spot := InSlots(Dropped(s, step).value);
    }
  }

  /** What an unclean step forgets is leaked. */
  lemma UncleanStepLeaks(s: Sys, step: Step) returns (fd: Fd)
    requires Enabled(s, step) && Simple(step) && Inv(s) && !Clean(s, step)
    ensures Leaked(Apply(s, step), fd)
  {
    var s' := Apply(s, step);
    var spot := UncleanForgets(s, step);
    fd := At(s, Place(spot, false)).value;
    ClosesAreReleased(s, step);
    HandsOut(s, step);
    hide Apply, Enabled, Clean, At, Vacated, Forgets, Released, BothOrNone, NotYetHanded, HandedOnce;
    if fd in Released(s, step) {
      var w := ReleasedIsOwned(s, step, fd);
      assert false;
    }
    if Owned(s', fd) {
      var p :| At(s', p) == Some(fd);
      MovesFrom(s, step, p);
      VacatedIsNoOrigin(s, step, spot, p);
      assert false;
    }
  }

  lemma {:induction false} WithoutRegs(s: Sys, order: seq<Key>)
    ensures forall k :: k in Without(s, order).table.regs <==> k in s.table.regs && k !in order
    ensures forall k :: k in Without(s, order).table.regs ==> Without(s, order).table.regs[k] == s.table.regs[k]
  {
    if order != [] {
      var front, last := order[..|order| - 1], order[|order| - 1];
      assert order == front + [last];
      WithoutUnfolds(s, order);
      WithoutRegs(s, front);
    }
  }

  ghost predicate CleanKeys(s: Sys, order: seq<Key>) {
    forall k :: k in order && k in s.table.regs ==> CleanServer(s.table.regs[k])
  }

  lemma LastClean(s: Sys, order: seq<Key>)
    requires order != [] && (forall i, j :: 0 <= i < j < |order| ==> order[i] != order[j])
    ensures var front, last := order[..|order| - 1], order[|order| - 1];
            && (CleanKeys(s, order) <==> CleanKeys(s, front) && Clean(Without(s, front), Unregister(last)))
  {
    var front, last := order[..|order| - 1], order[|order| - 1];
    assert order == front + [last] && last !in front;
    WithoutRegs(s, front);
  }

  lemma {:induction false} WithoutLeaks(s: Sys, order: seq<Key>)
    requires Inv(s) && (forall i, j :: 0 <= i < j < |order| ==> order[i] != order[j])
    ensures NoLeak(s) && CleanKeys(s, order) ==> NoLeak(Without(s, order))
    ensures !CleanKeys(s, order) ==> !NoLeak(Without(s, order))
    ensures forall fd :: Leaked(s, fd) ==> Leaked(Without(s, order), fd)
  {
    if order == [] {
      assert Without(s, order) == s;
    } else {
      var front, last := order[..|order| - 1], order[|order| - 1];
      WithoutLeaks(s, front);
      WithoutKeeps(s, front);
      WithoutUnfolds(s, order);
      LastClean(s, order);
      assert Without(s, order) == Apply(Without(s, front), Unregister(last));
      hide Inv, Leaked, Clean, CleanKeys, Without, Apply;
      StepLeaks(Without(s, front), Unregister(last));
    }
  }

  lemma StepLeaks(s: Sys, step: Step)
    requires Enabled(s, step) && Simple(step) && Inv(s)
    ensures NoLeak(s) && Clean(s, step) ==> NoLeak(Apply(s, step))
    ensures !Clean(s, step) ==> !NoLeak(Apply(s, step))
    ensures forall fd :: Leaked(s, fd) ==> Leaked(Apply(s, step), fd)
  {
    hide Inv, Leaked, Clean, Apply, Enabled;
    if NoLeak(s) && Clean(s, step) {
      CleanStepLeaksNothing(s, step);
    }
    if !Clean(s, step) {
      var fd := UncleanStepLeaks(s, step);
    }
    forall fd: Fd | Leaked(s, fd)
      ensures Leaked(Apply(s, step), fd)
    {
      LeaksStay(s, step, fd);
    }
  }

  lemma AnyStepLeaks(s: Sys, step: Step)
    requires Enabled(s, step) && Inv(s)
    ensures NoLeak(s) && Clean(s, step) ==> NoLeak(Apply(s, step))
    ensures !Clean(s, step) ==> !NoLeak(Apply(s, step))
    ensures forall fd :: Leaked(s, fd) ==> Leaked(Apply(s, step), fd)
  {
    if step.UnregisterAll? {
      assert Clean(s, step) <==> CleanKeys(s, step.order);
      hide Inv, Leaked, CleanKeys;
      WithoutLeaks(s, step.order);
    } else {
      hide Inv, Leaked, Clean, Apply, Enabled;
      StepLeaks(s, step);
    }
  }

  lemma {:induction false} RunLeaks(s: Sys, steps: seq<Step>)
    requires Inv(s) && Legal(s, steps)
    ensures NoLeak(s) && CleanRun(s, steps) ==> NoLeak(Exec(s, steps))
    ensures !CleanRun(s, steps) ==> !NoLeak(Exec(s, steps))
    ensures forall fd :: Leaked(s, fd) ==> Leaked(Exec(s, steps), fd)
    decreases |steps|
  {
    hide Inv, Leaked, Clean, Apply, Enabled;
    if steps != [] {
      AnyStepLeaks(s, steps[0]);
      StepKeeps(s, steps[0]);
      RunLeaks(Apply(s, steps[0]), steps[1..]);
    }
  }

  /**
   A run leaks no descriptor exactly when it drops no connected server that still holds
   descriptors and no collection with some pending.
   */
  lemma LeakFreeExactly(steps: seq<Step>)
    requires Legal(INITIAL, steps)
    ensures NoLeak(Exec(INITIAL, steps)) <==> CleanRun(INITIAL, steps)
  {
    InitialInv();
    RunLeaks(INITIAL, steps);
  }

  /** Dropping a collection with descriptors pending leaks them. */
  lemma DroppedCollectionLeaks(steps: seq<Step>, c: nat) returns (fd: Fd)
    requires Legal(INITIAL, steps) && c in Exec(INITIAL, steps).collections
        && Exec(INITIAL, steps).collections[c].pending != map[]
    ensures Leaked(Apply(Exec(INITIAL, steps), DropCollection(c)), fd)
  {
    InitialInv();
    RunKeeps(INITIAL, steps);
    fd := UncleanStepLeaks(Exec(INITIAL, steps), DropCollection(c));
  }

  // ----- no name is registered again during its own handshake -----

  /** A descriptor pair of this name is on its way through a collection. */
  ghost predicate InFlight(s: Sys, key: Key) {
    exists c :: c in s.collections && s.collections[c].agent == key.agent && InCollection(s.collections[c], key.name)
  }

  predicate InCollection(col: Collection, name: string) {
    name in col.pending || (col.current.Some? && col.current.value.name == name)
  }

  ghost predicate Calm(s: Sys, step: Step)
    requires Enabled(s, step)
  {
    && (step.Insert? ==> !InFlight(s, s.openings[step.thread].key))
    && (step.DropCollection? ==> s.collections[step.collection].pending == map[])
  }

  ghost predicate CalmRun(s: Sys, steps: seq<Step>)
    requires Legal(s, steps)
    decreases |steps|
  {
    steps == [] || (Calm(s, steps[0]) && CalmRun(Apply(s, steps[0]), steps[1..]))
  }

  /** A registration that is connected, or on its way there, holds no descriptors of its own. */
  ghost predicate Settled(s: Sys) {
    forall k :: k in s.table.regs && (s.table.regs[k].connected.Some? || InFlight(s, k)) ==>
      s.table.regs[k].read.None? && s.table.regs[k].write.None?
  }

  /** A step takes off at most what it took from the slots of an unconnected registration. */
  lemma FlightsFrom(s: Sys, step: Step, key: Key)
    requires Enabled(s, step) && InFlight(Apply(s, step), key)
    ensures InFlight(s, key)
        || (step.TakeAll? && key in s.table.regs && key.agent == step.agent && Takable(s.table.regs[key]))
  {
    var s' := Apply(s, step);
    var c :| c in s'.collections && s'.collections[c].agent == key.agent && InCollection(s'.collections[c], key.name);
    hide TakenRegs, IsOrder, RemovedAll, Removed, Inserted, Stored;
    if step.TakeAll? && c == step.collection {
      assert Key(step.agent, key.name) == key;
    } else {
      assert c in s.collections && s.collections[c].agent == key.agent && InCollection(s.collections[c], key.name);
    }
  }

  lemma SettledKept(s: Sys, step: Step)
    requires Enabled(s, step) && Settled(s) && BothOrNone(s) && Calm(s, step)
    ensures Settled(Apply(s, step)) && Clean(s, step)
  {
    var s' := Apply(s, step);
    if step.UnregisterAll? {
      WithoutRegs(s, step.order);
    }
    hide IsOrder, RemovedAll;
    forall k | k in s'.table.regs && (s'.table.regs[k].connected.Some? || InFlight(s', k))
      ensures s'.table.regs[k].read.None? && s'.table.regs[k].write.None?
    {
      SlotsStayEmpty(s, step, k);
    }
  }

  /** What holds of the slots of one registration after a step. */
  predicate EmptySlots(s: Sys, k: Key)
    requires k in s.table.regs
  {
    s.table.regs[k].read.None? && s.table.regs[k].write.None?
  }

  lemma StoreKeepsEmpty(s: Sys, step: Step, k: Key)
    requires Enabled(s, step) && step.Store? && Settled(s)
    requires k in Apply(s, step).table.regs
        && (Apply(s, step).table.regs[k].connected.Some? || InFlight(Apply(s, step), k))
    ensures EmptySlots(Apply(s, step), k)
  {
    var s', key := Apply(s, step), HandshakeKey(s, step.collection);
    if InFlight(s', k) {
      FlightsFrom(s, step, k);
    }
    assert InCollection(s.collections[step.collection], key.name);
    assert InFlight(s, key);
    hide InFlight;
  }

  lemma RemovalKeepsEmpty(s: Sys, step: Step, k: Key)
    requires Enabled(s, step) && (step.Unregister? || step.UnregisterAll?) && Settled(s)
    requires k in Apply(s, step).table.regs
        && (Apply(s, step).table.regs[k].connected.Some? || InFlight(Apply(s, step), k))
    ensures EmptySlots(Apply(s, step), k)
  {
    if InFlight(Apply(s, step), k) {
      FlightsFrom(s, step, k);
    }
    if step.UnregisterAll? {
      WithoutRegs(s, step.order);
    }
    hide InFlight, IsOrder, RemovedAll;
  }

  lemma SlotsStayEmpty(s: Sys, step: Step, k: Key)
    requires Enabled(s, step) && Settled(s) && BothOrNone(s) && Calm(s, step)
    requires k in Apply(s, step).table.regs
        && (Apply(s, step).table.regs[k].connected.Some? || InFlight(Apply(s, step), k))
    ensures EmptySlots(Apply(s, step), k)
  {
    if step.Store? {
      StoreKeepsEmpty(s, step, k);
    } else if step.Unregister? || step.UnregisterAll? {
      RemovalKeepsEmpty(s, step, k);
    } else {
      if InFlight(Apply(s, step), k) {
        FlightsFrom(s, step, k);
      }
      hide InFlight, IsOrder, RemovedAll, Stored, Removed, DropCloses;
    }
  }

  lemma {:induction false} CalmRunIsClean(s: Sys, steps: seq<Step>)
    requires Inv(s) && Settled(s) && Legal(s, steps) && CalmRun(s, steps)
    ensures CleanRun(s, steps)
    decreases |steps|
  {
    hide Settled, Clean, Calm, Apply, Enabled;
    if steps != [] {
      SettledKept(s, steps[0]);
      StepKeeps(s, steps[0]);
      CalmRunIsClean(Apply(s, steps[0]), steps[1..]);
    }
  }

  /**
   On runs where no name is registered again during its own handshake and no collection is dropped
   with descriptors pending, nothing leaks: what was created is owned or was closed.
   */
  lemma CalmRunsLeakNothing(steps: seq<Step>, fd: Fd)
    requires Legal(INITIAL, steps) && CalmRun(INITIAL, steps)
    ensures var s := Exec(INITIAL, steps);
            fd < s.created ==> (Owned(s, fd) <==> fd !in s.table.closes)
  {
    InitialInv();
    CalmRunIsClean(INITIAL, steps);
    LeakFreeExactly(steps);
    OwnershipIsLinear(steps, fd);
    assert !Leaked(Exec(INITIAL, steps), fd);
  }

  // ----- a name registered again during its own handshake -----

  const KEY := Key(1, "tools")
  const OLD := Ends(0, 1)
  const NEW := Ends(2, 3)

  /**
   Removed and registered again while the first connection is being made; the connection is
   stored over the new server.
   */
  const REREGISTERED: seq<Step> := [
    OpenPipes(0, KEY), CheckDuplicate(0), Insert(0), TakeAll(0, 1), StartHandshake(0, "tools"), Unregister(KEY),
    OpenPipes(1, KEY), CheckDuplicate(1), Insert(1), HandshakeSucceeds(0), Store(0), Unregister(KEY)]

  const OPEN_OLD := Server(Some(0), Some(1), None)
  const TAKEN := Server(None, None, None)
  const OPEN_NEW := Server(Some(2), Some(3), None)

  function Taking(pending: map<string, Ends>, current: Option<Handshake>): map<nat, Collection> {
    map[0 := Collection(1, pending, current)]
  }

  /** The states of that run. */
  const RUN: seq<Sys> := [
    INITIAL,
    Sys(Table(map[], multiset{}), map[0 := Opening(KEY, OLD, false)], map[], 2, multiset{}),
    Sys(Table(map[], multiset{}), map[0 := Opening(KEY, OLD, true)], map[], 2, multiset{}),
    Sys(Table(map[KEY := OPEN_OLD], multiset{}), map[], map[], 2, multiset{}),
    Sys(Table(map[KEY := TAKEN], multiset{}), map[], Taking(map["tools" := OLD], None), 2, multiset{}),
    Sys(Table(map[KEY := TAKEN], multiset{}), map[], Taking(map[], Some(Handshake("tools", OLD, false))), 2,
        multiset{0, 1}),
    Sys(Table(map[], multiset{}), map[], Taking(map[], Some(Handshake("tools", OLD, false))), 2, multiset{0, 1}),
    Sys(Table(map[], multiset{}), map[1 := Opening(KEY, NEW, false)],
        Taking(map[], Some(Handshake("tools", OLD, false))), 4, multiset{0, 1}),
    Sys(Table(map[], multiset{}), map[1 := Opening(KEY, NEW, true)],
        Taking(map[], Some(Handshake("tools", OLD, false))), 4, multiset{0, 1}),
    Sys(Table(map[KEY := OPEN_NEW], multiset{}), map[], Taking(map[], Some(Handshake("tools", OLD, false))), 4,
        multiset{0, 1}),
    Sys(Table(map[KEY := OPEN_NEW], multiset{}), map[], Taking(map[], Some(Handshake("tools", OLD, true))), 4,
        multiset{0, 1}),
    Sys(Table(map[KEY := OPEN_NEW.(connected := Some(OLD))], multiset{}), map[], Taking(map[], None), 4,
        multiset{0, 1}),
    Sys(Table(map[], multiset{0, 1}), map[], Taking(map[], None), 4, multiset{0, 1})]

  ghost predicate Leads(s: Sys, step: Step, t: Sys) { Enabled(s, step) && Apply(s, step) == t }

  lemma Registers()
    ensures Leads(RUN[0], REREGISTERED[0], RUN[1]) && Leads(RUN[1], REREGISTERED[1], RUN[2])
    ensures Leads(RUN[2], REREGISTERED[2], RUN[3])
  {
    assert Apply(RUN[1], REREGISTERED[1]).openings == RUN[2].openings;
    assert Apply(RUN[2], REREGISTERED[2]).openings == RUN[3].openings;
    assert Apply(RUN[2], REREGISTERED[2]).table == RUN[3].table;
  }

  lemma OldEndsTaken()
    ensures TakenEnds(map[KEY := OPEN_OLD], 1) == map["tools" := OLD]
    ensures TakenRegs(map[KEY := OPEN_OLD], 1) == map[KEY := TAKEN]
  {
    var regs := map[KEY := OPEN_OLD];
    assert KEY in regs && KEY.name in TakenEnds(regs, 1);
    assert forall k :: k in regs ==> k == KEY;
  }

  lemma Takes()
    ensures Leads(RUN[3], REREGISTERED[3], RUN[4])
  {
    OldEndsTaken();
    hide TakenEnds, TakenRegs;
    var s := Sys(Table(map[KEY := OPEN_OLD], multiset{}), map[], map[], 2, multiset{});
    assert RUN[3] == s;
    assert s.collections[0 := Collection(1, map["tools" := OLD], None)] == Taking(map["tools" := OLD], None);
  }

  lemma StartsHandshake()
    ensures Leads(RUN[4], REREGISTERED[4], RUN[5])
  {
    assert map["tools" := OLD] - {"tools"} == map[];
    assert Taking(map["tools" := OLD], None)[0 := Collection(1, map[], Some(Handshake("tools", OLD, false)))]
           == Taking(map[], Some(Handshake("tools", OLD, false)));
  }

  lemma RegistersAgain()
    ensures Leads(RUN[5], REREGISTERED[5], RUN[6]) && Leads(RUN[6], REREGISTERED[6], RUN[7])
    ensures Leads(RUN[7], REREGISTERED[7], RUN[8]) && Leads(RUN[8], REREGISTERED[8], RUN[9])
  {
    assert Apply(RUN[5], REREGISTERED[5]).table.regs == RUN[6].table.regs;
    assert Apply(RUN[7], REREGISTERED[7]).openings == RUN[8].openings;
    assert Apply(RUN[8], REREGISTERED[8]).openings == RUN[9].openings;
  }

  lemma StoresOver()
    ensures Leads(RUN[9], REREGISTERED[9], RUN[10]) && Leads(RUN[10], REREGISTERED[10], RUN[11])
    ensures Leads(RUN[11], REREGISTERED[11], RUN[12])
  {
    assert Apply(RUN[10], REREGISTERED[10]).collections == RUN[11].collections;
    assert Apply(RUN[11], REREGISTERED[11]).table.regs == RUN[12].table.regs;
    assert Apply(RUN[11], REREGISTERED[11]).table.closes == RUN[12].table.closes;
  }

  lemma {:induction false} Follow(states: seq<Sys>, steps: seq<Step>)
    requires |states| == |steps| + 1
    requires forall i :: 0 <= i < |steps| ==> Leads(states[i], steps[i], states[i + 1])
    ensures Legal(states[0], steps) && Exec(states[0], steps) == states[|steps|]
    decreases |steps|
  {
    if steps != [] {
      assert Leads(states[0], steps[0], states[1]);
      forall i | 0 <= i < |steps[1..]|
        ensures Leads(states[1..][i], steps[1..][i], states[1..][i + 1])
      {
        assert Leads(states[i + 1], steps[i + 1], states[i + 1 + 1]);
      }
      hide Enabled, Apply;
      Follow(states[1..], steps[1..]);
    }
  }

  /** That run is legal and leaks the second pair: the limit of `CalmRunsLeakNothing` is real. */
  lemma ReregisteredNameLeaks()
    ensures Legal(INITIAL, REREGISTERED)
    ensures Leaked(Exec(INITIAL, REREGISTERED), NEW.read) && Leaked(Exec(INITIAL, REREGISTERED), NEW.write)
  {
    Registers();
    Takes();
    StartsHandshake();
    RegistersAgain();
    StoresOver();
    hide Leads;
    Follow(RUN, REREGISTERED);
    assert Exec(INITIAL, REREGISTERED) == RUN[12];
    EndLeaks();
  }

  lemma EndLeaks()
    ensures Leaked(RUN[12], NEW.read) && Leaked(RUN[12], NEW.write)
  {
    forall p
      ensures At(RUN[12], p).None?
    {
    }
  }
}
