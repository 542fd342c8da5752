/**
 Descriptor ownership over every interleaving of registrations, collections, handshakes and removals.

 Each step is one lock region or one action outside the lock. A collection handshakes its pending
 servers one at a time, in any order.
 */
module PipeProtocol {
  import opened Prelude
  import opened PipeRegistry

  /** A registration between creating its pipes and inserting itself. */
  datatype Opening = Opening(key: Key, ends: Ends, checked: bool)

  datatype Handshake = Handshake(name: string, ends: Ends, succeeded: bool)

  /** A running `collect_connected_mcp_peers`. */
  datatype Collection = Collection(agent: nat, pending: map<string, Ends>, current: Option<Handshake>)

  /** `created` descriptors exist, numbered from 0; `handed` records each descriptor given to a handshake. */
  datatype Sys = Sys(table: Table, openings: map<nat, Opening>, collections: map<nat, Collection>, created: Fd,
      handed: multiset<Fd>)

  datatype Step =
    | OpenPipes(thread: nat, key: Key)
    | OpenFails
    | CheckDuplicate(thread: nat)
    | Insert(thread: nat)
    | TakeAll(collection: nat, agent: nat)
    | StartHandshake(collection: nat, name: string)
    | HandshakeFails(collection: nat)
    | HandshakeSucceeds(collection: nat)
    | Store(collection: nat)
    | DropCollection(collection: nat)
    | Unregister(key: Key)
    | UnregisterAll(agent: nat, order: seq<Key>)

  const INITIAL := Sys(Table(map[], multiset{}), map[], map[], 0, multiset{})

  ghost predicate Enabled(s: Sys, step: Step) {
    match step
    case OpenPipes(t, key) => t !in s.openings
    case OpenFails => true
    case CheckDuplicate(t) => t in s.openings && !s.openings[t].checked
    case Insert(t) => t in s.openings && s.openings[t].checked
    case TakeAll(c, agent) => c !in s.collections
    case StartHandshake(c, name) => c in s.collections && s.collections[c].current.None?
        && name in s.collections[c].pending
    case HandshakeFails(c) => c in s.collections && s.collections[c].current.Some?
        && !s.collections[c].current.value.succeeded
    case HandshakeSucceeds(c) => c in s.collections && s.collections[c].current.Some?
        && !s.collections[c].current.value.succeeded
    case Store(c) => c in s.collections && s.collections[c].current.Some? && s.collections[c].current.value.succeeded
    case DropCollection(c) => c in s.collections
    case Unregister(key) => true
    case UnregisterAll(agent, order) => IsOrder(s.table.regs, agent, order)
  }

  function Close(s: Sys, fds: multiset<Fd>): Sys { s.(table := s.table.(closes := s.table.closes + fds)) }

  ghost function Apply(s: Sys, step: Step): Sys
    requires Enabled(s, step)
  {
    match step
    case OpenPipes(t, key) =>
      s.(openings := s.openings[t := Opening(key, Ends(s.created, s.created + 1), false)], created := s.created + 2)
    case OpenFails =>
      // the second pipe could not be made: the ends of the first are closed
      Close(s, multiset{s.created}).(created := s.created + 1)
    case CheckDuplicate(t) =>
      var o := s.openings[t];
      if o.key in s.table.regs then Close(s, o.ends.Both()).(openings := s.openings - {t})
      else s.(openings := s.openings[t := o.(checked := true)])
    case Insert(t) =>
      var o := s.openings[t];
      s.(table := Inserted(s.table, o.key, o.ends), openings := s.openings - {t})
    case TakeAll(c, agent) =>
      s.(table := s.table.(regs := TakenRegs(s.table.regs, agent)),
         collections := s.collections[c := Collection(agent, TakenEnds(s.table.regs, agent), None)])
    case StartHandshake(c, name) =>
      var col := s.collections[c];
      s.(collections := s.collections[c := Collection(col.agent, col.pending - {name},
          Some(Handshake(name, col.pending[name], false)))],
         handed := s.handed + col.pending[name].Both())
    case HandshakeFails(c) =>
      var col := s.collections[c];
      Close(s, col.current.value.ends.Both()).(collections := s.collections[c := col.(current := None)])
    case HandshakeSucceeds(c) =>
      var col := s.collections[c];
      s.(collections := s.collections[c := col.(current := Some(col.current.value.(succeeded := true)))])
    case Store(c) =>
      var col := s.collections[c];
      s.(table := Stored(s.table, Key(col.agent, col.current.value.name), col.current.value.ends),
         collections := s.collections[c := col.(current := None)])
    case DropCollection(c) =>
      // the handshake owns its descriptors; those still pending are plain numbers and are forgotten
      var current := s.collections[c].current;
      Close(s, if current.Some? then current.value.ends.Both() else multiset{}).(collections := s.collections - {c})
    case Unregister(key) => Remove(s, key)
    case UnregisterAll(agent, order) => s.(table := RemovedAll(s.table, order))
  }

  function Remove(s: Sys, key: Key): Sys { s.(table := Removed(s.table, key)) }

  ghost predicate Legal(s: Sys, steps: seq<Step>)
    decreases |steps|
  {
    steps == [] || (Enabled(s, steps[0]) && Legal(Apply(s, steps[0]), steps[1..]))
  }

  ghost function Exec(s: Sys, steps: seq<Step>): Sys
    requires Legal(s, steps)
    decreases |steps|
  {
    if steps == [] then s else Exec(Apply(s, steps[0]), steps[1..])
  }

  // ----- owners -----

  /** Where a pair of descriptors can be. */
  datatype Spot =
    | InOpening(thread: nat)
    | InSlots(key: Key)
    | InPending(collection: nat, name: string)
    | InHandshake(collection: nat)
    | InConnection(key: Key)

  /** One end of a pair. */
  datatype Place = Place(spot: Spot, writing: bool)

  function SideOf(ends: Ends, writing: bool): Option<Fd> { Some(if writing then ends.write else ends.read) }

  function At(s: Sys, p: Place): Option<Fd> {
    match p.spot
    case InOpening(t) => if t in s.openings then SideOf(s.openings[t].ends, p.writing) else None
    case InSlots(k) => if k in s.table.regs
        then (if p.writing then s.table.regs[k].write else s.table.regs[k].read) else None
    case InPending(c, n) =>
      if c in s.collections && n in s.collections[c].pending
          then SideOf(s.collections[c].pending[n], p.writing) else None
    case InHandshake(c) =>
      if c in s.collections && s.collections[c].current.Some?
          then SideOf(s.collections[c].current.value.ends, p.writing) else None
    case InConnection(k) =>
      if k in s.table.regs && s.table.regs[k].connected.Some?
          then SideOf(s.table.regs[k].connected.value, p.writing) else None
  }

  function Contents(s: Sys, spot: Spot): multiset<Fd> { One(At(s, Place(spot, false))) + One(At(s, Place(spot, true))) }

  ghost predicate Owned(s: Sys, fd: Fd) { exists p :: At(s, p) == Some(fd) }

  ghost predicate Leaked(s: Sys, fd: Fd) { fd < s.created && fd !in s.table.closes && !Owned(s, fd) }

  ghost predicate OneOwner(s: Sys) {
    forall p, q :: At(s, p).Some? && At(s, p) == At(s, q) ==> p == q
  }

  /** Whatever has an owner was created and is open. */
  ghost predicate OwnedIsOpen(s: Sys) {
    forall p :: At(s, p).Some? ==> At(s, p).value < s.created && At(s, p).value !in s.table.closes
  }

  predicate BeforeHandshake(spot: Spot) { !spot.InHandshake? && !spot.InConnection? }

  ghost predicate NotYetHanded(s: Sys) {
    forall p :: At(s, p).Some? && BeforeHandshake(p.spot) ==> At(s, p).value !in s.handed
  }

  ghost predicate ClosedOnce(s: Sys) {
    forall fd :: s.table.closes[fd] <= 1 && (fd >= s.created ==> fd !in s.table.closes)
  }

  ghost predicate HandedOnce(s: Sys) {
    forall fd :: s.handed[fd] <= 1 && (fd >= s.created ==> fd !in s.handed)
  }

  predicate BothOrNone(s: Sys) {
    forall k :: k in s.table.regs ==> (s.table.regs[k].read.Some? <==> s.table.regs[k].write.Some?)
  }

  ghost predicate Inv(s: Sys) {
    OneOwner(s) && OwnedIsOpen(s) && NotYetHanded(s) && ClosedOnce(s) && HandedOnce(s) && BothOrNone(s)
  }

  lemma InitialInv()
    ensures Inv(INITIAL)
  {
  }

  // ----- how one step moves descriptors -----

  /** The steps that are not the removal of a whole agent, which is a sequence of removals. */
  predicate Simple(step: Step) { !step.UnregisterAll? }

  /** Where the pair now at `spot` was before the step. */
  ghost function Origin(s: Sys, step: Step, spot: Spot): Spot
    requires Enabled(s, step)
  {
    match step
    case Insert(t) => if spot == InSlots(s.openings[t].key) then InOpening(t) else spot
    case TakeAll(c, agent) => if spot.InPending? && spot.collection == c then InSlots(Key(agent, spot.name)) else spot
    case StartHandshake(c, name) => if spot == InHandshake(c) then InPending(c, name) else spot
    case Store(c) => if spot == InConnection(HandshakeKey(s, c)) then InHandshake(c) else spot
    case _ => spot
  }

  function HandshakeKey(s: Sys, c: nat): Key
    requires c in s.collections && s.collections[c].current.Some?
  {
    Key(s.collections[c].agent, s.collections[c].current.value.name)
  }

  /** Where the pair at `spot` goes in a step that neither closes nor forgets it. */
  ghost function Destination(s: Sys, step: Step, spot: Spot): Spot
    requires Enabled(s, step)
  {
    match step
    case Insert(t) => if spot == InOpening(t) then InSlots(s.openings[t].key) else spot
    case TakeAll(c, agent) =>
      if spot.InSlots? && spot.key.agent == agent && spot.key in s.table.regs && Takable(s.table.regs[spot.key])
      then InPending(c, spot.key.name) else spot
    case StartHandshake(c, name) => if spot == InPending(c, name) then InHandshake(c) else spot
    case Store(c) => if spot == InHandshake(c) then InConnection(HandshakeKey(s, c)) else spot
    case _ => spot
  }

  /** The key whose server a step drops. */
  ghost function Dropped(s: Sys, step: Step): Option<Key>
    requires Enabled(s, step)
  {
    match step
    case Insert(t) => if s.openings[t].key in s.table.regs then Some(s.openings[t].key) else None
    case Unregister(key) => if key in s.table.regs then Some(key) else None
    case _ => None
  }

  /** The spot whose pair a step closes. */
  ghost function Vacated(s: Sys, step: Step): Option<Spot>
    requires Enabled(s, step)
  {
    if step.CheckDuplicate?
        then (if s.openings[step.thread].key in s.table.regs then Some(InOpening(step.thread)) else None)
    else if step.HandshakeFails? then Some(InHandshake(step.collection))
    else if step.Store? then Some(StoreSpot(s, step.collection))
    else if step.DropCollection?
        then (if s.collections[step.collection].current.Some? then Some(InHandshake(step.collection)) else None)
    else if Dropped(s, step).Some? then Some(DropSpot(s, Dropped(s, step).value))
    else None
  }

  /** The spot whose pair a store closes: the connection it replaces, or its own when the registration is gone. */
  function StoreSpot(s: Sys, c: nat): Spot
    requires c in s.collections && s.collections[c].current.Some?
  {
    if HandshakeKey(s, c) in s.table.regs then InConnection(HandshakeKey(s, c)) else InHandshake(c)
  }

  /** The spot whose pair the drop of a server closes. */
  function DropSpot(s: Sys, key: Key): Spot
    requires key in s.table.regs
  {
    if s.table.regs[key].connected.Some? then InConnection(key) else InSlots(key)
  }

  /**
   The spots a step forgets: the slots of a server dropped while connected, the pending pairs of
   a dropped collection.
   */
  ghost predicate Forgets(s: Sys, step: Step, spot: Spot)
    requires Enabled(s, step)
  {
    || (step.DropCollection? && spot.InPending? && spot.collection == step.collection)
    || (spot.InSlots? && Dropped(s, step) == Some(spot.key) && s.table.regs[spot.key].connected.Some?)
  }

  ghost function Released(s: Sys, step: Step): multiset<Fd>
    requires Enabled(s, step)
  {
    if step.OpenFails? then multiset{s.created}
    else if Vacated(s, step).Some? then Contents(s, Vacated(s, step).value)
    else multiset{}
  }

  predicate IsNew(step: Step, spot: Spot) { step.OpenPipes? && spot == InOpening(step.thread) }

  lemma NewAt(s: Sys, step: Step, w: bool)
    requires Enabled(s, step) && step.OpenPipes?
    ensures At(Apply(s, step), Place(InOpening(step.thread), w)) == Some(if w then s.created + 1 else s.created)
  {
  }

  lemma TakeAllMovesFrom(s: Sys, step: Step, p: Place)
    requires Enabled(s, step) && step.TakeAll? && At(Apply(s, step), p).Some?
    ensures At(Apply(s, step), p) == At(s, Place(Origin(s, step, p.spot), p.writing))
  {
    if p.spot.InSlots? || p.spot.InConnection? {
      assert p.spot.key in s.table.regs;
    } else if p.spot.InPending? && p.spot.collection == step.collection {
      assert p.spot.name in TakenEnds(s.table.regs, step.agent);
    }
  }

  lemma InsertMovesFrom(s: Sys, step: Step, p: Place)
    requires Enabled(s, step) && step.Insert? && At(Apply(s, step), p).Some?
    ensures At(Apply(s, step), p) == At(s, Place(Origin(s, step, p.spot), p.writing))
  {
    hide DropCloses, TakenRegs, TakenEnds, Stored, Removed;
    assert Apply(s, step).collections == s.collections;
  }

  /** A store changes one handshake and at most one connection. */
  lemma StoreShape(s: Sys, step: Step)
    requires Enabled(s, step) && step.Store?
    ensures var s', c, key := Apply(s, step), step.collection, HandshakeKey(s, step.collection);
            && s'.openings == s.openings
            && s'.collections == s.collections[c := s.collections[c].(current := None)]
            && s'.table.regs == if key in s.table.regs
                                then
                                  var ends := s.collections[c].current.value.ends;
                                  s.table.regs[key := s.table.regs[key].(connected := Some(ends))]
                                else s.table.regs
  {
  }

  lemma StoreMovesFrom(s: Sys, step: Step, p: Place)
    requires Enabled(s, step) && step.Store? && At(Apply(s, step), p).Some?
    ensures At(Apply(s, step), p) == At(s, Place(Origin(s, step, p.spot), p.writing))
  {
    StoreShape(s, step);
    hide Apply;
  }

  lemma UnregisterMovesFrom(s: Sys, step: Step, p: Place)
    requires Enabled(s, step) && step.Unregister? && At(Apply(s, step), p).Some?
    ensures At(Apply(s, step), p) == At(s, Place(Origin(s, step, p.spot), p.writing))
  {
    hide DropCloses, TakenRegs, TakenEnds, Inserted, Stored;
    assert Apply(s, step).openings == s.openings && Apply(s, step).collections == s.collections;
  }

  lemma TableMovesFrom(s: Sys, step: Step, p: Place)
    requires Enabled(s, step) && (step.Insert? || step.Store? || step.Unregister?) && At(Apply(s, step), p).Some?
    ensures At(Apply(s, step), p) == At(s, Place(Origin(s, step, p.spot), p.writing))
  {
    hide Enabled, Apply, At, Origin;
    if step.Insert? {
      InsertMovesFrom(s, step, p);
    } else if step.Store? {
      StoreMovesFrom(s, step, p);
    } else {
      UnregisterMovesFrom(s, step, p);
    }
  }

  lemma OpeningMovesFrom(s: Sys, step: Step, p: Place)
    requires Enabled(s, step) && (step.OpenPipes? || step.OpenFails? || step.CheckDuplicate?)
    requires At(Apply(s, step), p).Some? && !IsNew(step, p.spot)
    ensures At(Apply(s, step), p) == At(s, p)
  {
    var s' := Apply(s, step);
    assert s'.table.regs == s.table.regs && s'.collections == s.collections;
  }

  lemma HandshakeMovesFrom(s: Sys, step: Step, p: Place)
    requires Enabled(s, step) && (step.StartHandshake? || step.HandshakeFails? || step.HandshakeSucceeds?)
    requires At(Apply(s, step), p).Some?
    ensures At(Apply(s, step), p) == At(s, Place(Origin(s, step, p.spot), p.writing))
  {
    var s' := Apply(s, step);
    assert s'.table.regs == s.table.regs && s'.openings == s.openings;
  }

  lemma DropMovesFrom(s: Sys, step: Step, p: Place)
    requires Enabled(s, step) && step.DropCollection? && At(Apply(s, step), p).Some?
    ensures At(Apply(s, step), p) == At(s, Place(Origin(s, step, p.spot), p.writing))
  {
    var s' := Apply(s, step);
    assert s'.table.regs == s.table.regs && s'.openings == s.openings;
  }

  lemma DropStays(s: Sys, step: Step, p: Place)
    requires Enabled(s, step) && step.DropCollection? && At(s, p).Some?
    requires Vacated(s, step) != Some(p.spot) && !Forgets(s, step, p.spot)
    ensures At(Apply(s, step), Place(Destination(s, step, p.spot), p.writing)) == At(s, p)
  {
    var s' := Apply(s, step);
    assert s'.table.regs == s.table.regs && s'.openings == s.openings;
  }

  lemma OpeningOrigin(s: Sys, step: Step, spot: Spot)
    requires Enabled(s, step) && (step.OpenPipes? || step.OpenFails? || step.CheckDuplicate?)
    ensures Origin(s, step, spot) == spot && Destination(s, step, spot) == spot
  {
  }

  lemma MovesFrom(s: Sys, step: Step, p: Place)
    requires Enabled(s, step) && Simple(step) && At(Apply(s, step), p).Some? && !IsNew(step, p.spot)
    ensures At(Apply(s, step), p) == At(s, Place(Origin(s, step, p.spot), p.writing))
  {
    hide Enabled, Apply, At, Origin;
    if step.TakeAll? {
      TakeAllMovesFrom(s, step, p);
    } else if step.Insert? || step.Store? || step.Unregister? {
      TableMovesFrom(s, step, p);
    } else if step.StartHandshake? || step.HandshakeFails? || step.HandshakeSucceeds? {
      HandshakeMovesFrom(s, step, p);
    } else if step.DropCollection? {
      DropMovesFrom(s, step, p);
    } else {
      OpeningMovesFrom(s, step, p);
      OpeningOrigin(s, step, p.spot);
    }
  }

  lemma OriginsDiffer(s: Sys, step: Step, p: Place, q: Place)
    requires Enabled(s, step) && Simple(step)
    requires At(Apply(s, step), p).Some? && At(Apply(s, step), q).Some?
    requires Origin(s, step, p.spot) == Origin(s, step, q.spot)
    ensures p.spot == q.spot
  {
  }

  lemma DropClosesSpot(s: Sys, key: Key)
    requires key in s.table.regs
    ensures DropCloses(s.table.regs[key]) == Contents(s, DropSpot(s, key))
  {
  }

  lemma ContentsOfPair(s: Sys, spot: Spot, ends: Ends)
    requires At(s, Place(spot, false)) == Some(ends.read) && At(s, Place(spot, true)) == Some(ends.write)
    ensures Contents(s, spot) == ends.Both()
  {
  }

  lemma StoreReleases(s: Sys, step: Step)
    requires Enabled(s, step) && step.Store?
    ensures Apply(s, step).table.closes == s.table.closes + Released(s, step)
  {
    var key := HandshakeKey(s, step.collection);
    if key !in s.table.regs {
      ContentsOfPair(s, InHandshake(step.collection), s.collections[step.collection].current.value.ends);
    } else if s.table.regs[key].connected.Some? {
      ContentsOfPair(s, InConnection(key), s.table.regs[key].connected.value);
    } else {
      assert Contents(s, InConnection(key)) == multiset{};
    }
  }

  lemma DropReleases(s: Sys, step: Step)
    requires Enabled(s, step) && step.DropCollection?
    ensures Apply(s, step).table.closes == s.table.closes + Released(s, step)
  {
    var current := s.collections[step.collection].current;
    if current.Some? {
      ContentsOfPair(s, InHandshake(step.collection), current.value.ends);
    }
    hide Contents, At;
  }

  lemma ClosesAreReleased(s: Sys, step: Step)
    requires Enabled(s, step) && Simple(step)
    ensures Apply(s, step).table.closes == s.table.closes + Released(s, step)
  {
    hide Contents, DropCloses, TakenRegs, TakenEnds, IsOrder, Stored, StoreSpot;
    if step.Store? {
      StoreReleases(s, step);
    } else if step.CheckDuplicate? {
      ContentsOfPair(s, InOpening(step.thread), s.openings[step.thread].ends);
    } else if step.DropCollection? {
      DropReleases(s, step);
    } else if step.HandshakeFails? {
      ContentsOfPair(s, InHandshake(step.collection), s.collections[step.collection].current.value.ends);
    } else if Dropped(s, step).Some? {
      DropClosesSpot(s, Dropped(s, step).value);
    }
  }

  lemma StoreVacates(s: Sys, step: Step, spot: Spot, q: Place)
    requires Enabled(s, step) && step.Store? && At(Apply(s, step), q).Some? && Vacated(s, step) == Some(spot)
    ensures Origin(s, step, q.spot) != spot
  {
    StoreShape(s, step);
    hide Apply;
  }

  lemma DropVacates(s: Sys, step: Step, spot: Spot, q: Place)
    requires Enabled(s, step) && step.DropCollection? && At(Apply(s, step), q).Some?
    requires Vacated(s, step) == Some(spot) || Forgets(s, step, spot)
    ensures q.spot != spot
  {
    assert step.collection !in Apply(s, step).collections;
    hide Apply;
  }

  lemma VacatedIsNoOrigin(s: Sys, step: Step, spot: Spot, q: Place)
    requires Enabled(s, step) && Simple(step) && At(Apply(s, step), q).Some?
    requires Vacated(s, step) == Some(spot) || Forgets(s, step, spot)
    ensures Origin(s, step, q.spot) != spot
  {
    if step.Store? {
      StoreVacates(s, step, spot, q);
    } else if step.DropCollection? {
      DropVacates(s, step, spot, q);
    }
  }

  lemma TakeAllStays(s: Sys, step: Step, p: Place)
    requires Enabled(s, step) && step.TakeAll? && BothOrNone(s) && At(s, p).Some?
    ensures At(Apply(s, step), Place(Destination(s, step, p.spot), p.writing)) == At(s, p)
  {
    if p.spot.InSlots? && p.spot.key.agent == step.agent && Takable(s.table.regs[p.spot.key]) {
      assert s.table.regs[p.spot.key].read.Some?;
      assert Key(step.agent, p.spot.key.name) == p.spot.key;
      assert p.spot.key.name in TakenEnds(s.table.regs, step.agent);
    }
  }

  lemma InsertStays(s: Sys, step: Step, p: Place)
    requires Enabled(s, step) && step.Insert? && At(s, p).Some?
    requires Vacated(s, step) != Some(p.spot) && !Forgets(s, step, p.spot)
    ensures At(Apply(s, step), Place(Destination(s, step, p.spot), p.writing)) == At(s, p)
  {
    hide TakenRegs, TakenEnds, IsOrder, DropCloses, Stored, Removed;
    assert Apply(s, step).collections == s.collections;
  }

  lemma StoreStays(s: Sys, step: Step, p: Place)
    requires Enabled(s, step) && step.Store? && At(s, p).Some?
    requires Vacated(s, step) != Some(p.spot)
    ensures At(Apply(s, step), Place(Destination(s, step, p.spot), p.writing)) == At(s, p)
  {
    StoreShape(s, step);
    hide Apply;
    var key := HandshakeKey(s, step.collection);
    if p.spot == InHandshake(step.collection) {
      assert key in s.table.regs;
    } else if p.spot.InConnection? {
      assert p.spot.key != key;
    }
  }

  lemma UnregisterStays(s: Sys, step: Step, p: Place)
    requires Enabled(s, step) && step.Unregister? && At(s, p).Some?
    requires Vacated(s, step) != Some(p.spot) && !Forgets(s, step, p.spot)
    ensures At(Apply(s, step), Place(Destination(s, step, p.spot), p.writing)) == At(s, p)
  {
    hide TakenRegs, TakenEnds, IsOrder, DropCloses, Inserted, Stored;
    assert Apply(s, step).openings == s.openings && Apply(s, step).collections == s.collections;
  }

  lemma TableStays(s: Sys, step: Step, p: Place)
    requires Enabled(s, step) && (step.Insert? || step.Store? || step.Unregister?) && At(s, p).Some?
    requires Vacated(s, step) != Some(p.spot) && !Forgets(s, step, p.spot)
    ensures At(Apply(s, step), Place(Destination(s, step, p.spot), p.writing)) == At(s, p)
  {
    hide Enabled, Apply, At, Destination, Vacated, Forgets;
    if step.Insert? {
      InsertStays(s, step, p);
    } else if step.Store? {
      StoreStays(s, step, p);
    } else {
      UnregisterStays(s, step, p);
    }
  }

  lemma OpeningStays(s: Sys, step: Step, p: Place)
    requires Enabled(s, step) && (step.OpenPipes? || step.OpenFails? || step.CheckDuplicate?)
    requires At(s, p).Some? && Vacated(s, step) != Some(p.spot)
    ensures At(Apply(s, step), p) == At(s, p)
  {
    var s' := Apply(s, step);
    assert s'.table.regs == s.table.regs && s'.collections == s.collections;
  }

  lemma HandshakeStays(s: Sys, step: Step, p: Place)
    requires Enabled(s, step) && (step.StartHandshake? || step.HandshakeFails? || step.HandshakeSucceeds?)
    requires At(s, p).Some? && Vacated(s, step) != Some(p.spot)
    ensures At(Apply(s, step), Place(Destination(s, step, p.spot), p.writing)) == At(s, p)
  {
    var s' := Apply(s, step);
    assert s'.table.regs == s.table.regs && s'.openings == s.openings;
  }

  lemma OthersStay(s: Sys, step: Step, p: Place)
    requires Enabled(s, step) && Simple(step) && BothOrNone(s) && At(s, p).Some?
    requires Vacated(s, step) != Some(p.spot) && !Forgets(s, step, p.spot)
    ensures At(Apply(s, step), Place(Destination(s, step, p.spot), p.writing)) == At(s, p)
  {
    hide Enabled, Apply, At, Destination, Vacated, Forgets, BothOrNone;
    if step.TakeAll? {
      TakeAllStays(s, step, p);
    } else if step.Insert? || step.Store? || step.Unregister? {
      TableStays(s, step, p);
    } else if step.StartHandshake? || step.HandshakeFails? || step.HandshakeSucceeds? {
      HandshakeStays(s, step, p);
    } else if step.DropCollection? {
      DropStays(s, step, p);
    } else {
      OpeningStays(s, step, p);
      OpeningOrigin(s, step, p.spot);
    }
  }

  // ----- every step keeps the invariant -----

  /** A closed descriptor is fresh, or had the vacated spot for its one owner. */
  lemma ReleasedIsOwned(s: Sys, step: Step, fd: Fd) returns (w: bool)
    requires Enabled(s, step) && Simple(step) && Inv(s) && fd in Released(s, step)
    ensures Released(s, step)[fd] == 1
    ensures if step.OpenFails? then fd == s.created
            else Vacated(s, step).Some? && At(s, Place(Vacated(s, step).value, w)) == Some(fd)
  {
    hide At, Vacated;
    w := false;
    if !step.OpenFails? {
      var spot := Vacated(s, step).value;
      w := At(s, Place(spot, true)) == Some(fd);
      assert At(s, Place(spot, false)) == Some(fd) || At(s, Place(spot, true)) == Some(fd);
      assert At(s, Place(spot, false)).Some? ==> At(s, Place(spot, false)) != At(s, Place(spot, true));
    }
  }

  /** What a step closes has no owner afterwards. */
  lemma ReleasedHasNoOwner(s: Sys, step: Step, p: Place)
    requires Enabled(s, step) && Simple(step) && Inv(s) && At(Apply(s, step), p).Some?
    ensures At(Apply(s, step), p).value !in Released(s, step)
  {
    var fd := At(Apply(s, step), p).value;
    if fd in Released(s, step) {
      var w := ReleasedIsOwned(s, step, fd);
      if IsNew(step, p.spot) {
        assert false;
      } else {
        MovesFrom(s, step, p);
        if !step.OpenFails? {
          var spot := Vacated(s, step).value;
          assert Place(spot, w) == Place(Origin(s, step, p.spot), p.writing);
          VacatedIsNoOrigin(s, step, spot, p);
        }
      }
    }
  }

  lemma OneOwnerKept(s: Sys, step: Step)
    requires Enabled(s, step) && Simple(step) && Inv(s)
    ensures OneOwner(Apply(s, step))
  {
    var s' := Apply(s, step);
    forall p, q | At(s', p).Some? && At(s', p) == At(s', q)
      ensures p == q
    {
      if !IsNew(step, p.spot) {
        MovesFrom(s, step, p);
      } else {
        NewAt(s, step, p.writing);
      }
      if !IsNew(step, q.spot) {
        MovesFrom(s, step, q);
      } else {
        NewAt(s, step, q.writing);
      }
      SameOrigin(s, step, p, q);
    }
  }

  lemma SameOrigin(s: Sys, step: Step, p: Place, q: Place)
    requires Enabled(s, step) && Simple(step) && Inv(s)
    requires At(Apply(s, step), p).Some? && At(Apply(s, step), p) == At(Apply(s, step), q)
    requires if IsNew(step, p.spot) then At(Apply(s, step), p) == Some(if p.writing then s.created + 1 else s.created)
             else At(Apply(s, step), p) == At(s, Place(Origin(s, step, p.spot), p.writing))
    requires if IsNew(step, q.spot) then At(Apply(s, step), q) == Some(if q.writing then s.created + 1 else s.created)
             else At(Apply(s, step), q) == At(s, Place(Origin(s, step, q.spot), q.writing))
    ensures p == q
  {
    if !IsNew(step, p.spot) && !IsNew(step, q.spot) {
      OriginsDiffer(s, step, p, q);
    }
    hide At, Origin, Enabled, Apply, NotYetHanded, ClosedOnce, HandedOnce, BothOrNone;
    if !IsNew(step, p.spot) && !IsNew(step, q.spot) {
      assert Place(Origin(s, step, p.spot), p.writing) == Place(Origin(s, step, q.spot), q.writing);
    }
  }

  lemma OwnedIsOpenKept(s: Sys, step: Step)
    requires Enabled(s, step) && Simple(step) && Inv(s)
    ensures OwnedIsOpen(Apply(s, step))
  {
    var s' := Apply(s, step);
    ClosesAreReleased(s, step);
    assert s'.created >= s.created && (step.OpenPipes? ==> s'.created == s.created + 2);
    forall p | At(s', p).Some?
      ensures At(s', p).value < s'.created && At(s', p).value !in s'.table.closes
    {
      ReleasedHasNoOwner(s, step, p);
      if IsNew(step, p.spot) {
        NewAt(s, step, p.writing);
      } else {
        MovesFrom(s, step, p);
      }
    }
  }

  lemma ClosedOnceKept(s: Sys, step: Step)
    requires Enabled(s, step) && Simple(step) && Inv(s)
    ensures ClosedOnce(Apply(s, step))
  {
    var s' := Apply(s, step);
    ClosesAreReleased(s, step);
    assert s'.created >= s.created && (step.OpenFails? ==> s'.created == s.created + 1);
    hide Apply, At, Vacated, Released;
    forall fd
      ensures s'.table.closes[fd] <= 1 && (fd >= s'.created ==> fd !in s'.table.closes)
    {
      if fd in Released(s, step) {
        var w := ReleasedIsOwned(s, step, fd);
      }
    }
  }

  /** Only a starting handshake hands descriptors out: those of a pending pair. */
  lemma HandsOut(s: Sys, step: Step)
    requires Enabled(s, step) && Simple(step)
    ensures Apply(s, step).handed == s.handed
        + if step.StartHandshake? then Contents(s, InPending(step.collection, step.name)) else multiset{}
    ensures Apply(s, step).created >= s.created
  {
    if step.StartHandshake? {
      ContentsOfPair(s, InPending(step.collection, step.name), s.collections[step.collection].pending[step.name]);
    }
  }

  lemma HandedKept(s: Sys, step: Step)
    requires Enabled(s, step) && Simple(step) && Inv(s)
    ensures HandedOnce(Apply(s, step))
  {
    HandsOut(s, step);
    if step.StartHandshake? {
      var spot := InPending(step.collection, step.name);
      hide At, Apply, Enabled;
      assert At(s, Place(spot, false)).Some? ==> At(s, Place(spot, false)) != At(s, Place(spot, true));
      forall fd
        ensures Apply(s, step).handed[fd] <= 1 && (fd >= Apply(s, step).created ==> fd !in Apply(s, step).handed)
      {
        if fd in Contents(s, spot) {
          assert At(s, Place(spot, false)) == Some(fd) || At(s, Place(spot, true)) == Some(fd);
        }
      }
    }
  }

  lemma NotYetHandedKept(s: Sys, step: Step)
    requires Enabled(s, step) && Simple(step) && Inv(s)
    ensures NotYetHanded(Apply(s, step))
  {
    var s' := Apply(s, step);
    HandsOut(s, step);
    forall p | At(s', p).Some? && BeforeHandshake(p.spot)
      ensures At(s', p).value !in s'.handed
    {
      if IsNew(step, p.spot) {
        NewAt(s, step, p.writing);
      } else {
        MovesFrom(s, step, p);
        StillBefore(s, step, p);
      }
    }
  }

  lemma StillBefore(s: Sys, step: Step, p: Place)
    requires Enabled(s, step) && Simple(step) && Inv(s) && At(Apply(s, step), p).Some? && BeforeHandshake(p.spot)
    requires At(Apply(s, step), p) == At(s, Place(Origin(s, step, p.spot), p.writing))
    ensures At(Apply(s, step), p).value !in s.handed
    ensures step.StartHandshake? ==> At(Apply(s, step), p).value !in Contents(s, InPending(step.collection, step.name))
  {
    assert BeforeHandshake(Origin(s, step, p.spot));
    if step.StartHandshake? {
      var spot := InPending(step.collection, step.name);
      assert Origin(s, step, p.spot) != spot;
      assert At(s, Place(spot, false)) != At(s, Place(Origin(s, step, p.spot), p.writing));
      assert At(s, Place(spot, true)) != At(s, Place(Origin(s, step, p.spot), p.writing));
    }
  }

  lemma BothOrNoneKept(s: Sys, step: Step)
    requires Enabled(s, step) && Simple(step) && BothOrNone(s)
    ensures BothOrNone(Apply(s, step))
  {
  }

  lemma SimpleKeeps(s: Sys, step: Step)
    requires Enabled(s, step) && Simple(step) && Inv(s)
    ensures Inv(Apply(s, step))
  {
    OneOwnerKept(s, step);
    OwnedIsOpenKept(s, step);
    NotYetHandedKept(s, step);
    ClosedOnceKept(s, step);
    HandedKept(s, step);
    BothOrNoneKept(s, step);
  }
}
