/**
 The use-counting invite store: its records in memory and the file they are saved to.

 A save either replaces the whole file or leaves it as it was; whether it works, whether signing
 works and the current time are inputs of each operation. The file is the `disk` field.
 */
module InviteStore {
  import opened Prelude
  import opened InviteWire
  import opened InviteToken
  import MembershipPayload
  import Utf8

  type Id = Uuid

  datatype Status = Pending | Consumed | Revoked

  datatype Record = Record(grant: Grant, createdAt: u64, usesRemaining: u32, status: Status, usedBy: seq<Utf8.Text>)

  datatype Failure = NotFound | InviteRevoked | InviteConsumed | Expired | SaveFailed | LoadFailed | SigningFailed
      | NotEncodable

  /** The invite file: absent, not readable as records, or holding them. */
  datatype File = Missing | Unreadable | Holding(records: map<Id, Record>)

  datatype Store = Store(records: map<Id, Record>, disk: Option<map<Id, Record>>) {
    /** `save_records` */
    function Save(ok: bool): Store {
      if ok then this.(disk := Some(records)) else this
    }
  }

  function Load(disk: Option<map<Id, Record>>): Store {
    Store(if disk.Some? then disk.value else map[], disk)
  }

  predicate IsExpired(g: Grant, now: u64) { g.expiresAt != 0 && now > g.expiresAt }

  // ----- the operations -----

  datatype Request = Request(inviter: PeerIdText, meshName: Option<Utf8.Text>, ttl: Option<u64>, maxUses: u32,
                             canInvite: bool, role: string)

  /** `now_secs() + ttl` wraps around at the width of the source's integer. */
  function NewGrant(id: Id, q: Request, now: u64): Grant {
    Grant(WIRE_VERSION, Hyphenated(id), q.inviter, q.meshName,
          if q.ttl.Some? then (now + q.ttl.value) % U64_LIMIT else 0, q.maxUses, q.canInvite, q.role)
  }

  function Create(s: Store, id: Id, q: Request, now: u64, signature: Option<string>, saved: bool)
    : (Store, Result<SignedGrant, Failure>)
  {
    var grant := NewGrant(id, q, now);
    if ToWire(grant).Err? then (s, Err(NotEncodable))
    else if signature.None? then (s, Err(SigningFailed))
    else
      var s1 := s.(records := s.records[id := Record(grant, now, q.maxUses, Pending, [])]).Save(saved);
      (s1, if saved then Ok(SignedGrant(grant, signature.value)) else Err(SaveFailed))
  }

  /** One use taken off a pending record. */
  function Spend(r: Record, joiner: Utf8.Text): Record
    requires r.grant.maxUses == 0 || r.usesRemaining > 0
  {
    var left := if r.grant.maxUses > 0 then r.usesRemaining - 1 else r.usesRemaining;
    r.(usesRemaining := left,
       status := if r.grant.maxUses > 0 && left == 0 then Consumed else r.status,
       usedBy := r.usedBy + [joiner])
  }

  /**
   `admit_peer`, where the membership token may fail to be issued, and `validate_and_consume`,
   where nothing is issued.
   */
  function Use(s: Store, id: Id, joiner: Utf8.Text, now: u64, saved: bool, issued: bool): (Store, Result<(), Failure>) {
    if id !in s.records then (s, Err(NotFound))
    else
      var r := s.records[id];
      if r.status.Revoked? then (s, Err(InviteRevoked))
      else if r.status.Consumed? then (s, Err(InviteConsumed))
      else if IsExpired(r.grant, now) then (s, Err(Expired))
      else if r.grant.maxUses > 0 && r.usesRemaining == 0 then
        (s.(records := s.records[id := r.(status := Consumed)]).Save(saved),
         Err(if saved then InviteConsumed else SaveFailed))
      else
        (s.(records := s.records[id := Spend(r, joiner)]).Save(saved),
         if !saved then Err(SaveFailed) else if issued then Ok(()) else Err(SigningFailed))
  }

  function Revoke(s: Store, id: Id, saved: bool): (Store, Result<(), Failure>) {
    if id !in s.records then (s, Err(NotFound))
    else
      (s.(records := s.records[id := s.records[id].(status := Revoked)]).Save(saved),
       if saved then Ok(()) else Err(SaveFailed))
  }

  /** The admitting side: its mesh and its PeerId text. */
  datatype Admitter = Admitter(meshId: Utf8.Text, peerId: Utf8.Text)

  /** The membership token handed to an admitted peer. */
  datatype Membership = Membership(
    meshId: Utf8.Text, peerId: Utf8.Text, admittedBy: Utf8.Text, invite: Id, canInvite: bool, role: string,
    issuedAt: u64, expiresAt: u64, signature: string)

  /** `MembershipToken::issue` works: the fields fit their length prefixes and signing works. */
  predicate CanIssue(joiner: Utf8.Text, host: Admitter, signature: Option<string>) {
    && |host.meshId| <= MembershipPayload.MAX_FIELD && |joiner| <= MembershipPayload.MAX_FIELD
    && |host.peerId| <= MembershipPayload.MAX_FIELD && signature.Some?
  }

  /** `admit_peer`: a use of the invite, then a membership token with the permissions and expiry of its grant. */
  function Admit(s: Store, id: Id, joiner: Utf8.Text, host: Admitter, now: u64, issuedAt: u64, saved: bool,
      signature: Option<string>): (Store, Result<Membership, Failure>)
  {
    var (t, used) := Use(s, id, joiner, now, saved, CanIssue(joiner, host, signature));
    if used.Err? then (t, Err(used.error))
    else
      var grant := s.records[id].grant;
      (t, Ok(Membership(host.meshId, joiner, host.peerId, id, grant.canInvite, grant.role, issuedAt, grant.expiresAt,
                        signature.value)))
  }

  class InviteStore {
    var records: map<Id, Record>
    var disk: Option<map<Id, Record>>

    function View(): Store
      reads this
    {
      Store(records, disk)
    }

    constructor (file: Option<map<Id, Record>>)
      ensures View() == Load(file)
    {
      disk := file;
      records := if file.Some? then file.value else map[];
    }

    /** `load_or_create`: a file that cannot be read or parsed is an error, a missing one an empty store. */
    static method LoadOrCreate(file: File) returns (r: Result<InviteStore, Failure>)
      ensures r.Err? <==> file.Unreadable?
      ensures r.Ok? ==> fresh(r.value) && r.value.View() == Load(if file.Holding? then Some(file.records) else None)
    {
      match file {
        case Unreadable =>
          return Err(LoadFailed);
        case Missing =>
          var store := new InviteStore(None);
          return Ok(store);
        case Holding(records) =>
          var store := new InviteStore(Some(records));
          return Ok(store);
      }
    }

    method SaveRecords(works: bool) returns (r: Result<(), Failure>)
      modifies `disk
      ensures View() == old(View()).Save(works)
      ensures r == if works then Ok(()) else Err(SaveFailed)
    {
      if !works {
        return Err(SaveFailed);
      }
      disk := Some(records);
      return Ok(());
    }

    method CreateInvite(id: Id, q: Request, now: u64, signature: Option<string>, saveWorks: bool)
      returns (r: Result<SignedGrant, Failure>)
      modifies this
      ensures (View(), r) == Create(old(View()), id, q, now, signature, saveWorks)
    {
      var grant := NewGrant(id, q, now);
      var wire := ToWireBytes(grant);
      if wire.Err? {
        return Err(NotEncodable);
      }
      if signature.None? {
        return Err(SigningFailed);
      }
      records := records[id := Record(grant, now, q.maxUses, Pending, [])];
      var ok := SaveRecords(saveWorks);
      if ok.Err? {
        return Err(SaveFailed);
      }
      return Ok(SignedGrant(grant, signature.value));
    }

    method ValidateAndConsume(id: Id, joiner: Utf8.Text, now: u64, saveWorks: bool) returns (r: Result<(), Failure>)
      modifies this
      ensures (View(), r) == Use(old(View()), id, joiner, now, saveWorks, true)
    {
      if id !in records {
        return Err(NotFound);
      }
      var record := records[id];
      match record.status {
        case Revoked => return Err(InviteRevoked);
        case Consumed => return Err(InviteConsumed);
        case Pending =>
      }
      if IsExpired(record.grant, now) {
        return Err(Expired);
      }
      if record.grant.maxUses > 0 && record.usesRemaining == 0 {
        records := records[id := record.(status := Consumed)];
        var ok := SaveRecords(saveWorks);
        return Err(if ok.Err? then SaveFailed else InviteConsumed);
      }
      if record.grant.maxUses > 0 {
        record := record.(usesRemaining := record.usesRemaining - 1);
        if record.usesRemaining == 0 {
          record := record.(status := Consumed);
        }
      }
      records := records[id := record.(usedBy := record.usedBy + [joiner])];
      var ok := SaveRecords(saveWorks);
      return ok;
    }

    method AdmitPeer(id: Id, joiner: Utf8.Text, host: Admitter, now: u64, issuedAt: u64, saveWorks: bool,
        signature: Option<string>)
      returns (r: Result<Membership, Failure>)
      modifies this
      ensures (View(), r) == Admit(old(View()), id, joiner, host, now, issuedAt, saveWorks, signature)
    {
      var used := ValidateAndConsume(id, joiner, now, saveWorks);
      if used.Err? {
        return Err(used.error);
      }
      var grant := records[id].grant;
      if |host.meshId| > MembershipPayload.MAX_FIELD || |joiner| > MembershipPayload.MAX_FIELD
         || |host.peerId| > MembershipPayload.MAX_FIELD || signature.None? {
        return Err(SigningFailed);
      }
      return Ok(Membership(host.meshId, joiner, host.peerId, id, grant.canInvite, grant.role, issuedAt, grant.expiresAt,
                           signature.value));
    }

    method RevokeInvite(id: Id, saveWorks: bool) returns (r: Result<(), Failure>)
      modifies this
      ensures (View(), r) == Revoke(old(View()), id, saveWorks)
    {
      if id !in records {
        return Err(NotFound);
      }
      records := records[id := records[id].(status := Revoked)];
      r := SaveRecords(saveWorks);
    }
  }

  // ----- runs -----

  datatype Step =
    | DoCreate(id: Id, q: Request, now: u64, signature: Option<string>, saved: bool)
    | DoAdmit(id: Id, joiner: Utf8.Text, host: Admitter, now: u64, issuedAt: u64, saved: bool,
              signature: Option<string>)
    | DoConsume(id: Id, joiner: Utf8.Text, now: u64, saved: bool)
    | DoRevoke(id: Id, saved: bool)
    | Restart

  /** What callers were told: a use of an invite succeeded, a revocation succeeded. */
  datatype Event = Used(id: Id, joiner: Utf8.Text) | Cancelled(id: Id)

  /** What an invite was asked for, and when. */
  datatype Asked = Asked(q: Request, at: u64)

  /** `asked` remembers the request behind each invite, `members` the membership tokens handed out. */
  datatype Sys = Sys(store: Store, asked: map<Id, Asked>, told: seq<Event>, members: seq<Membership>)

  const EMPTY: Sys := Sys(Load(None), map[], [], [])

  /** A fresh UUID is one no earlier call drew. */
  predicate Enabled(s: Sys, step: Step) {
    step.DoCreate? ==> step.id !in s.asked
  }

  function Tell(s: Sys, store: Store, told: bool, e: Event): Sys {
    s.(store := store, told := if told then s.told + [e] else s.told)
  }

  function Apply(s: Sys, step: Step): Sys {
    match step
    case DoCreate(id, q, now, signature, saved) =>
      s.(store := Create(s.store, id, q, now, signature, saved).0, asked := s.asked[id := Asked(q, now)])
    case DoAdmit(id, joiner, host, now, issuedAt, saved, signature) =>
      var (store, r) := Admit(s.store, id, joiner, host, now, issuedAt, saved, signature);
      Tell(s, store, r.Ok?, Used(id, joiner)).(members := if r.Ok? then s.members + [r.value] else s.members)
    case DoConsume(id, joiner, now, saved) =>
      var (store, r) := Use(s.store, id, joiner, now, saved, true);
      Tell(s, store, r.Ok?, Used(id, joiner))
    case DoRevoke(id, saved) =>
      var (store, r) := Revoke(s.store, id, saved);
      Tell(s, store, r.Ok?, Cancelled(id))
    case Restart => s.(store := Load(s.store.disk))
  }

  predicate Legal(s: Sys, steps: seq<Step>)
    decreases |steps|
  {
    steps == [] || (Enabled(s, steps[0]) && Legal(Apply(s, steps[0]), steps[1..]))
  }

  function Exec(s: Sys, steps: seq<Step>): Sys
    decreases |steps|
  {
    if steps == [] then s else Exec(Apply(s, steps[0]), steps[1..])
  }

  function Uses(told: seq<Event>, id: Id): nat {
    if told == [] then 0
    else Uses(told[..|told| - 1], id) + if told[|told| - 1].Used? && told[|told| - 1].id == id then 1 else 0
  }

  // ----- the invariant, one invite at a time -----

  function OnDisk(s: Store): map<Id, Record> { if s.disk.Some? then s.disk.value else map[] }

  /** The counter, the list of users and the status agree with the limit. */
  predicate RecordOk(r: Record, limit: u32) {
    && r.grant.maxUses == limit
    && (limit > 0 ==> r.usesRemaining + |r.usedBy| == limit)
    && (limit > 0 && r.status.Pending? ==> r.usesRemaining > 0)
    && (r.status.Consumed? ==> limit > 0 && r.usesRemaining == 0)
  }

  predicate InviteOk(s: Sys, id: Id) {
    var mem, disk := s.store.records, OnDisk(s.store);
    && (id in mem ==> id in s.asked && RecordOk(mem[id], s.asked[id].q.maxUses))
    && (id in disk ==> id in s.asked && RecordOk(disk[id], s.asked[id].q.maxUses))
    && (id in disk ==> id in mem && |disk[id].usedBy| <= |mem[id].usedBy|)
    && (id in disk ==> Uses(s.told, id) <= |disk[id].usedBy|)
    && (id !in disk ==> Uses(s.told, id) == 0)
  }

  /** A revocation the caller was told of is in the file and in memory, and no use was told after it. */
  predicate RevocationOk(s: Sys, id: Id) {
    && (Cancelled(id) in s.told ==>
          && id in s.store.records && s.store.records[id].status.Revoked?
          && id in OnDisk(s.store) && OnDisk(s.store)[id].status.Revoked?)
    && NoUseAfterCancel(s.told, id)
  }

  predicate NoUseAfterCancel(told: seq<Event>, id: Id) {
    forall i, j :: 0 <= i < j < |told| && told[i] == Cancelled(id) ==> !(told[j].Used? && told[j].id == id)
  }

  lemma UsesSnoc(told: seq<Event>, e: Event, id: Id)
    ensures Uses(told + [e], id) == Uses(told, id) + if e.Used? && e.id == id then 1 else 0
  {
    SnocFront(told, e);
  }

  lemma UseKeepsInvite(s: Sys, id: Id, joiner: Utf8.Text, now: u64, saved: bool, issued: bool, other: Id)
    requires InviteOk(s, other)
    ensures var (store, r) := Use(s.store, id, joiner, now, saved, issued);
            InviteOk(Tell(s, store, r.Ok?, Used(id, joiner)), other)
  {
    UsesSnoc(s.told, Used(id, joiner), other);
    hide Uses;
  }

  lemma UseKeepsRevocation(s: Sys, id: Id, joiner: Utf8.Text, now: u64, saved: bool, issued: bool, other: Id)
    requires InviteOk(s, other) && RevocationOk(s, other)
    ensures var (store, r) := Use(s.store, id, joiner, now, saved, issued);
            RevocationOk(Tell(s, store, r.Ok?, Used(id, joiner)), other)
  {
    hide Uses, RecordOk;
  }

  lemma UseKeeps(s: Sys, id: Id, joiner: Utf8.Text, now: u64, saved: bool, issued: bool, other: Id)
    requires InviteOk(s, other) && RevocationOk(s, other)
    ensures var (store, r) := Use(s.store, id, joiner, now, saved, issued);
            InviteOk(Tell(s, store, r.Ok?, Used(id, joiner)), other)
            && RevocationOk(Tell(s, store, r.Ok?, Used(id, joiner)), other)
  {
    hide InviteOk, RevocationOk, Use, Tell;
    UseKeepsInvite(s, id, joiner, now, saved, issued, other);
    UseKeepsRevocation(s, id, joiner, now, saved, issued, other);
  }

  lemma RevokeKeepsInvite(s: Sys, id: Id, saved: bool, other: Id)
    requires InviteOk(s, other)
    ensures InviteOk(Apply(s, DoRevoke(id, saved)), other)
  {
    UsesSnoc(s.told, Cancelled(id), other);
    hide Uses;
  }

  lemma RevokeKeeps(s: Sys, id: Id, saved: bool, other: Id)
    requires InviteOk(s, other) && RevocationOk(s, other)
    ensures InviteOk(Apply(s, DoRevoke(id, saved)), other) && RevocationOk(Apply(s, DoRevoke(id, saved)), other)
  {
    RevokeKeepsInvite(s, id, saved, other);
    hide Uses, RecordOk, InviteOk;
  }

  /** Admitting a peer is a use; only the membership token is more. */
  lemma AdmitIsUse(s: Sys, step: Step)
    requires step.DoAdmit?
    ensures var (store, r) := Use(s.store, step.id, step.joiner, step.now, step.saved,
                                  CanIssue(step.joiner, step.host, step.signature));
            Apply(s, step).(members := s.members) == Tell(s, store, r.Ok?, Used(step.id, step.joiner))
  {
  }

  lemma MembersDoNotMatter(s: Sys, id: Id, members: seq<Membership>)
    ensures InviteOk(s.(members := members), id) <==> InviteOk(s, id)
    ensures RevocationOk(s.(members := members), id) <==> RevocationOk(s, id)
  {
    hide RecordOk, Uses, NoUseAfterCancel;
  }

  lemma StepKeeps(s: Sys, step: Step, id: Id)
    requires Enabled(s, step) && InviteOk(s, id) && RevocationOk(s, id)
    ensures InviteOk(Apply(s, step), id) && RevocationOk(Apply(s, step), id)
  {
    match step
    case DoAdmit(i, joiner, host, now, issuedAt, saved, signature) =>
      UseKeeps(s, i, joiner, now, saved, CanIssue(joiner, host, signature), id);
      AdmitIsUse(s, step);
      MembersDoNotMatter(Apply(s, step), id, s.members);
    case DoConsume(i, joiner, now, saved) => UseKeeps(s, i, joiner, now, saved, true, id);
    case DoRevoke(i, saved) => RevokeKeeps(s, i, saved, id);
    case _ =>
  }

  lemma {:induction false} RunKeeps(s: Sys, steps: seq<Step>, id: Id)
    requires Legal(s, steps) && InviteOk(s, id) && RevocationOk(s, id)
    ensures InviteOk(Exec(s, steps), id) && RevocationOk(Exec(s, steps), id)
    decreases |steps|
  {
    hide InviteOk, RevocationOk, Enabled, Apply;
    if steps != [] {
      StepKeeps(s, steps[0], id);
      RunKeeps(Apply(s, steps[0]), steps[1..], id);
    }
  }

  /** Whatever saves fail and however often the store restarts, a limited invite is used at most that often. */
  lemma UseLimitHolds(steps: seq<Step>, id: Id)
    requires Legal(EMPTY, steps)
    ensures var s := Exec(EMPTY, steps);
            id in s.asked && s.asked[id].q.maxUses > 0 ==> Uses(s.told, id) <= s.asked[id].q.maxUses
  {
    RunKeeps(EMPTY, steps, id);
  }

  /** In memory the counter and the list of users always add up to the limit. */
  lemma CounterAddsUp(steps: seq<Step>, id: Id)
    requires Legal(EMPTY, steps) && id in Exec(EMPTY, steps).store.records
    ensures var r := Exec(EMPTY, steps).store.records[id];
            r.grant.maxUses > 0 ==>
              r.usesRemaining + |r.usedBy| == r.grant.maxUses && (r.usesRemaining == 0 ==> !r.status.Pending?)
  {
    RunKeeps(EMPTY, steps, id);
  }

  /** Once a revocation was reported, no use of that invite is ever reported again. */
  lemma RevocationIsFinal(steps: seq<Step>, id: Id)
    requires Legal(EMPTY, steps)
    ensures NoUseAfterCancel(Exec(EMPTY, steps).told, id)
  {
    RunKeeps(EMPTY, steps, id);
  }

  function Rank(status: Status): nat {
    match status
    case Pending => 0
    case Consumed => 1
    case Revoked => 2
  }

  // ----- status along a run -----

  lemma {:induction false} ExecSnoc(s: Sys, steps: seq<Step>, step: Step)
    ensures Exec(s, steps + [step]) == Apply(Exec(s, steps), step)
    ensures Legal(s, steps + [step]) <==> Legal(s, steps) && Enabled(Exec(s, steps), step)
    decreases |steps|
  {
    hide Enabled, Apply;
    if steps == [] {
      assert [step][1..] == [] && [] + [step] == [step];
      assert Exec(Apply(s, step), []) == Apply(s, step);
    } else {
      ExecSnoc(Apply(s, steps[0]), steps[1..], step);
      assert (steps + [step])[1..] == steps[1..] + [step];
    }
  }

  /** Where the invite stands in memory: 0 before there is a record. */
  function Level(s: Sys, id: Id): nat {
    if id in s.store.records then 1 + Rank(s.store.records[id].status) else 0
  }

  function DiskLevel(s: Sys, id: Id): nat {
    if id in OnDisk(s.store) then 1 + Rank(OnDisk(s.store)[id].status) else 0
  }

  /** The step writes the whole file. */
  predicate Saves(s: Sys, step: Step) {
    match step
    case DoCreate(id, q, now, signature, saved) => ToWire(NewGrant(id, q, now)).Ok? && signature.Some? && saved
    case DoAdmit(id, _, _, now, _, saved, _) => ReachesSave(s.store, id, now) && saved
    case DoConsume(id, _, now, saved) => ReachesSave(s.store, id, now) && saved
    case DoRevoke(id, saved) => id in s.store.records && saved
    case Restart => false
  }

  /** A use gets as far as the save. */
  predicate ReachesSave(s: Store, id: Id, now: u64) {
    id in s.records && s.records[id].status.Pending? && !IsExpired(s.records[id].grant, now)
  }

  /** Memory and file agree on the invite after the step because the step made them agree. */
  predicate Syncs(s: Sys, step: Step) { Saves(s, step) || step.Restart? }

  predicate Changes(s: Sys, step: Step, id: Id) { Level(Apply(s, step), id) != Level(s, id) }

  lemma LevelStep(s: Sys, step: Step, id: Id)
    requires Enabled(s, step) && (id in s.store.records ==> id in s.asked)
    ensures !step.Restart? ==> Level(Apply(s, step), id) >= Level(s, id)
    ensures Syncs(s, step) ==> DiskLevel(Apply(s, step), id) == Level(Apply(s, step), id)
    ensures !Syncs(s, step) ==> DiskLevel(Apply(s, step), id) == DiskLevel(s, id)
  {
    if !Syncs(s, step) {
      assert Apply(s, step).store.disk == s.store.disk;
    }
  }

  /** Along a run, any step but a restart raises the level or leaves it, and touches the file only to make it agree. */
  lemma RunLevelStep(front: seq<Step>, last: Step, id: Id)
    requires Legal(EMPTY, front + [last])
    ensures Legal(EMPTY, front)
    ensures var s, t := Exec(EMPTY, front), Exec(EMPTY, front + [last]);
            && (!last.Restart? ==> Level(t, id) >= Level(s, id))
            && (Syncs(s, last) ==> DiskLevel(t, id) == Level(t, id))
            && (!Syncs(s, last) ==> DiskLevel(t, id) == DiskLevel(s, id) && !last.Restart?)
            && (Changes(s, last, id) <==> Level(t, id) != Level(s, id))
  {
    ExecSnoc(EMPTY, front, last);
    RunKeeps(EMPTY, front, id);
    assert InviteOk(Exec(EMPTY, front), id);
    var s := Exec(EMPTY, front);
    assert id in s.store.records ==> id in s.asked;
    assert Syncs(s, last) || !last.Restart?;
    hide Exec, Legal, InviteOk, RevocationOk, Enabled, Apply, Level, DiskLevel, Syncs;
    LevelStep(s, last, id);
  }

  /** The file never runs ahead of memory, and holds no invite that memory lacks. */
  lemma {:induction false} DiskIsBehind(steps: seq<Step>, id: Id)
    requires Legal(EMPTY, steps)
    ensures DiskLevel(Exec(EMPTY, steps), id) <= Level(Exec(EMPTY, steps), id)
    decreases |steps|
  {
    if steps != [] {
      var front, last := steps[..|steps| - 1], steps[|steps| - 1];
      assert steps == front + [last];
      hide Exec, Legal, Syncs, Level, DiskLevel, Changes;
      RunLevelStep(front, last, id);
      DiskIsBehind(front, id);
    }
  }

  lemma {:induction false} LegalPrefix(steps: seq<Step>, n: nat)
    requires Legal(EMPTY, steps) && n <= |steps|
    ensures Legal(EMPTY, steps[..n])
    decreases |steps| - n
  {
    hide Apply, Enabled, Exec;
    if n == |steps| {
      assert steps[..n] == steps;
    } else {
      LegalPrefix(steps, n + 1);
      assert steps[..n + 1] == steps[..n] + [steps[n]];
      ExecSnoc(EMPTY, steps[..n], steps[n]);
    }
  }

  /**
   Over every run: between two points with no restart between them the status only moves forward,
   and no record is lost.
   */
  lemma {:induction false} StatusOnlyAdvances(steps: seq<Step>, i: nat, j: nat, id: Id)
    requires Legal(EMPTY, steps) && i <= j <= |steps|
    requires forall k :: i <= k < j ==> !steps[k].Restart?
    ensures Level(Exec(EMPTY, steps[..i]), id) <= Level(Exec(EMPTY, steps[..j]), id)
    decreases j
  {
    if i < j {
      StatusOnlyAdvances(steps, i, j - 1, id);
      LegalPrefix(steps, j);
      assert steps[..j] == steps[..j - 1] + [steps[j - 1]];
      hide Exec, Legal, Syncs, Level, DiskLevel, Changes;
      RunLevelStep(steps[..j - 1], steps[j - 1], id);
    }
  }

  /** Some step wrote the file, or read it back, and no later step changed the status. */
  ghost predicate SavedSinceChange(steps: seq<Step>, id: Id) {
    exists i :: 0 <= i < |steps| && Syncs(Exec(EMPTY, steps[..i]), steps[i])
                && forall j :: i < j < |steps| ==> !Changes(Exec(EMPTY, steps[..j]), steps[j], id)
  }

  lemma SavedSinceSnoc(front: seq<Step>, last: Step, id: Id)
    ensures var s := Exec(EMPTY, front);
            SavedSinceChange(front + [last], id) <==>
              Syncs(s, last) || (SavedSinceChange(front, id) && !Changes(s, last, id))
  {
    var steps := front + [last];
    var s := Exec(EMPTY, front);
    hide Exec, Syncs, Changes;
    assert steps[..|front|] == front && steps[|front|] == last;
    assert forall i :: 0 <= i < |front| ==> steps[..i] == front[..i] && steps[i] == front[i];
    if SavedSinceChange(front, id) && !Changes(s, last, id) {
      var i :| 0 <= i < |front| && Syncs(Exec(EMPTY, front[..i]), front[i])
               && forall j :: i < j < |front| ==> !Changes(Exec(EMPTY, front[..j]), front[j], id);
      assert Syncs(Exec(EMPTY, steps[..i]), steps[i]);
      forall j | i < j < |steps|
        ensures !Changes(Exec(EMPTY, steps[..j]), steps[j], id)
      {
        if j < |front| {
          assert steps[..j] == front[..j] && steps[j] == front[j];
        }
      }
    }
    if Syncs(s, last) {
      assert Syncs(Exec(EMPTY, steps[..|front|]), steps[|front|]);
    }
    if SavedSinceChange(steps, id) && !Syncs(s, last) {
      var i :| 0 <= i < |steps| && Syncs(Exec(EMPTY, steps[..i]), steps[i])
               && forall j :: i < j < |steps| ==> !Changes(Exec(EMPTY, steps[..j]), steps[j], id);
      assert i < |front|;
      assert !Changes(Exec(EMPTY, steps[..|front|]), steps[|front|], id);
      assert Syncs(Exec(EMPTY, front[..i]), front[i]);
      forall j | i < j < |front|
        ensures !Changes(Exec(EMPTY, front[..j]), front[j], id)
      {
        assert steps[..j] == front[..j] && steps[j] == front[j];
      }
    }
  }

  lemma {:induction false} LevelsAgree(steps: seq<Step>, id: Id)
    requires Legal(EMPTY, steps)
    ensures Level(Exec(EMPTY, steps), id) > 0 ==>
              (DiskLevel(Exec(EMPTY, steps), id) == Level(Exec(EMPTY, steps), id) <==> SavedSinceChange(steps, id))
    decreases |steps|
  {
    if steps != [] {
      var front, last := steps[..|steps| - 1], steps[|steps| - 1];
      assert steps == front + [last];
      hide Exec, Legal, Syncs, Level, DiskLevel, Changes, SavedSinceChange;
      RunLevelStep(front, last, id);
      LevelsAgree(front, id);
      DiskIsBehind(front, id);
      SavedSinceSnoc(front, last, id);
    }
  }

  /**
   Over every run: a restart now leaves the status of an invite as it is exactly when some save
   worked, or some restart happened, after which no step changed that status. Otherwise it goes back.
   */
  lemma RestartKeepsStatus(steps: seq<Step>, id: Id)
    requires Legal(EMPTY, steps) && id in Exec(EMPTY, steps).store.records
    ensures var s := Exec(EMPTY, steps); var t := Apply(s, Restart);
            && (id in t.store.records && t.store.records[id].status == s.store.records[id].status <==>
                  SavedSinceChange(steps, id))
            && (id in t.store.records ==> Rank(t.store.records[id].status) <= Rank(s.store.records[id].status))
  {
    LevelsAgree(steps, id);
    DiskIsBehind(steps, id);
    hide SavedSinceChange, Exec, Legal;
  }

  /** A revocation survives a restart right after it exactly when its save works or the file already said so. */
  lemma RevocationSurvives(s: Sys, id: Id, saved: bool)
    requires id in s.store.records
    ensures var t := Apply(Apply(s, DoRevoke(id, saved)), Restart);
            (id in t.store.records && t.store.records[id].status.Revoked?) <==>
              saved || (id in OnDisk(s.store) && OnDisk(s.store)[id].status.Revoked?)
  {
  }

  /** A restart can put a status back when the save before it failed. */
  lemma FailedSaveIsForgotten(id: Id, q: Request, signature: string)
    requires ToWire(NewGrant(id, q, 0)).Ok?
    ensures var steps := [DoCreate(id, q, 0, Some(signature), true), DoRevoke(id, false), Restart];
            Legal(EMPTY, steps) && id in Exec(EMPTY, steps).store.records &&
            Exec(EMPTY, steps).store.records[id].status.Pending?
  {
    var a, b := DoCreate(id, q, 0, Some(signature), true), DoRevoke(id, false);
    var s1 := Apply(EMPTY, a);
    var s2 := Apply(s1, b);
    assert [a, b, Restart][1..] == [b, Restart] && [b, Restart][1..] == [Restart] && [Restart][1..] == [];
    assert Legal(s2, [Restart]) && Exec(s2, [Restart]) == Apply(s2, Restart);
    assert Legal(s1, [b, Restart]) && Exec(s1, [b, Restart]) == Apply(s2, Restart);
  }

  // ----- the limit is reached -----

  /** How many of k further uses succeed, each at the same time, saved and issued. */
  function Granted(s: Store, id: Id, joiner: Utf8.Text, now: u64, k: nat): nat
    decreases k
  {
    if k == 0 then 0
    else
      var (t, r) := Use(s, id, joiner, now, true, true);
      Granted(t, id, joiner, now, k - 1) + if r.Ok? then 1 else 0
  }

  lemma {:induction false} GrantedFrom(s: Store, id: Id, joiner: Utf8.Text, now: u64, k: nat)
    requires id in s.records && !IsExpired(s.records[id].grant, now) && !s.records[id].status.Revoked?
    requires RecordOk(s.records[id], s.records[id].grant.maxUses)
    ensures var r := s.records[id];
            Granted(s, id, joiner, now, k) == if r.grant.maxUses > 0 && r.usesRemaining < k then r.usesRemaining else k
    decreases k
  {
    if k > 0 {
      var t := Use(s, id, joiner, now, true, true).0;
      GrantedFrom(t, id, joiner, now, k - 1);
    }
  }

  /**
   Nothing is withheld, after any run: of k uses of an unexpired, unrevoked invite exactly as
   many succeed as uses remain.
   */
  lemma LimitIsReached(steps: seq<Step>, id: Id, joiner: Utf8.Text, now: u64, k: nat)
    requires Legal(EMPTY, steps) && id in Exec(EMPTY, steps).store.records
    requires var r := Exec(EMPTY, steps).store.records[id]; !IsExpired(r.grant, now) && !r.status.Revoked?
    ensures var s := Exec(EMPTY, steps).store;
            var r := s.records[id];
            Granted(s, id, joiner, now, k)
            == if r.grant.maxUses == 0 || k <= r.grant.maxUses - |r.usedBy| then k else r.grant.maxUses - |r.usedBy|
  {
    RunKeeps(EMPTY, steps, id);
    hide Exec, Legal, Granted, RevocationOk;
    GrantedFrom(Exec(EMPTY, steps).store, id, joiner, now, k);
  }

  // ----- the time to live -----

  /** The sum of time and time to live is u64 arithmetic: what becomes of the expiry, for every input. */
  lemma ExpiryExact(id: Id, q: Request, now: u64)
    requires q.ttl.Some?
    ensures var g, sum := NewGrant(id, q, now), now + q.ttl.value;
            && (g.expiresAt == sum <==> sum < U64_LIMIT)
            && (IsExpired(g, now) <==> sum > U64_LIMIT)
            && (g.expiresAt == 0 <==> sum == U64_LIMIT || sum == 0)
  {
    var sum := now + q.ttl.value;
    if sum >= U64_LIMIT {
      assert sum % U64_LIMIT == sum - U64_LIMIT;
    } else {
      assert sum % U64_LIMIT == sum;
    }
  }

  /** The longest time to live gives an invite that is created and can never be used. */
  lemma LongestTtlIsBornExpired(id: Id, q: Request, now: u64, signature: string, joiner: Utf8.Text)
    requires now > 1 && q.ttl == Some(U64_LIMIT - 1) && ToWire(NewGrant(id, q, now)).Ok?
    ensures var (s, r) := Create(Load(None), id, q, now, Some(signature), true);
            r.Ok? && Use(s, id, joiner, now, true, true) == (s, Err(Expired))
  {
    ExpiryExact(id, q, now);
    hide ToWire;
  }
}
