/** What the records and memberships of the invite store say, against what was asked for and what was told. */
module InviteHistory {
  import opened Prelude
  import opened InviteWire
  import opened InviteStore
  import Utf8

  // ----- what was asked for -----

  /** When an invite asked for then expires: never when no time to live was given, otherwise at the u64 sum. */
  function ExpiryOf(a: Asked): u64 { if a.q.ttl.Some? then (a.at + a.q.ttl.value) % U64_LIMIT else 0 }

  /** The grant carries what was asked for, word for word. */
  predicate AsAsked(g: Grant, id: Id, a: Asked) {
    && g.version == 3 && g.inviteId == Hyphenated(id)
    && g.inviter == a.q.inviter && g.meshName == a.q.meshName
    && g.maxUses == a.q.maxUses && g.canInvite == a.q.canInvite && g.role == a.q.role
    && g.expiresAt == ExpiryOf(a)
  }

  /**
   A creation succeeds exactly when the grant can be written and signed and the save works. What comes back
   is what was asked for, expiring never without a time to live, and so is the record, with all its uses.
   */
  lemma CreateExact(s: Store, id: Id, q: Request, now: u64, signature: Option<string>, saved: bool)
    ensures var (t, r) := Create(s, id, q, now, signature, saved);
            var written := !q.inviter.NotPeerId? && (q.meshName.Some? ==> |q.meshName.value| <= 255);
            && (r.Ok? <==> written && signature.Some? && saved)
            && (r.Ok? ==> AsAsked(r.value.grant, id, Asked(q, now)) && signature == Some(r.value.signature))
            && (r.Ok? && q.ttl.None? ==> forall at :: !IsExpired(r.value.grant, at))
            && (if written && signature.Some? then
                  && id in t.records && t.records == s.records[id := t.records[id]]
                  && AsAsked(t.records[id].grant, id, Asked(q, now)) && t.records[id].createdAt == now
                  && t.records[id].usesRemaining == q.maxUses && t.records[id].usedBy == []
                  && t.records[id].status == Pending
                  && t.disk == (if saved then Some(t.records) else s.disk)
                else t == s && r == Err(if written then SigningFailed else NotEncodable))
  {
  }

  /** Every copy of the record carries the request that created the invite, and so does every membership. */
  ghost predicate RecordsAsAsked(s: Sys, id: Id) {
    && (id in s.store.records ==>
          && id in s.asked && AsAsked(s.store.records[id].grant, id, s.asked[id])
          && s.store.records[id].createdAt == s.asked[id].at)
    && (id in OnDisk(s.store) ==>
          && id in s.asked && AsAsked(OnDisk(s.store)[id].grant, id, s.asked[id])
          && OnDisk(s.store)[id].createdAt == s.asked[id].at)
  }

  predicate MemberAsAsked(s: Sys, m: Membership) {
    && m.invite in s.asked
    && m.canInvite == s.asked[m.invite].q.canInvite && m.role == s.asked[m.invite].q.role
    && m.expiresAt == ExpiryOf(s.asked[m.invite])
    && Used(m.invite, m.peerId) in s.told
  }

  ghost predicate AllAsAsked(s: Sys) {
    && (forall id: Id :: RecordsAsAsked(s, id))
    && (forall m :: m in s.members ==> MemberAsAsked(s, m))
  }

  lemma UseKeepsGrants(s: Store, id: Id, joiner: Utf8.Text, now: u64, saved: bool, issued: bool, other: Id)
    ensures var t := Use(s, id, joiner, now, saved, issued).0;
            && (other in t.records <==> other in s.records)
            && (other in s.records ==> t.records[other].grant == s.records[other].grant
                                       && t.records[other].createdAt == s.records[other].createdAt)
            && (t.disk == s.disk || t.disk == Some(t.records))
  {
  }

  lemma RevokeKeepsGrants(s: Store, id: Id, saved: bool, other: Id)
    ensures var t := Revoke(s, id, saved).0;
            && (other in t.records <==> other in s.records)
            && (other in s.records ==> t.records[other].grant == s.records[other].grant
                                       && t.records[other].createdAt == s.records[other].createdAt)
            && (t.disk == s.disk || t.disk == Some(t.records))
  {
  }

  lemma GrantsStay(s: Sys, s': Sys, id: Id)
    requires RecordsAsAsked(s, id) && s'.asked == s.asked
    requires id in s'.store.records <==> id in s.store.records
    requires id in s.store.records ==> s'.store.records[id].grant == s.store.records[id].grant
                                       && s'.store.records[id].createdAt == s.store.records[id].createdAt
    requires s'.store.disk == s.store.disk || s'.store.disk == Some(s'.store.records)
    ensures RecordsAsAsked(s', id)
  {
    hide AsAsked;
  }

  lemma CreateAsAsked(s: Sys, step: Step, id: Id)
    requires RecordsAsAsked(s, id) && Enabled(s, step) && step.DoCreate?
    ensures RecordsAsAsked(Apply(s, step), id)
  {
    CreateExact(s.store, step.id, step.q, step.now, step.signature, step.saved);
    var t := Apply(s, step);
    hide Create, AsAsked, IsExpired;
    assert id in s.store.records ==> id != step.id;
  }

  lemma StepAsAsked(s: Sys, step: Step, id: Id)
    requires RecordsAsAsked(s, id) && Enabled(s, step)
    ensures RecordsAsAsked(Apply(s, step), id)
  {
    hide AsAsked;
    var t := Apply(s, step);
    match step
    case DoCreate(_, _, _, _, _) => CreateAsAsked(s, step, id);
    case DoAdmit(i, joiner, host, now, _, saved, signature) =>
      UseKeepsGrants(s.store, i, joiner, now, saved, CanIssue(joiner, host, signature), id);
      hide Use, RecordsAsAsked;
      GrantsStay(s, t, id);
    case DoConsume(i, joiner, now, saved) =>
      UseKeepsGrants(s.store, i, joiner, now, saved, true, id);
      hide Use, RecordsAsAsked;
      GrantsStay(s, t, id);
    case DoRevoke(i, saved) =>
      RevokeKeepsGrants(s.store, i, saved, id);
      hide Revoke, RecordsAsAsked;
      GrantsStay(s, t, id);
    case Restart =>
  }

  /**
   Admitting a peer is a use, which counts as issued when the three texts of the token fit and signing works; the
   token it returns names the mesh, the peer, the admitting side and the invite, with the grant's permissions.
   */
  lemma AdmitExact(s: Store, id: Id, joiner: Utf8.Text, host: Admitter, now: u64, issuedAt: u64, saved: bool,
      signature: Option<string>)
    ensures var (t, r) := Admit(s, id, joiner, host, now, issuedAt, saved, signature);
            var fits := |host.meshId| <= 65535 && |joiner| <= 65535 && |host.peerId| <= 65535;
            var (u, used) := Use(s, id, joiner, now, saved, fits && signature.Some?);
            && t == u && (used.Err? ==> r == Err(used.error))
            && (used.Ok? ==>
                  && id in s.records && signature.Some?
                  && var g := s.records[id].grant;
                  r == Ok(Membership(host.meshId, joiner, host.peerId, id, g.canInvite, g.role, issuedAt, g.expiresAt,
                                     signature.value)))
  {
  }

  /** A membership handed out by a step carries the grant of its invite. */
  lemma NewMember(s: Sys, step: Step)
    requires step.DoAdmit? && Apply(s, step).members != s.members
    ensures var t := Apply(s, step);
            && step.id in s.store.records && t.told == s.told + [Used(step.id, step.joiner)]
            && var g := s.store.records[step.id].grant;
            && step.signature.Some?
            && t.members == s.members + [Membership(step.host.meshId, step.joiner, step.host.peerId, step.id,
                 g.canInvite, g.role, step.issuedAt, g.expiresAt, step.signature.value)]
  {
    AdmitExact(s.store, step.id, step.joiner, step.host, step.now, step.issuedAt, step.saved, step.signature);
    hide Admit, Use;
  }

  lemma MembersAsAsked(s: Sys, step: Step)
    requires AllAsAsked(s) && Enabled(s, step)
    ensures forall m :: m in Apply(s, step).members ==> MemberAsAsked(Apply(s, step), m)
  {
    var t := Apply(s, step);
    forall m | m in t.members
      ensures MemberAsAsked(t, m)
    {
      AskedStays(s, step, m.invite);
      if m in s.members {
        assert MemberAsAsked(s, m);
      } else {
        NewMember(s, step);
        assert RecordsAsAsked(s, step.id);
      }
      hide Apply, AllAsAsked;
    }
  }

  lemma AskedStays(s: Sys, step: Step, id: Id)
    requires Enabled(s, step)
    ensures id in s.asked ==> id in Apply(s, step).asked && Apply(s, step).asked[id] == s.asked[id]
    ensures s.told <= Apply(s, step).told
    ensures !step.DoAdmit? ==> Apply(s, step).members == s.members
  {
    hide Create, Use, Revoke, Admit;
  }

  lemma {:induction false} RunAsAsked(s: Sys, steps: seq<Step>)
    requires Legal(s, steps) && AllAsAsked(s)
    ensures AllAsAsked(Exec(s, steps))
    decreases |steps|
  {
    hide RecordsAsAsked, MemberAsAsked, Enabled, Apply;
    if steps != [] {
      forall id: Id
        ensures RecordsAsAsked(Apply(s, steps[0]), id)
      {
        assert RecordsAsAsked(s, id);
        StepAsAsked(s, steps[0], id);
      }
      MembersAsAsked(s, steps[0]);
      RunAsAsked(Apply(s, steps[0]), steps[1..]);
    }
  }

  /**
   Over every run, restarts and failing saves included: a membership handed out carries the permissions asked
   for when its invite was created, and the expiry that follows from that request.
   */
  lemma MembershipIsAsAsked(steps: seq<Step>, m: Membership)
    requires Legal(EMPTY, steps) && m in Exec(EMPTY, steps).members
    ensures var s := Exec(EMPTY, steps);
            && m.invite in s.asked
            && m.canInvite == s.asked[m.invite].q.canInvite && m.role == s.asked[m.invite].q.role
            && m.expiresAt == ExpiryOf(s.asked[m.invite])
            && Used(m.invite, m.peerId) in s.told
  {
    RunAsAsked(EMPTY, steps);
  }

  /** Over every run, the record of an invite in memory is as it was asked for. */
  lemma RecordIsAsAsked(steps: seq<Step>, id: Id)
    requires Legal(EMPTY, steps) && id in Exec(EMPTY, steps).store.records
    ensures var s := Exec(EMPTY, steps);
            && id in s.asked && AsAsked(s.store.records[id].grant, id, s.asked[id])
            && s.store.records[id].createdAt == s.asked[id].at
  {
    RunAsAsked(EMPTY, steps);
    assert RecordsAsAsked(Exec(EMPTY, steps), id);
  }

  /**
   Over every run, what a use now comes to: found, not revoked, not used up, not expired by the request that
   created the invite, saved, and issued, in this order, and accepted when all of these hold.
   */
  lemma UseExact(steps: seq<Step>, id: Id, joiner: Utf8.Text, now: u64, saved: bool, issued: bool)
    requires Legal(EMPTY, steps)
    ensures var s := Exec(EMPTY, steps);
            var r := Use(s.store, id, joiner, now, saved, issued).1;
            && (r == Err(NotFound) <==> id !in s.store.records)
            && (id in s.store.records ==>
                  && id in s.asked
                  && var status, expiry := s.store.records[id].status, ExpiryOf(s.asked[id]);
                  var good := status == Pending && (expiry == 0 || now <= expiry);
                  && (r == Err(InviteRevoked) <==> status == Revoked)
                  && (r == Err(InviteConsumed) <==> status == Consumed)
                  && (r == Err(Expired) <==> status == Pending && expiry != 0 && now > expiry)
                  && (r == Err(SaveFailed) <==> good && !saved)
                  && (r == Err(SigningFailed) <==> good && saved && !issued)
                  && (r == Ok(()) <==> good && saved && issued))
  {
    RunKeeps(EMPTY, steps, id);
    var s := Exec(EMPTY, steps);
    if id in s.store.records {
      RecordIsAsAsked(steps, id);
    }
    assert InviteOk(s, id);
    hide Exec, Legal, ExpiryOf, RevocationOk, Uses;
  }

  /**
   What a use does to any store, also one read from a file written by hand: an accepted use takes one off a
   limited invite, consumes it with the last one and records the peer; a pending invite found without uses is
   consumed and refused; every other use leaves the store alone. No other invite is touched.
   */
  lemma UseEffect(s: Store, id: Id, joiner: Utf8.Text, now: u64, saved: bool, issued: bool)
    ensures var (t, r) := Use(s, id, joiner, now, saved, issued);
            var open := id in s.records && s.records[id].status == Pending && !IsExpired(s.records[id].grant, now);
            && (!open ==> t == s && r.Err?)
            && (open ==>
                  var was, limited := s.records[id], s.records[id].grant.maxUses > 0;
                  && t.records.Keys == s.records.Keys
                  && (forall other :: other in s.records && other != id ==> t.records[other] == s.records[other])
                  && t.disk == (if saved then Some(t.records) else s.disk)
                  && (if limited && was.usesRemaining == 0 then
                        && t.records[id] == was.(status := Consumed)
                        && r == Err(if saved then InviteConsumed else SaveFailed)
                      else
                        && t.records[id].grant == was.grant && t.records[id].createdAt == was.createdAt
                        && t.records[id].usedBy == was.usedBy + [joiner]
                        && r == (if !saved then Err(SaveFailed) else if issued then Ok(()) else Err(SigningFailed))
                        && t.records[id].usesRemaining == was.usesRemaining - (if limited then 1 else 0)
                        && t.records[id].status == (if limited && was.usesRemaining == 1 then Consumed else Pending)))
  {
  }

  // ----- who has used an invite -----

  /** The peers a use of the invite was reported to, in order. */
  function Users(told: seq<Event>, id: Id): seq<Utf8.Text> {
    if told == [] then []
    else
      var front, last := Users(told[..|told| - 1], id), told[|told| - 1];
      if last.Used? && last.id == id then front + [last.joiner] else front
  }

  /** The elements of `a` occur in `b`, in this order. */
  predicate Within<T(==)>(a: seq<T>, b: seq<T>)
    decreases |b|
  {
    a == [] ||
    (b != [] &&
     (Within(a, b[..|b| - 1]) || (a[|a| - 1] == b[|b| - 1] && Within(a[..|a| - 1], b[..|b| - 1]))))
  }

  lemma {:induction false} WithinExtends<T>(a: seq<T>, b: seq<T>, c: seq<T>)
    requires Within(a, b) && b <= c
    ensures Within(a, c)
    decreases |c|
  {
    if |b| < |c| {
      WithinExtends(a, b, c[..|c| - 1]);
    } else {
      assert b == c;
    }
  }

  lemma WithinSnoc<T>(a: seq<T>, b: seq<T>, x: T)
    requires Within(a, b)
    ensures Within(a + [x], b + [x])
  {
    SnocFront(a, x);
    SnocFront(b, x);
  }

  /** The file lists the users told of, maybe among others, and memory goes on from the file. */
  predicate UsersOk(s: Sys, id: Id) {
    var mem, disk := s.store.records, OnDisk(s.store);
    && (id in disk ==>
          id in mem && disk[id].usedBy <= mem[id].usedBy && Within(Users(s.told, id), disk[id].usedBy))
    && (id !in disk ==> Users(s.told, id) == [])
    && (id in mem ==> id in s.asked)
  }

  lemma UsersSnoc(told: seq<Event>, e: Event, id: Id)
    ensures Users(told + [e], id) == Users(told, id) + if e.Used? && e.id == id then [e.joiner] else []
  {
    SnocFront(told, e);
  }

  lemma UseRecords(s: Sys, id: Id, joiner: Utf8.Text, now: u64, saved: bool, issued: bool, other: Id)
    requires UsersOk(s, other)
    ensures var (store, r) := Use(s.store, id, joiner, now, saved, issued);
            UsersOk(Tell(s, store, r.Ok?, Used(id, joiner)), other)
  {
    hide Users, Within;
    UsersSnoc(s.told, Used(id, joiner), other);
    UseEffect(s.store, id, joiner, now, saved, issued);
    hide Use, IsExpired;
    assert Users(s.told, other) + [] == Users(s.told, other);
    if other in s.store.records {
      UsersSoFar(s, other, joiner);
      var mem := s.store.records[other].usedBy;
      assert mem <= mem + [joiner];
      if other in OnDisk(s.store) {
        var disk := OnDisk(s.store)[other].usedBy;
        assert mem + [joiner] == disk + (mem[|disk|..] + [joiner]);
      }
    }
  }

  /** The users told of are among those in memory, with and without one more. */
  lemma UsersSoFar(s: Sys, id: Id, joiner: Utf8.Text)
    requires UsersOk(s, id) && id in s.store.records
    ensures var users, mem := Users(s.told, id), s.store.records[id].usedBy;
            && Within(users, mem) && Within(users, mem + [joiner]) && Within(users + [joiner], mem + [joiner])
  {
    hide Users, Within;
    var users, mem := Users(s.told, id), s.store.records[id].usedBy;
    if id in OnDisk(s.store) {
      WithinExtends(users, OnDisk(s.store)[id].usedBy, mem);
    } else {
      NoneWithin(mem);
    }
    WithinExtends(users, mem, mem + [joiner]);
    WithinSnoc(users, mem, joiner);
  }

  lemma NoneWithin<T>(b: seq<T>)
    ensures Within([], b)
  {
  }

  lemma RevokeRecords(s: Sys, id: Id, saved: bool, other: Id)
    requires UsersOk(s, other)
    ensures UsersOk(Apply(s, DoRevoke(id, saved)), other)
  {
    UsersSnoc(s.told, Cancelled(id), other);
    if other in OnDisk(s.store) {
      WithinExtends(Users(s.told, other), OnDisk(s.store)[other].usedBy, s.store.records[other].usedBy);
    }
    hide Users, Within;
  }

  lemma StepRecords(s: Sys, step: Step, id: Id)
    requires Enabled(s, step) && UsersOk(s, id)
    ensures UsersOk(Apply(s, step), id)
  {
    hide Users, Within;
    match step
    case DoAdmit(i, joiner, host, now, issuedAt, saved, signature) =>
      UseRecords(s, i, joiner, now, saved, CanIssue(joiner, host, signature), id);
      AdmitIsUse(s, step);
      hide Apply, Use, Tell;
    case DoConsume(i, joiner, now, saved) => UseRecords(s, i, joiner, now, saved, true, id);
    case DoRevoke(i, saved) => RevokeRecords(s, i, saved, id);
    case DoCreate(_, _, _, _, _) =>
      if id in OnDisk(s.store) {
        WithinExtends(Users(s.told, id), OnDisk(s.store)[id].usedBy, s.store.records[id].usedBy);
      } else if id in Apply(s, step).store.records {
        NoneWithin(Apply(s, step).store.records[id].usedBy);
      }
    case Restart =>
  }

  lemma {:induction false} RunRecords(s: Sys, steps: seq<Step>, id: Id)
    requires Legal(s, steps) && UsersOk(s, id)
    ensures UsersOk(Exec(s, steps), id)
    decreases |steps|
  {
    hide UsersOk, Enabled, Apply;
    if steps != [] {
      StepRecords(s, steps[0], id);
      RunRecords(Apply(s, steps[0]), steps[1..], id);
    }
  }

  /** Over every run, the peers a use was reported to are recorded with the invite, in order, in memory and on disk. */
  lemma UsersAreRecorded(steps: seq<Step>, id: Id)
    requires Legal(EMPTY, steps) && Users(Exec(EMPTY, steps).told, id) != []
    ensures var s := Exec(EMPTY, steps);
            && id in s.store.records && Within(Users(s.told, id), s.store.records[id].usedBy)
            && id in OnDisk(s.store) && Within(Users(s.told, id), OnDisk(s.store)[id].usedBy)
  {
    RunRecords(EMPTY, steps, id);
    var s := Exec(EMPTY, steps);
    hide Users, Exec, Legal;
    WithinExtends(Users(s.told, id), OnDisk(s.store)[id].usedBy, s.store.records[id].usedBy);
  }
}
