/**
 Concurrent emitters and a subscriber that joins a replay of the journal with the live fanout.

 An emitter stores its event in one step and publishes it in a later one; one that is dropped in
 between leaves an event that is stored and never published.
 */
module EventTheorems {
  import opened Prelude
  import opened EventSink

  /**
   `emitting` holds the events stored by emitters that have not published them yet, `abandoned`
   those that never will be.
   */
  datatype Sys = Sys(journal: Journal, fanout: seq<Envelope>, emitting: map<nat, DurableEvent>,
      abandoned: set<DurableEvent>)

  const INITIAL := Sys(EMPTY, [], map[], {})

  datatype Step =
    | Store(thread: nat, e: NewEvent, fate: Fate)
    | Publish(thread: nat)
    | Abandon(thread: nat)
    | EmitEphemeral(e: NewEvent, now: int)

  predicate Enabled(s: Sys, step: Step) {
    match step
    case Store(t, e, fate) => t !in s.emitting
    case Publish(t) => t in s.emitting
    case Abandon(t) => t in s.emitting
    case EmitEphemeral(e, now) => true
  }

  function Apply(s: Sys, step: Step): Sys
    requires Enabled(s, step)
  {
    match step
    case Store(t, e, fate) =>
      var (journal, r) := Append(s.journal, e, fate);
      s.(journal := journal, emitting := if r.Ok? then s.emitting[t := r.value] else s.emitting)
    case Publish(t) => s.(fanout := s.fanout + [Durable(s.emitting[t])], emitting := s.emitting - {t})
    case Abandon(t) => s.(abandoned := s.abandoned + {s.emitting[t]}, emitting := s.emitting - {t})
    case EmitEphemeral(e, now) => s.(fanout := s.fanout + [Ephemeral(EphemeralEvent(now, e))])
  }

  predicate Legal(s: Sys, steps: seq<Step>)
    decreases |steps|
  {
    steps == [] || (Enabled(s, steps[0]) && Legal(Apply(s, steps[0]), steps[1..]))
  }

  function Exec(s: Sys, steps: seq<Step>): Sys
    requires Legal(s, steps)
    decreases |steps|
  {
    if steps == [] then s else Exec(Apply(s, steps[0]), steps[1..])
  }

  // ----- the invariant -----

  /** Every durable envelope on the fanout is journalled. */
  ghost predicate PublishedIsStored(s: Sys) {
    forall e :: Durable(e) in s.fanout ==> e in s.journal.rows
  }

  /** No durable envelope appears twice. */
  predicate Distinct(envelopes: seq<Envelope>) {
    forall i, j :: 0 <= i < j < |envelopes| && envelopes[i].Durable? ==> envelopes[i] != envelopes[j]
  }

  predicate PublishedOnce(s: Sys) { Distinct(s.fanout) }

  predicate EmittingIsStored(s: Sys) {
    && (forall t :: t in s.emitting ==> s.emitting[t] in s.journal.rows && Durable(s.emitting[t]) !in s.fanout)
    && (forall t, u :: t in s.emitting && u in s.emitting && t != u ==> s.emitting[t] != s.emitting[u])
    && (forall e :: e in s.abandoned ==> e in s.journal.rows && Durable(e) !in s.fanout)
    && (forall t :: t in s.emitting ==> s.emitting[t] !in s.abandoned)
  }

  predicate BeingEmitted(s: Sys, e: DurableEvent) { exists t :: t in s.emitting && s.emitting[t] == e }

  /** A row is on the fanout unless its emitter has yet to publish it or was dropped. */
  predicate Accounted(s: Sys) {
    forall e :: e in s.journal.rows ==> Durable(e) in s.fanout || BeingEmitted(s, e) || e in s.abandoned
  }

  ghost predicate Inv(s: Sys) {
    && Ascending(s.journal.rows, s.journal.next)
    && PublishedIsStored(s) && PublishedOnce(s) && EmittingIsStored(s) && Accounted(s)
  }

  /** Rows and envelopes are only ever added, and added rows carry new numbers. */
  ghost predicate Grows(s: Sys, t: Sys) {
    && s.fanout <= t.fanout && s.journal.rows <= t.journal.rows && s.journal.next <= t.journal.next
    && (forall e :: e in t.journal.rows && e.num < s.journal.next ==> e in s.journal.rows)
    && s.abandoned <= t.abandoned
  }

  /** The stored row is new, and its emitter has yet to publish it. */
  lemma StoreAdds(s: Sys, step: Step)
    requires Ascending(s.journal.rows, s.journal.next)
    requires Enabled(s, step) && step.Store? && step.fate.Inserted?
    ensures var s' := Apply(s, step);
            && step.thread in s'.emitting
            && var row := s'.emitting[step.thread];
            && s' == s.(journal := s'.journal, emitting := s.emitting[step.thread := row])
            && s'.journal.rows == s.journal.rows + [row]
            && row.num == s.journal.next < s'.journal.next
            && Ascending(s'.journal.rows, s'.journal.next)
            && step.thread !in s.emitting && row !in s.journal.rows
  {
  }

  lemma StoreKeeps(s: Sys, step: Step)
    requires Inv(s) && Enabled(s, step) && step.Store? && step.fate.Inserted?
    ensures Inv(Apply(s, step)) && Grows(s, Apply(s, step))
  {
    hide Enabled, Apply, Ascending;
    var s' := Apply(s, step);
    StoreAdds(s, step);
    var row := s'.emitting[step.thread];
    assert forall e :: e in s'.journal.rows <==> e in s.journal.rows || e == row;
    forall e | e in s'.journal.rows
      ensures Durable(e) in s'.fanout || BeingEmitted(s', e) || e in s'.abandoned
    {
      if e != row && BeingEmitted(s, e) {
        var t :| t in s.emitting && s.emitting[t] == e;
        assert s'.emitting[t] == e;
      } else if e == row {
        assert s'.emitting[step.thread] == e;
      }
    }
  }

  lemma PublishKeeps(s: Sys, step: Step)
    requires Inv(s) && Enabled(s, step) && step.Publish?
    ensures Inv(Apply(s, step)) && Grows(s, Apply(s, step))
  {
    var s' := Apply(s, step);
    var row := s.emitting[step.thread];
    assert s'.fanout == s.fanout + [Durable(row)];
    assert Durable(row) in s'.fanout by {
      assert s'.fanout[|s.fanout|] == Durable(row);
    }
    forall e | e in s'.journal.rows
      ensures Durable(e) in s'.fanout || BeingEmitted(s', e) || e in s'.abandoned
    {
      if BeingEmitted(s, e) && e != row {
        var t :| t in s.emitting && s.emitting[t] == e;
        assert s'.emitting[t] == e;
      }
    }
  }

  lemma AbandonKeeps(s: Sys, step: Step)
    requires Inv(s) && Enabled(s, step) && step.Abandon?
    ensures Inv(Apply(s, step)) && Grows(s, Apply(s, step))
  {
    var s' := Apply(s, step);
    var row := s.emitting[step.thread];
    forall e | e in s'.journal.rows
      ensures Durable(e) in s'.fanout || BeingEmitted(s', e) || e in s'.abandoned
    {
      if BeingEmitted(s, e) && e != row {
        var t :| t in s.emitting && s.emitting[t] == e;
        assert s'.emitting[t] == e;
      }
    }
  }

  lemma StepKeeps(s: Sys, step: Step)
    requires Inv(s) && Enabled(s, step)
    ensures Inv(Apply(s, step)) && Grows(s, Apply(s, step))
  {
    if step.Store? && step.fate.Inserted? {
      StoreKeeps(s, step);
    } else if step.Publish? {
      PublishKeeps(s, step);
    } else if step.Abandon? {
      AbandonKeeps(s, step);
    }
  }

  lemma {:induction false} RunKeeps(s: Sys, steps: seq<Step>)
    requires Inv(s) && Legal(s, steps)
    ensures Inv(Exec(s, steps)) && Grows(s, Exec(s, steps))
    decreases |steps|
  {
    hide Inv, Enabled, Apply;
    if steps != [] {
      StepKeeps(s, steps[0]);
      RunKeeps(Apply(s, steps[0]), steps[1..]);
    }
  }

  /**
   However the emitters interleave: a durable envelope on the fanout is journalled, none appears
   twice, and a journalled event is missing only while its publish is pending or when it was dropped.
   */
  lemma FanoutIsJournalled(steps: seq<Step>)
    requires Legal(INITIAL, steps)
    ensures var s := Exec(INITIAL, steps);
            && (forall e :: Durable(e) in s.fanout ==> e in s.journal.rows)
            && (forall i, j :: 0 <= i < j < |s.fanout| && s.fanout[i].Durable? ==> s.fanout[i] != s.fanout[j])
            && (forall e :: e in s.journal.rows ==>
                  (Durable(e) !in s.fanout <==> e in s.abandoned || exists t :: t in s.emitting && s.emitting[t] == e))
  {
    ReachableInv(steps);
    var s := Exec(INITIAL, steps);
    forall e | e in s.journal.rows
      ensures Durable(e) !in s.fanout <==> e in s.abandoned || BeingEmitted(s, e)
    {
    }
  }

  lemma ReachableInv(steps: seq<Step>)
    requires Legal(INITIAL, steps)
    ensures Inv(Exec(INITIAL, steps))
  {
    RunKeeps(INITIAL, steps);
  }

  // ----- replay joined with live delivery -----

  /** The durable events of a session beyond a cursor among some envelopes, in delivery order. */
  function Live(envelopes: seq<Envelope>, session: string, cursor: int): seq<DurableEvent> {
    if envelopes == [] then []
    else
      var front, last := Live(envelopes[..|envelopes| - 1], session, cursor), envelopes[|envelopes| - 1];
      if last.Durable? && Matches(last.stored, session, cursor) then front + [last.stored] else front
  }

  lemma {:induction false} LiveExact(envelopes: seq<Envelope>, session: string, cursor: int)
    requires Distinct(envelopes)
    ensures forall e :: e in Live(envelopes, session, cursor) <==>
              Durable(e) in envelopes && Matches(e, session, cursor)
    ensures forall i, j :: 0 <= i < j < |Live(envelopes, session, cursor)| ==>
              Live(envelopes, session, cursor)[i] != Live(envelopes, session, cursor)[j]
  {
    if envelopes != [] {
      var front, last := envelopes[..|envelopes| - 1], envelopes[|envelopes| - 1];
      assert envelopes == front + [last];
      LiveExact(front, session, cursor);
      assert last.Durable? ==> last !in front;
    }
  }

  /** The rows that the stores of a run insert: in order, with the event passed in, numbers spent even on failures. */
  function Inserts(steps: seq<Step>, next: nat): seq<DurableEvent> {
    if steps == [] then []
    else if !steps[0].Store? || steps[0].fate.NotReached? then Inserts(steps[1..], next)
    else if steps[0].fate.InsertFailed? then Inserts(steps[1..], next + 1)
    else
      [DurableEvent(steps[0].fate.id, next, steps[0].fate.timestamp, steps[0].e)] + Inserts(steps[1..], next + 1)
  }

  lemma {:induction false} RunInserts(s: Sys, steps: seq<Step>)
    requires Legal(s, steps)
    ensures Exec(s, steps).journal.rows == s.journal.rows + Inserts(steps, s.journal.next)
    decreases |steps|
  {
    if steps != [] {
      var t := Apply(s, steps[0]);
      RunInserts(t, steps[1..]);
      hide Exec, Legal, Enabled;
    }
  }

  /** After any run the journal holds just what emitters stored, in the order in which they stored it. */
  lemma JournalExact(steps: seq<Step>)
    requires Legal(INITIAL, steps)
    ensures Exec(INITIAL, steps).journal.rows == Inserts(steps, 1)
  {
    RunInserts(INITIAL, steps);
    assert [] + Inserts(steps, 1) == Inserts(steps, 1);
  }

  lemma ReachableJournal(steps: seq<Step>)
    requires Legal(INITIAL, steps)
    ensures var j := Exec(INITIAL, steps).journal; Ascending(j.rows, j.next)
  {
    ReachableInv(steps);
  }

  /**
   After any run, a replay of a session without cursor and limit holds, in ascending order, all its rows when
   there are at most 10,000 of them, and otherwise the first 10,000.
   */
  lemma ReplayExact(steps: seq<Step>, session: string)
    requires Legal(INITIAL, steps)
    ensures var j := Exec(INITIAL, steps).journal;
            var page, mine := LoadSessionStream(j, session, None, None), SessionRows(j, session);
            && (forall i, k :: 0 <= i < k < |page| ==> page[i].num < page[k].num)
            && (forall e :: e in page ==> e in mine)
            && (|mine| <= 10_000 ==> forall e :: e in mine ==> e in page)
            && (|mine| > 10_000 ==> |page| == 10_000 && forall d, e :: d in page && e in mine && e !in page ==>
                                                          d.num < e.num)
  {
    ReachableJournal(steps);
    hide *;
    FullReplay(Exec(INITIAL, steps).journal, session);
  }

  /** What a subscriber asks for: without a cursor from the beginning, without a limit up to 10,000 rows. */
  datatype Request = Request(session: string, after: Option<int>, limit: Option<nat>)
  {
    function From(): int { if after.Some? then after.value else 0 }
    function Most(): nat { if limit.Some? then limit.value else 10_000 }
  }

  /** It subscribes in state `s`, loads its page in state `t` and has listened until state `u`. */
  function Page(t: Sys, r: Request): seq<DurableEvent> {
    LoadSessionStream(t.journal, r.session, r.after, r.limit)
  }

  function PageCursor(t: Sys, r: Request): int { Cursor(Page(t, r), r.From()) }

  function View(s: Sys, t: Sys, u: Sys, r: Request): seq<DurableEvent>
    requires |s.fanout| <= |u.fanout|
  {
    Page(t, r) + LiveOf(s, t, u, r)
  }

  /** The three states of one join, along a run. */
  ghost predicate Joined(s: Sys, t: Sys, u: Sys) {
    Inv(s) && Inv(t) && Inv(u) && Grows(s, t) && Grows(t, u)
  }

  lemma RunsJoin(before: seq<Step>, between: seq<Step>, later: seq<Step>)
    requires Legal(INITIAL, before) && Legal(Exec(INITIAL, before), between)
    requires Legal(Exec(Exec(INITIAL, before), between), later)
    ensures var s := Exec(INITIAL, before); var t := Exec(s, between); Joined(s, t, Exec(t, later))
  {
    var s := Exec(INITIAL, before);
    RunKeeps(INITIAL, before);
    RunKeeps(s, between);
    RunKeeps(Exec(s, between), later);
  }

  lemma TailOf(a: seq<Envelope>, b: seq<Envelope>, x: Envelope)
    requires a <= b && Distinct(b) && x.Durable?
    ensures Distinct(b[|a|..])
    ensures x in b[|a|..] <==> x in b && x !in a
  {
    var tail := b[|a|..];
    assert b == a + tail;
    forall i, j | 0 <= i < j < |tail| && tail[i].Durable?
      ensures tail[i] != tail[j]
    {
      assert tail[i] == b[|a| + i] && tail[j] == b[|a| + j];
    }
    if x in tail {
      var j :| 0 <= j < |tail| && tail[j] == x;
      assert b[|a| + j] == x;
    }
  }

  lemma LivePart(s: Sys, t: Sys, u: Sys, r: Request, e: DurableEvent)
    requires Joined(s, t, u)
    ensures |s.fanout| <= |u.fanout| && Distinct(u.fanout[|s.fanout|..])
    ensures Durable(e) in u.fanout[|s.fanout|..] <==> Durable(e) in u.fanout && Durable(e) !in s.fanout
  {
    assert s.fanout <= t.fanout <= u.fanout && Distinct(u.fanout);
    hide Joined, Inv, Grows, Distinct;
    TailOf(s.fanout, u.fanout, Durable(e));
  }

  /**
   Exactly which events of the session the subscriber has: those up to its page's end, and those
   published since it subscribed.
   */
  lemma ViewExact(s: Sys, t: Sys, u: Sys, r: Request, e: DurableEvent)
    requires Joined(s, t, u)
    ensures |s.fanout| <= |u.fanout|
    ensures e in View(s, t, u, r) <==>
              && e in u.journal.rows && e.event.session == r.session && e.num > r.From()
              && (e.num <= PageCursor(t, r) || (Durable(e) in u.fanout && Durable(e) !in s.fanout))
  {
    LivePart(s, t, u, r, e);
    var page, c := Page(t, r), PageCursor(t, r);
    PageExact(t.journal, r.session, r.after, r.limit);
    var tail := u.fanout[|s.fanout|..];
    LiveExact(tail, r.session, c);
    hide Page, LoadSessionStream, Live, Distinct;
    assert e in View(s, t, u, r) <==> e in page || e in Live(tail, r.session, c);
    assert c < t.journal.next || page == [] by {
      assert page != [] ==> page[|page| - 1].num < t.journal.next;
    }
    OldRows(t, u, page, r.From(), e);
  }

  lemma OldRows(t: Sys, u: Sys, page: seq<DurableEvent>, after: int, e: DurableEvent)
    requires Grows(t, u) && (Cursor(page, after) < t.journal.next || page == [])
    ensures e in u.journal.rows && after < e.num <= Cursor(page, after) ==> e in t.journal.rows
    ensures e in t.journal.rows ==> e in u.journal.rows
  {
    if e in t.journal.rows {
      var i :| 0 <= i < |t.journal.rows| && t.journal.rows[i] == e;
      assert u.journal.rows[i] == e;
    }
  }

  function LiveOf(s: Sys, t: Sys, u: Sys, r: Request): seq<DurableEvent>
    requires |s.fanout| <= |u.fanout|
  {
    Live(u.fanout[|s.fanout|..], r.session, PageCursor(t, r))
  }

  /** The page ends where the live part begins, and neither repeats an event. */
  ghost predicate Apart(page: seq<DurableEvent>, live: seq<DurableEvent>, cursor: int, rows: seq<DurableEvent>) {
    && (forall i, j :: 0 <= i < j < |page| ==> page[i].num < page[j].num)
    && (forall i :: 0 <= i < |page| ==> page[i].num <= cursor)
    && (forall i, j :: 0 <= i < j < |live| ==> live[i] != live[j])
    && (forall i :: 0 <= i < |live| ==> live[i].num > cursor && live[i] in rows)
  }

  lemma LiveIsBeyond(s: Sys, t: Sys, u: Sys, r: Request)
    requires Joined(s, t, u) && |s.fanout| <= |u.fanout|
    ensures var live := LiveOf(s, t, u, r);
            && (forall i, j :: 0 <= i < j < |live| ==> live[i] != live[j])
            && (forall i :: 0 <= i < |live| ==> live[i].num > PageCursor(t, r) && live[i] in u.journal.rows)
  {
    var live, cursor := LiveOf(s, t, u, r), PageCursor(t, r);
    assert s.fanout <= t.fanout <= u.fanout && Distinct(u.fanout) && PublishedIsStored(u);
    hide Joined, Inv, Grows, Distinct, PublishedIsStored, PageCursor, Live;
    TailOf(s.fanout, u.fanout, Durable(DurableEvent("", 0, 0, NewEvent("", Local, None, Kind("", false)))));
    LiveExact(u.fanout[|s.fanout|..], r.session, cursor);
    forall i | 0 <= i < |live|
      ensures live[i].num > cursor && live[i] in u.journal.rows
    {
      assert live[i] in live;
      TailOf(s.fanout, u.fanout, Durable(live[i]));
      StoredWhenPublished(u, live[i]);
    }
  }

  lemma StoredWhenPublished(u: Sys, e: DurableEvent)
    requires PublishedIsStored(u) && Durable(e) in u.fanout
    ensures e in u.journal.rows
  {
  }

  lemma ViewParts(s: Sys, t: Sys, u: Sys, r: Request)
    requires Joined(s, t, u) && |s.fanout| <= |u.fanout|
    ensures Apart(Page(t, r), LiveOf(s, t, u, r), PageCursor(t, r), u.journal.rows)
  {
    var page := Page(t, r);
    LiveIsBeyond(s, t, u, r);
    PageExact(t.journal, r.session, r.after, r.limit);
    hide Joined, LiveOf;
    assert forall i :: 0 <= i < |page| ==> page[i].num <= PageCursor(t, r);
  }

  lemma ApartIsDistinct(page: seq<DurableEvent>, live: seq<DurableEvent>, cursor: int, u: Sys, i: nat, j: nat)
    requires Apart(page, live, cursor, u.journal.rows) && Ascending(u.journal.rows, u.journal.next)
    requires i < j < |page + live|
    ensures (page + live)[i].num != (page + live)[j].num
  {
    if i >= |page| {
      SameNumber(u, live[i - |page|], live[j - |page|]);
    }
  }

  /** Nothing is delivered twice. */
  lemma NothingTwice(s: Sys, t: Sys, u: Sys, r: Request, i: nat, j: nat)
    requires Joined(s, t, u) && |s.fanout| <= |u.fanout|
    requires i < j < |View(s, t, u, r)|
    ensures View(s, t, u, r)[i].num != View(s, t, u, r)[j].num
  {
    ViewParts(s, t, u, r);
    hide Page, Live, PageCursor, Apart;
    ApartIsDistinct(Page(t, r), LiveOf(s, t, u, r), PageCursor(t, r), u, i, j);
  }

  lemma SameNumber(u: Sys, d: DurableEvent, e: DurableEvent)
    requires Ascending(u.journal.rows, u.journal.next) && d in u.journal.rows && e in u.journal.rows
    ensures d.num == e.num ==> d == e
  {
  }

  /** No emitter of the session is between storing and publishing. */
  predicate Quiet(s: Sys, session: string) {
    forall t :: t in s.emitting ==> s.emitting[t].event.session != session
  }

  ghost predicate HasAll(s: Sys, t: Sys, u: Sys, r: Request)
    requires |s.fanout| <= |u.fanout|
  {
    forall e :: e in u.journal.rows && e.event.session == r.session && e.num > r.From() ==> e in View(s, t, u, r)
  }

  /** Nothing of the session beyond the page was published before the subscription. */
  ghost predicate PageReachesSubscription(s: Sys, t: Sys, r: Request) {
    forall e :: Durable(e) in s.fanout && e.event.session == r.session ==> e.num <= PageCursor(t, r)
  }

  /** No event of the session beyond the page was abandoned by its emitter. */
  ghost predicate NothingAbandoned(t: Sys, u: Sys, r: Request) {
    forall e :: e in u.abandoned && e.event.session == r.session ==> e.num <= PageCursor(t, r)
  }

  /**
   With no publish pending, the subscriber has every event exactly when its page reaches what was
   already published, and what emitters stored and never published.
   */
  lemma CompleteExactly(s: Sys, t: Sys, u: Sys, r: Request)
    requires Joined(s, t, u) && Quiet(u, r.session)
    ensures |s.fanout| <= |u.fanout|
    ensures HasAll(s, t, u, r) <==> PageReachesSubscription(s, t, r) && NothingAbandoned(t, u, r)
  {
    ViewExact(s, t, u, r, DurableEvent("", 0, 0, NewEvent("", Local, None, Kind("", false))));
    CursorBeyond(t, r);
    hide Page, PageCursor, View;
    forall e | PageReachesSubscription(s, t, r) && NothingAbandoned(t, u, r) && e in u.journal.rows
        && Matches(e, r.session, r.From())
      ensures e in View(s, t, u, r)
    {
      ViewExact(s, t, u, r, e);
      QuietIsPublished(u, r.session, e);
    }
    forall e | HasAll(s, t, u, r) && Durable(e) in s.fanout && e.event.session == r.session
      ensures e.num <= PageCursor(t, r)
    {
      ViewExact(s, t, u, r, e);
      PublishedGrows(s, t, u, e);
    }
    forall e | HasAll(s, t, u, r) && e in u.abandoned && e.event.session == r.session
      ensures e.num <= PageCursor(t, r)
    {
      ViewExact(s, t, u, r, e);
    }
  }

  lemma QuietIsPublished(u: Sys, session: string, e: DurableEvent)
    requires Inv(u) && Quiet(u, session) && e in u.journal.rows && e.event.session == session
    ensures Durable(e) in u.fanout || e in u.abandoned
  {
    if BeingEmitted(u, e) {
      assert false;
    }
  }

  lemma CursorBeyond(t: Sys, r: Request)
    requires Inv(t)
    ensures PageCursor(t, r) >= r.From()
  {
    PageExact(t.journal, r.session, r.after, r.limit);
  }

  lemma PublishedGrows(s: Sys, t: Sys, u: Sys, e: DurableEvent)
    requires Joined(s, t, u) && Durable(e) in s.fanout
    ensures e in s.journal.rows && e in t.journal.rows && e in u.journal.rows
  {
    var i :| 0 <= i < |s.journal.rows| && s.journal.rows[i] == e;
    assert t.journal.rows[i] == e;
    assert u.journal.rows[i] == e;
  }

  /** A page that was not cut off by its limit reaches everything but what was abandoned after it was read. */
  lemma UncutPageDeliversAll(s: Sys, t: Sys, u: Sys, r: Request)
    requires Joined(s, t, u) && Quiet(u, r.session) && |Page(t, r)| < r.Most()
    ensures |s.fanout| <= |u.fanout|
    ensures HasAll(s, t, u, r) <==>
              forall e :: e in u.abandoned && e.event.session == r.session ==> e in t.journal.rows || e.num <= r.From()
  {
    CompleteExactly(s, t, u, r);
    PageExact(t.journal, r.session, r.after, r.limit);
    CursorBeyond(t, r);
    forall e | Durable(e) in s.fanout && e.event.session == r.session
      ensures e.num <= PageCursor(t, r)
    {
      PublishedGrows(s, t, u, e);
      StoredIsReached(t, r, e);
    }
    forall e | e in u.abandoned && e.event.session == r.session
      ensures e.num <= PageCursor(t, r) <==> e in t.journal.rows || e.num <= r.From()
    {
      if e in t.journal.rows {
        StoredIsReached(t, r, e);
      } else {
        OldRows(t, u, Page(t, r), r.From(), e) by {
          PageEndsInside(t, r);
        }
      }
    }
    hide Page, PageCursor, View, HasAll;
  }

  lemma PageEndsInside(t: Sys, r: Request)
    requires Inv(t)
    ensures PageCursor(t, r) < t.journal.next || Page(t, r) == []
  {
    PageExact(t.journal, r.session, r.after, r.limit);
  }

  /** With the limit not reached, what was stored is on the page or before its cursor. */
  lemma StoredIsReached(t: Sys, r: Request, e: DurableEvent)
    requires Inv(t) && |Page(t, r)| < r.Most() && e in t.journal.rows && e.event.session == r.session
    ensures e.num <= PageCursor(t, r)
  {
    PageExact(t.journal, r.session, r.after, r.limit);
    if e.num > r.From() {
      assert e in Page(t, r);
    }
  }

  // ----- a page that is cut off -----

  const SOME_KIND := Kind("user_message", true)
  const SOME_EVENT := NewEvent("s1", Local, None, SOME_KIND)
  const FIRST := DurableEvent("a", 1, 0, SOME_EVENT)
  const SECOND := DurableEvent("b", 2, 0, SOME_EVENT)

  const TWO_EVENTS: seq<Step> := [
    Store(0, SOME_EVENT, Inserted("a", 0)), Publish(0), Store(0, SOME_EVENT, Inserted("b", 0)), Publish(0)]

  const AFTER_TWO := Sys(Journal(3, [FIRST, SECOND]), [Durable(FIRST), Durable(SECOND)], map[], {})

  lemma TwoEvents()
    ensures Legal(INITIAL, TWO_EVENTS) && Exec(INITIAL, TWO_EVENTS) == AFTER_TWO
  {
    var a := Sys(Journal(2, [FIRST]), [], map[0 := FIRST], {});
    var b := Sys(Journal(2, [FIRST]), [Durable(FIRST)], map[], {});
    var c := Sys(Journal(3, [FIRST, SECOND]), [Durable(FIRST)], map[0 := SECOND], {});
    var publish, second := Publish(0), Store(0, SOME_EVENT, Inserted("b", 0));
    assert [publish] + [] == [publish] && [second] + [publish] == [second, publish];
    assert [publish] + [second, publish] == [publish, second, publish];
    Then(c, publish, [], AFTER_TWO) by {
      assert Apply(c, publish).emitting == map[];
    }
    Then(b, second, [publish], AFTER_TWO) by {
      assert Apply(b, second) == c;
    }
    Then(a, publish, [second, publish], AFTER_TWO) by {
      assert Apply(a, publish).emitting == map[];
      assert Apply(a, publish) == b;
    }
    Then(INITIAL, Store(0, SOME_EVENT, Inserted("a", 0)), [publish, second, publish], AFTER_TWO) by {
      assert Apply(INITIAL, Store(0, SOME_EVENT, Inserted("a", 0))) == a;
    }
    assert [TWO_EVENTS[0]] + [publish, second, publish] == TWO_EVENTS;
  }

  lemma Then(s: Sys, step: Step, rest: seq<Step>, end: Sys)
    requires Enabled(s, step) && Legal(Apply(s, step), rest) && Exec(Apply(s, step), rest) == end
    ensures Legal(s, [step] + rest) && Exec(s, [step] + rest) == end
  {
    assert ([step] + rest)[1..] == rest;
  }

  /** A limit that cuts the page loses what was published before the subscription and lies beyond the cut. */
  lemma CutPageLosesEvents()
    ensures var r := Request("s1", None, Some(1));
            && Joined(AFTER_TWO, AFTER_TWO, AFTER_TWO) && Quiet(AFTER_TWO, "s1")
            && SECOND in AFTER_TWO.journal.rows && !HasAll(AFTER_TWO, AFTER_TWO, AFTER_TWO, r)
  {
    var r := Request("s1", None, Some(1));
    TwoEvents();
    ReachableInv(TWO_EVENTS);
    PageExact(AFTER_TWO.journal, "s1", None, Some(1));
    CutPage();
    CompleteExactly(AFTER_TWO, AFTER_TWO, AFTER_TWO, r);
    assert Durable(AFTER_TWO.journal.rows[1]) == AFTER_TWO.fanout[1];
  }

  lemma CutPage()
    ensures PageCursor(AFTER_TWO, Request("s1", None, Some(1))) == 1
  {
    var rows := AFTER_TWO.journal.rows;
    assert rows[..1] == [FIRST] && [FIRST][..0] == [];
    assert Matching([], "s1", 0) == [];
    assert Matching([FIRST], "s1", 0) == [FIRST];
    assert Matching(rows, "s1", 0) == [FIRST, SECOND];
    assert Page(AFTER_TWO, Request("s1", None, Some(1))) == [FIRST];
  }
}
