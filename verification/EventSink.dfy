/**
 The event sink: the durable journal, the live fanout, and the routing between them.

 The storage outcome of an append, event ids and clocks are parameters. The fanout is the list of
 everything ever published; a subscriber receives what is published after it subscribed.
 */
module EventSink {
  import opened Prelude

  datatype Origin = Local | Remote | Unknown(name: string)

  /** `durable` is what `classify_durability` says of the kind. */
  datatype Kind = Kind(tag: string, durable: bool)

  datatype NewEvent = NewEvent(session: string, origin: Origin, sourceNode: Option<string>, kind: Kind)

  datatype DurableEvent = DurableEvent(id: string, num: nat, timestamp: int, event: NewEvent)

  datatype EphemeralEvent = EphemeralEvent(timestamp: int, event: NewEvent)

  datatype Envelope = Durable(stored: DurableEvent) | Ephemeral(passing: EphemeralEvent)

  /** The rows of the journal in insertion order, and the next stream sequence number. */
  datatype Journal = Journal(next: nat, rows: seq<DurableEvent>)

  const EMPTY := Journal(1, [])

  /** What storage does with one append: the number may be spent without a row being inserted. */
  datatype Fate = Inserted(id: string, timestamp: int) | InsertFailed(why: string) | NotReached(reason: string)

  function Append(j: Journal, e: NewEvent, fate: Fate): (Journal, Result<DurableEvent, string>) {
    match fate
    case Inserted(id, timestamp) =>
      var row := DurableEvent(id, j.next, timestamp, e);
      (Journal(j.next + 1, j.rows + [row]), Ok(row))
    case InsertFailed(why) => (j.(next := j.next + 1), Err(why))
    case NotReached(reason) => (j, Err(reason))
  }

  predicate Matches(row: DurableEvent, session: string, after: int) { row.event.session == session && row.num > after }

  function Matching(rows: seq<DurableEvent>, session: string, after: int): seq<DurableEvent> {
    if rows == [] then []
    else
      var front, last := Matching(rows[..|rows| - 1], session, after), rows[|rows| - 1];
      if Matches(last, session, after) then front + [last] else front
  }

  const DEFAULT_LIMIT: nat := 10_000

  /** `load_session_stream`: rows are in ascending sequence order, see `Ascending`. */
  function LoadSessionStream(j: Journal, session: string, after: Option<int>, limit: Option<nat>): seq<DurableEvent> {
    var all := Matching(j.rows, session, if after.Some? then after.value else 0);
    var most := if limit.Some? then limit.value else DEFAULT_LIMIT;
    if |all| <= most then all else all[..most]
  }

  class EventSink {
    var journal: Journal
    var fanout: seq<Envelope>

    method AppendDurable(e: NewEvent, fate: Fate) returns (r: Result<DurableEvent, string>)
      modifies this`journal
      ensures (journal, r) == Append(old(journal), e, fate)
    {
      match fate {
        case NotReached(reason) =>
          return Err(reason);
        case InsertFailed(why) =>
          journal := journal.(next := journal.next + 1);
          return Err(why);
        case Inserted(id, timestamp) =>
          var row := DurableEvent(id, journal.next, timestamp, e);
          journal := journal.(next := journal.next + 1);
          journal := journal.(rows := journal.rows + [row]);
          return Ok(row);
      }
    }

    method Publish(envelope: Envelope)
      modifies this`fanout
      ensures fanout == old(fanout) + [envelope]
    {
      fanout := fanout + [envelope];
    }

    /** `emit_durable_with_origin`: an event that could not be stored is not published. */
    method EmitDurableWithOrigin(e: NewEvent, fate: Fate) returns (r: Result<DurableEvent, string>)
      modifies this
      ensures (journal, r) == Append(old(journal), e, fate)
      ensures fanout == old(fanout) + if r.Ok? then [Durable(r.value)] else []
    {
      r := AppendDurable(e, fate);
      if r.Err? {
        return;
      }
      Publish(Durable(r.value));
    }

    /** `emit_ephemeral_with_origin`: never stored. */
    method EmitEphemeralWithOrigin(e: NewEvent, now: int)
      modifies this`fanout
      ensures fanout == old(fanout) + [Ephemeral(EphemeralEvent(now, e))]
    {
      Publish(Ephemeral(EphemeralEvent(now, e)));
    }

    /** `emit`: durable kinds are stored then published, ephemeral kinds are only published. */
    method Emit(session: string, kind: Kind, fate: Fate, now: int) returns (r: Result<Option<DurableEvent>, string>)
      modifies this
      ensures !kind.durable ==> r == Ok(None) && journal == old(journal)
                                && fanout == old(fanout)
                                   + [Ephemeral(EphemeralEvent(now, NewEvent(session, Local, None, kind)))]
      ensures kind.durable ==>
                var (j, stored) := Append(old(journal), NewEvent(session, Local, None, kind), fate);
                && journal == j
                && (stored.Ok? ==> r == Ok(Some(stored.value)) && fanout == old(fanout) + [Durable(stored.value)])
                && (stored.Err? ==> r == Err(stored.error) && fanout == old(fanout))
    {
      var e := NewEvent(session, Local, None, kind);
      if kind.durable {
        var stored := EmitDurableWithOrigin(e, fate);
        if stored.Err? {
          return Err(stored.error);
        }
        return Ok(Some(stored.value));
      } else {
        EmitEphemeralWithOrigin(e, now);
        return Ok(None);
      }
    }
  }

  // ----- what a page of the journal is -----

  /** Strictly ascending sequence numbers, from 1 on and all of them spent. */
  ghost predicate Ascending(rows: seq<DurableEvent>, next: nat) {
    && (forall i, j :: 0 <= i < j < |rows| ==> rows[i].num < rows[j].num)
    && 1 <= next && (forall i :: 0 <= i < |rows| ==> 1 <= rows[i].num < next)
  }

  lemma {:induction false} MatchingExact(rows: seq<DurableEvent>, session: string, after: int, next: nat)
    requires Ascending(rows, next)
    ensures Ascending(Matching(rows, session, after), next)
    ensures forall e :: e in Matching(rows, session, after) <==> e in rows && Matches(e, session, after)
  {
    if rows != [] {
      var front, last := rows[..|rows| - 1], rows[|rows| - 1];
      assert rows == front + [last];
      MatchingExact(front, session, after, last.num);
      var m := Matching(front, session, after);
      assert forall i :: 0 <= i < |m| ==> m[i].num < last.num;
    }
  }

  /** Where a page ends: at its last row, or at the cursor it was asked for. */
  function Cursor(page: seq<DurableEvent>, after: int): int {
    if page == [] then after else page[|page| - 1].num
  }

  /** A page holds just the session's rows after the given cursor and up to its own. */
  lemma PageExact(j: Journal, session: string, after: Option<int>, limit: Option<nat>)
    requires Ascending(j.rows, j.next)
    ensures var page := LoadSessionStream(j, session, after, limit);
            var from, most := if after.Some? then after.value else 0, if limit.Some? then limit.value else 10_000;
            var end := Cursor(page, from);
            && Ascending(page, j.next) && end >= from
            && (forall e :: e in page <==> e in j.rows && e.event.session == session && from < e.num <= end)
            && |page| <= most
            && (|page| < most ==> forall e :: e in j.rows && e.event.session == session && e.num > from ==> e in page)
  {
    var from := if after.Some? then after.value else 0;
    MatchingExact(j.rows, session, from, j.next);
    var all, page := Matching(j.rows, session, from), LoadSessionStream(j, session, after, limit);
    assert page <= all;
    assert |page| < (if limit.Some? then limit.value else 10_000) ==> page == all;
    hide Matching, LoadSessionStream;
    FrontExact(page, all, from, j.next);
    hide Ascending, Cursor;
  }

  /** The front of ascending rows beyond a cursor holds those up to its own end. */
  lemma FrontExact(page: seq<DurableEvent>, all: seq<DurableEvent>, from: int, next: nat)
    requires page <= all && Ascending(all, next) && (forall e :: e in all ==> e.num > from)
    ensures Ascending(page, next) && Cursor(page, from) >= from
    ensures forall e :: e in page <==> e in all && e.num <= Cursor(page, from)
  {
    forall e | e in all
      ensures e in page <==> e.num <= Cursor(page, from)
    {
      var i :| 0 <= i < |all| && all[i] == e;
      assert i < |page| ==> page[i] == e;
    }
  }

  /** A sequence without repetition that lists a set is as long as the set is large. */
  lemma {:induction false} ListedOnce(page: seq<DurableEvent>, listed: set<DurableEvent>)
    requires forall i, k :: 0 <= i < k < |page| ==> page[i] != page[k]
    requires forall e :: e in page <==> e in listed
    ensures |page| == |listed|
  {
    if page == [] {
      assert listed == {};
    } else {
      var front, last := page[..|page| - 1], page[|page| - 1];
      assert page == front + [last];
      ListedOnce(front, listed - {last});
    }
  }

  /** It is the first of those rows: as many as there are, or as the limit allows. */
  lemma PageIsFirst(j: Journal, session: string, after: Option<int>, limit: Option<nat>)
    requires Ascending(j.rows, j.next)
    ensures var page := LoadSessionStream(j, session, after, limit);
            var from, most := if after.Some? then after.value else 0, if limit.Some? then limit.value else 10_000;
            var mine := set e | e in j.rows && e.event.session == session && e.num > from;
            && (forall i, k :: 0 <= i < k < |page| ==> page[i].num < page[k].num)
            && (forall e :: e in page ==> e in mine)
            && (forall d, e :: d in page && e in mine && e !in page ==> d.num < e.num)
            && |page| == if |mine| <= most then |mine| else most
  {
    PageExact(j, session, after, limit);
    PageLength(j, session, after, limit);
    hide LoadSessionStream;
    PageEndsAt(LoadSessionStream(j, session, after, limit), if after.Some? then after.value else 0);
  }

  lemma PageLength(j: Journal, session: string, after: Option<int>, limit: Option<nat>)
    requires Ascending(j.rows, j.next)
    ensures var page := LoadSessionStream(j, session, after, limit);
            var from, most := if after.Some? then after.value else 0, if limit.Some? then limit.value else 10_000;
            var mine := set e | e in j.rows && e.event.session == session && e.num > from;
            |page| == if |mine| <= most then |mine| else most
  {
    var from := if after.Some? then after.value else 0;
    var mine := set e | e in j.rows && e.event.session == session && e.num > from;
    MatchingExact(j.rows, session, from, j.next);
    hide Matching;
    ListedOnce(Matching(j.rows, session, from), mine);
  }

  /**
   Without cursor and limit: in ascending order all rows of the session when there are at most 10,000 of
   them, and otherwise the first 10,000.
   */
  lemma FullReplay(j: Journal, session: string)
    requires Ascending(j.rows, j.next)
    ensures var page, mine := LoadSessionStream(j, session, None, None), SessionRows(j, session);
            && (forall i, k :: 0 <= i < k < |page| ==> page[i].num < page[k].num)
            && (forall e :: e in page ==> e in mine)
            && (|mine| <= 10_000 ==> forall e :: e in mine ==> e in page)
            && (|mine| > 10_000 ==> |page| == 10_000 && forall d, e :: d in page && e in mine && e !in page ==>
                                                          d.num < e.num)
  {
    PageIsFirst(j, session, None, None);
    var page, mine := LoadSessionStream(j, session, None, None), SessionRows(j, session);
    assert mine == set e | e in j.rows && e.event.session == session && e.num > 0;
    hide LoadSessionStream;
    if |mine| <= 10_000 {
      AllOfThem(page, mine);
    }
  }

  function SessionRows(j: Journal, session: string): set<DurableEvent> {
    set e | e in j.rows && e.event.session == session
  }

  lemma PageEndsAt(page: seq<DurableEvent>, from: int)
    requires forall i, k :: 0 <= i < k < |page| ==> page[i].num < page[k].num
    ensures forall d :: d in page ==> d.num <= Cursor(page, from)
  {
  }

  /** A page that lists part of a set and is as long as it is large lists all of it. */
  lemma AllOfThem(page: seq<DurableEvent>, mine: set<DurableEvent>)
    requires forall i, k :: 0 <= i < k < |page| ==> page[i].num < page[k].num
    requires (forall e :: e in page ==> e in mine) && |page| == |mine|
    ensures forall e :: e in mine ==> e in page
  {
    var listed := set e | e in page;
    ListedOnce(page, listed);
    if exists e :: e in mine && e !in page {
      var e :| e in mine && e !in page;
      SubsetSize(listed, mine - {e});
    }
  }

  lemma {:induction false} SubsetSize(a: set<DurableEvent>, b: set<DurableEvent>)
    requires a <= b
    ensures |a| <= |b|
    decreases |a|
  {
    if a != {} {
      var x :| x in a;
      SubsetSize(a - {x}, b - {x});
    }
  }
}
