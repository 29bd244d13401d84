/** Public ticket tracking: the position of a waiting ticket in its category's
    queue, the estimated wait, and the tracking record put together from a
    ticket looked up by its number. */
module TrackingService {
  import opened Wrappers
  import opened Dynamic
  import opened Entities
  import opened TicketQueries
  import opened TicketRepository
  import opened Store

  // ---------------------------------------------------------------------------
  // The list query CalculateQueuePosition runs:
  // `List({"status": "waiting", "category_id": <the ticket's CategoryID>})`.

  /** A nullable category id as a query argument: NULL when it is not valid. */
  function CategoryArg(c: Option<int>): (v: Value)
    ensures c.Some? <==> v.VInt?
    ensures c.Some? ==> v == VInt(c.value)
  {
    if c.Some? then VInt(c.value) else VNull
  }

  /** A row the list returns: waiting, and `t.category_id = $2` holds. The
      argument is a nullable id, never the integer 0, so the category
      condition is always added; SQL equality with NULL never holds. */
  predicate Listed(t: Ticket, v: Value) {
    t.status == Waiting && v.VInt? && t.categoryId == Some(v.i)
  }

  /** The listed rows, in table order (the count below does not depend on the order). */
  function WaitingListed(rows: seq<Ticket>, v: Value): (r: seq<Ticket>)
    ensures forall t | t in r :: t in rows && Listed(t, v)
    ensures forall t | t in rows && Listed(t, v) :: t in r
    ensures v.VNull? ==> r == []
  {
    if rows == [] then []
    else
      var last := rows[|rows| - 1];
      WaitingListed(rows[..|rows| - 1], v) + (if Listed(last, v) then [last] else [])
  }

  /** The number of rows created strictly before `time`. */
  function CountEarlier(rows: seq<Ticket>, time: int): (n: nat)
    ensures n <= |rows|
  {
    if rows == [] then 0
    else CountEarlier(rows[..|rows| - 1], time) + (if rows[|rows| - 1].createdAt < time then 1 else 0)
  }

  /** CalculateQueuePosition: 0 for a ticket that is not waiting; otherwise one
      more than the number of listed tickets created before it. */
  method CalculateQueuePosition(ticket: Ticket, listed: Result<seq<Ticket>>) returns (r: Result<int>)
    ensures ticket.status != Waiting ==> r == Ok(0)
    ensures ticket.status == Waiting && listed.Err? ==> r == Err(listed.error)
    ensures ticket.status == Waiting && listed.Ok? ==> r == Ok(1 + CountEarlier(listed.value, ticket.createdAt))
  {
    if ticket.status != Waiting {
      return Ok(0);
    }
    if listed.Err? {
      return Err(listed.error);
    }
    var tickets := listed.value;
    var position := 1;
    for i := 0 to |tickets|
      invariant position == 1 + CountEarlier(tickets[..i], ticket.createdAt)
    {
      assert tickets[..i + 1][..i] == tickets[..i];
      if tickets[i].createdAt < ticket.createdAt {
        position := position + 1;
      }
    }
    assert tickets[..|tickets|] == tickets;
    r := Ok(position);
  }

  /** The position CalculateQueuePosition computes against the current table. */
  function QueuePosition(rows: seq<Ticket>, t: Ticket): (p: nat)
    ensures t.status != Waiting ==> p == 0
    ensures t.status == Waiting ==> p >= 1
  {
    if t.status != Waiting then 0 else 1 + CountEarlier(WaitingListed(rows, CategoryArg(t.categoryId)), t.createdAt)
  }

  // ---------------------------------------------------------------------------
  // An independent count of the tickets ahead, and the properties of positions.

  /** The listed rows created strictly before `time`, counted directly on the table. */
  function Ahead(rows: seq<Ticket>, v: Value, time: int): (n: nat)
    ensures n <= |rows|
  {
    if rows == [] then 0
    else
      var last := rows[|rows| - 1];
      Ahead(rows[..|rows| - 1], v, time) + (if Listed(last, v) && last.createdAt < time then 1 else 0)
  }

  lemma {:induction false} CountEarlierAppend(a: seq<Ticket>, b: seq<Ticket>, time: int)
    ensures CountEarlier(a + b, time) == CountEarlier(a, time) + CountEarlier(b, time)
  {
    if b == [] {
      assert a + b == a;
    } else {
      assert (a + b)[..|a + b| - 1] == a + b[..|b| - 1];
      CountEarlierAppend(a, b[..|b| - 1], time);
    }
  }

  /** Counting the listed rows is counting the table's rows that the list keeps. */
  lemma {:induction false} AheadCountsListed(rows: seq<Ticket>, v: Value, time: int)
    ensures CountEarlier(WaitingListed(rows, v), time) == Ahead(rows, v, time)
  {
    if rows != [] {
      var init := rows[..|rows| - 1];
      var last := rows[|rows| - 1];
      var tail := if Listed(last, v) then [last] else [];
      assert WaitingListed(rows, v) == WaitingListed(init, v) + tail;
      AheadCountsListed(init, v, time);
      CountEarlierAppend(WaitingListed(init, v), tail, time);
      CountEarlierOne(tail, last, Listed(last, v), time);
    }
  }

  lemma CountEarlierOne(tail: seq<Ticket>, last: Ticket, kept: bool, time: int)
    requires tail == if kept then [last] else []
    ensures CountEarlier(tail, time) == if kept && last.createdAt < time then 1 else 0
  {
    if kept {
      assert tail[..0] == [];
    }
  }

  lemma {:induction false} AheadMonotone(rows: seq<Ticket>, v: Value, x: int, y: int)
    requires x <= y
    ensures Ahead(rows, v, x) <= Ahead(rows, v, y)
  {
    if rows != [] {
      AheadMonotone(rows[..|rows| - 1], v, x, y);
    }
  }

  /** A listed row created in [x, y) is counted before y but not before x. */
  lemma {:induction false} AheadStrict(rows: seq<Ticket>, v: Value, a: Ticket, x: int, y: int)
    requires a in rows && Listed(a, v) && x <= a.createdAt < y
    ensures Ahead(rows, v, x) < Ahead(rows, v, y)
  {
    var init := rows[..|rows| - 1];
    if a == rows[|rows| - 1] {
      AheadMonotone(init, v, x, y);
    } else {
      assert a in init by {
        var k :| 0 <= k < |rows| && rows[k] == a;
        assert init[k] == a;
      }
      AheadStrict(init, v, a, x, y);
    }
  }

  /** Of two waiting tickets of the same category, the one created strictly
      earlier has the strictly smaller position. */
  lemma EarlierIsAhead(rows: seq<Ticket>, a: Ticket, b: Ticket)
    requires a in rows && a.status == Waiting && b.status == Waiting
    requires a.categoryId.Some? && b.categoryId == a.categoryId
    requires a.createdAt < b.createdAt
    ensures 1 <= QueuePosition(rows, a) < QueuePosition(rows, b)
  {
    var v := CategoryArg(a.categoryId);
    AheadCountsListed(rows, v, a.createdAt);
    AheadCountsListed(rows, v, b.createdAt);
    AheadStrict(rows, v, a, a.createdAt, b.createdAt);
  }

  lemma UpdatePrefix(rows: seq<Ticket>, id: int, status: TicketStatus, now: int)
    requires rows != []
    ensures UpdateStatusRows(rows, id, status, now)[..|rows| - 1] == UpdateStatusRows(rows[..|rows| - 1], id, status, now)
  {
  }

  lemma UpdateAbsent(rows: seq<Ticket>, id: int, status: TicketStatus, now: int)
    requires forall t | t in rows :: t.id != id
    ensures UpdateStatusRows(rows, id, status, now) == rows
  {
  }

  /** Dropping the last row keeps the ids unique, and no other row has the last row's id. */
  lemma UniqueInit(rows: seq<Ticket>)
    requires UniqueIds(rows) && rows != []
    ensures UniqueIds(rows[..|rows| - 1])
    ensures forall t | t in rows[..|rows| - 1] :: t.id != rows[|rows| - 1].id
  {
    var n := |rows| - 1;
    forall t | t in rows[..n] ensures t.id != rows[n].id {
      var k :| 0 <= k < n && rows[..n][k] == t;
      assert rows[k] == t;
    }
  }

  /** Moving a listed ticket created before `y` out of "waiting" lowers the count before `y` by one. */
  lemma {:induction false} AheadAfterLeaving(rows: seq<Ticket>, v: Value, i: nat, status: TicketStatus, now: int, y: int)
    requires UniqueIds(rows) && i < |rows| && Listed(rows[i], v) && rows[i].createdAt < y
    requires status != Waiting
    ensures Ahead(UpdateStatusRows(rows, rows[i].id, status, now), v, y) == Ahead(rows, v, y) - 1
  {
    var n := |rows|;
    var id := rows[i].id;
    var init := rows[..n - 1];
    var updated := UpdateStatusRows(rows, id, status, now);
    UpdatePrefix(rows, id, status, now);
    assert updated[..n - 1] == UpdateStatusRows(init, id, status, now);
    UniqueInit(rows);
    if i == n - 1 {
      UpdateAbsent(init, id, status, now);
      assert !Listed(updated[n - 1], v);
      assert Ahead(updated, v, y) == Ahead(init, v, y);
    } else {
      assert init[i] == rows[i];
      AheadAfterLeaving(init, v, i, status, now, y);
      assert updated[n - 1] == rows[n - 1];
    }
  }

  /** When an earlier waiting ticket of the same category leaves the queue, a
      later ticket's position drops by one. */
  lemma LeavingMovesUp(rows: seq<Ticket>, i: nat, b: Ticket, status: TicketStatus, now: int)
    requires UniqueIds(rows) && i < |rows| && rows[i].status == Waiting
    requires b.status == Waiting && b.categoryId == rows[i].categoryId
    requires b.categoryId.Some? && rows[i].createdAt < b.createdAt
    requires status != Waiting
    ensures QueuePosition(UpdateStatusRows(rows, rows[i].id, status, now), b) == QueuePosition(rows, b) - 1
  {
    var v := CategoryArg(b.categoryId);
    AheadCountsListed(rows, v, b.createdAt);
    AheadCountsListed(UpdateStatusRows(rows, rows[i].id, status, now), v, b.createdAt);
    AheadAfterLeaving(rows, v, i, status, now, b.createdAt);
  }

  // ---------------------------------------------------------------------------
  // EstimateWaitTime and the tracking record.

  /** Minutes of service assumed per ticket ahead. */
  const AvgServiceTimeMinutes: int := 5

  function EstimateWaitTime(t: Ticket, position: int): (minutes: int)
    ensures t.status != Waiting ==> minutes == 0
    ensures t.status == Waiting ==> minutes == position * AvgServiceTimeMinutes
  {
    if t.status != Waiting then 0 else position * AvgServiceTimeMinutes
  }

  /** An earlier waiting ticket of the same category gets a strictly shorter estimate. */
  lemma EarlierWaitsLess(rows: seq<Ticket>, a: Ticket, b: Ticket)
    requires a in rows && a.status == Waiting && b.status == Waiting
    requires a.categoryId.Some? && b.categoryId == a.categoryId
    requires a.createdAt < b.createdAt
    ensures AvgServiceTimeMinutes <= EstimateWaitTime(a, QueuePosition(rows, a)) < EstimateWaitTime(b, QueuePosition(rows, b))
  {
    EarlierIsAhead(rows, a, b);
  }

  /** The fields of the tracking record that GetTicketTrackingInfo fills; the
      counter status and the other optional fields are never set and are left out. */
  datatype TrackingInfo = TrackingInfo(
    ticketNumber: string, categoryName: string, categoryColor: string, status: TicketStatus,
    queuePosition: int, estimatedWaitMin: int, counterNumber: string, counterName: string, createdAt: int)

  /** The lookup error as the tracking service reports it. */
  function TrackingError(e: string): (m: string)
    ensures e == NoRowsMessage ==> m == "ticket not found"
    ensures e != NoRowsMessage ==> m == "failed to retrieve ticket"
  {
    if e == NoRowsMessage then "ticket not found" else "failed to retrieve ticket"
  }

  /** The record for a found ticket whose queue position is `position`. */
  function InfoOf(d: TicketDetails, position: int): (info: TrackingInfo)
    ensures info.ticketNumber == d.ticket.ticketNumber && info.status == d.ticket.status
    ensures info.categoryName == d.category.name && info.categoryColor == d.category.colorCode
    ensures d.counter.id != 0 ==> info.counterNumber == d.counter.number && info.counterName == d.counter.name
    ensures d.counter.id == 0 ==> info.counterNumber == "" && info.counterName == ""
    ensures d.ticket.status != Waiting ==> info.queuePosition == 0 && info.estimatedWaitMin == 0
    ensures d.ticket.status == Waiting ==>
      info.queuePosition == position && info.estimatedWaitMin == position * AvgServiceTimeMinutes
  {
    var waiting := d.ticket.status == Waiting;
    TrackingInfo(d.ticket.ticketNumber, d.category.name, d.category.colorCode, d.ticket.status,
      if waiting then position else 0,
      if waiting then EstimateWaitTime(d.ticket, position) else 0,
      if d.counter.id != 0 then d.counter.number else "",
      if d.counter.id != 0 then d.counter.name else "",
      d.ticket.createdAt)
  }

  /** GetTicketTrackingInfo as written: the queue position is computed from the
      looked-up ticket's own CategoryID, which the lookup leaves NULL. */
  function TrackingInfoAsWritten(db: DB, number: string): (r: Result<TrackingInfo>)
    ensures r.Err? <==> DetailsByNumber(db, number).Err?
    ensures r.Err? ==> r.error == TrackingError(DetailsByNumber(db, number).error)
    ensures r.Ok? ==> r.value.ticketNumber == number
  {
    match DetailsByNumber(db, number)
    case Err(e) => Err(TrackingError(e))
    case Ok(d) => Ok(InfoOf(d, QueuePosition(db.tickets, d.ticket)))
  }

  /** As written, every waiting ticket is told it is first in line, however many
      tickets of its category wait ahead of it. */
  lemma AsWrittenPositionIsAlwaysOne(db: DB, number: string)
    requires TrackingInfoAsWritten(db, number).Ok?
    requires TrackingInfoAsWritten(db, number).value.status == Waiting
    ensures TrackingInfoAsWritten(db, number).value.queuePosition == 1
    ensures TrackingInfoAsWritten(db, number).value.estimatedWaitMin == AvgServiceTimeMinutes
  {
    var d := DetailsByNumber(db, number).value;
    assert WaitingListed(db.tickets, CategoryArg(d.ticket.categoryId)) == [];
  }

  /** The ticket with the category the join found, which the position query needs. */
  function WithJoinedCategory(d: TicketDetails): (t: Ticket)
    ensures t == d.ticket.(categoryId := Some(d.category.id))
  {
    d.ticket.(categoryId := Some(d.category.id))
  }

  /** GetTicketTrackingInfo with the position counted in the ticket's own category. */
  function TrackingInfoOf(db: DB, number: string): (r: Result<TrackingInfo>)
    ensures r.Err? <==> DetailsByNumber(db, number).Err?
    ensures r.Err? ==> r.error == TrackingError(DetailsByNumber(db, number).error)
    ensures r.Ok? ==>
      var d := DetailsByNumber(db, number).value;
      r.value == InfoOf(d, QueuePosition(db.tickets, WithJoinedCategory(d)))
  {
    match DetailsByNumber(db, number)
    case Err(e) => Err(TrackingError(e))
    case Ok(d) => Ok(InfoOf(d, QueuePosition(db.tickets, WithJoinedCategory(d))))
  }

  /** With the category from the join, a waiting ticket is behind every waiting
      ticket of its category created before it. */
  lemma TrackedPositionCountsAhead(db: DB, number: string, earlier: Ticket)
    requires TrackingInfoOf(db, number).Ok? && TrackingInfoOf(db, number).value.status == Waiting
    requires earlier in db.tickets && earlier.status == Waiting
    requires earlier.categoryId == Some(DetailsByNumber(db, number).value.category.id)
    requires earlier.createdAt < TrackingInfoOf(db, number).value.createdAt
    ensures TrackingInfoOf(db, number).value.queuePosition > QueuePosition(db.tickets, earlier) >= 1
  {
    var d := DetailsByNumber(db, number).value;
    EarlierIsAhead(db.tickets, earlier, WithJoinedCategory(d));
  }

  /** The tracking lookup on the store, counting the position with the loop
      from the looked-up ticket, as the service does. */
  method GetTicketTrackingInfo(store: Store, number: string) returns (r: Result<TrackingInfo>)
    ensures r == TrackingInfoAsWritten(store.State(), number)
  {
    var found := store.GetByTicketNumber(number);
    if found.Err? {
      return Err(TrackingError(found.error));
    }
    var d := found.value;
    var ticket := d.ticket;
    var position := 0;
    if ticket.status == Waiting {
      var p := CalculateQueuePosition(ticket, Ok(WaitingListed(store.tickets, CategoryArg(ticket.categoryId))));
      position := p.value;
    }
    r := Ok(InfoOf(d, position));
  }
}
