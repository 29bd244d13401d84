/** The staff desk's dispatch state machine: calling the next ticket,
    completing it, marking a no-show, pausing and resuming the counter,
    transferring and cancelling tickets. Each operation is specified by a
    function from the store's state to the pair (result, new state); the
    methods perform the same repository calls in place on a `Store`. */
module StaffService {
  import opened Wrappers
  import opened Entities
  import opened TicketQueries
  import opened TicketRepository
  import opened Store

  /** What an operation returns, and the state it leaves behind. */
  datatype Outcome<T> = Outcome(result: Result<T>, db: DB)

  /** `user.CounterID.Int64`: the assigned counter, or 0 for a NULL column. */
  function CounterIdOf(u: User): (id: int)
    ensures u.counterId.None? ==> id == 0
    ensures u.counterId.Some? ==> id == u.counterId.value
  {
    if u.counterId.Some? then u.counterId.value else 0
  }

  /** The counter lookup in CallNext gives (nil, nil) for a missing counter and
      the next line reads its status; the model reports that as an error. */
  const NilCounterMessage: string := "counter not found"

  /** The category list CallNext and GetAllTickets build from the counter's single category. */
  function CategoryIdsOf(c: Counter): (ids: seq<int>)
    ensures c.categoryId.None? <==> ids == []
    ensures c.categoryId.Some? ==> ids == [c.categoryId.value]
  {
    if c.categoryId.Some? then [c.categoryId.value] else []
  }

  // ---------------------------------------------------------------------------
  // The operations as functions of the state.

  function CallNextSpec(db: DB, userId: int): (o: Outcome<Option<TicketDetails>>)
    ensures userId !in db.users ==> o == Outcome(Err(NoRowsMessage), db)
    ensures o.db.users == db.users && o.db.categories == db.categories
    ensures |o.db.tickets| == |db.tickets| && o.db.counters.Keys == db.counters.Keys
    ensures o.db != db ==> userId in db.users && CounterIdOf(db.users[userId]) in db.counters
    ensures o.result.Ok? && o.result.value.Some? ==>
      userId in db.users && CounterIdOf(db.users[userId]) in db.counters
      && exists t | t in db.tickets ::
           && Dispatchable(t, CategoryIdsOf(db.counters[CounterIdOf(db.users[userId])]))
           && t.id == o.result.value.value.ticket.id
  {
    match UserLookup(db, userId)
    case Err(e) => Outcome(Err(e), db)
    case Ok(user) =>
      var cid := CounterIdOf(user);
      if cid == 0 then Outcome(Ok(None), db)
      else
        match CounterLookup(db, cid)
        case None => Outcome(Err(NilCounterMessage), db)
        case Some(c) =>
          if c.status == Offline then Outcome(Ok(None), db)
          else if CurrentAt(db, c.id).Some? then Outcome(Ok(None), db)
          else if c.status == Paused then Outcome(Ok(None), db)
          else if CategoryIdsOf(c) == [] then Outcome(Ok(None), db)
          else DispatchSpec(db, c)
  }

  /** The second half of CallNext, once every guard has passed: mark the
      counter serving, take the next ticket of its category and assign it. */
  function DispatchSpec(db: DB, c: Counter): (o: Outcome<Option<TicketDetails>>)
    ensures o.db.users == db.users && o.db.categories == db.categories
    ensures |o.db.tickets| == |db.tickets| && o.db.counters.Keys == db.counters.Keys
    ensures CategoryIdsOf(c) == [] ==> o.result.Err? && o.db == WithCounterStatus(db, c.id, Busy)
    ensures o.result == Ok(None) ==>
      o.db.tickets == db.tickets && (c.id in db.counters ==> o.db.counters[c.id].status == Idle)
    ensures o.result.Ok? && o.result.value.Some? ==>
      && (c.id in db.counters ==> o.db.counters[c.id].status == Busy)
      && exists t | t in db.tickets :: Dispatchable(t, CategoryIdsOf(c)) && t.id == o.result.value.value.ticket.id
  {
    var db1 := WithCounterStatus(db, c.id, Busy);
    match NextTicketOf(db1, CategoryIdsOf(c))
    case Err(e) => Outcome(Err(e), db1)
    case Ok(None) => Outcome(Ok(None), WithCounterStatus(db1, c.id, Idle))
    case Ok(Some(t)) =>
      var db2 := WithAssignment(db1, t.id, c.id);
      match DetailsById(db2, t.id)
      case Ok(d) => Outcome(Ok(Some(d)), db2)
      case Err(e) => Outcome(Err(e), db2)
  }

  function CompleteSpec(db: DB, userId: int): (o: Outcome<()>)
    ensures o.result.Err? <==> userId !in db.users
    ensures o.result.Err? ==> o == Outcome(Err(NoRowsMessage), db)
    ensures o.db.users == db.users && o.db.categories == db.categories
    ensures |o.db.tickets| == |db.tickets| && o.db.counters.Keys == db.counters.Keys
    ensures o.db != db ==> userId in db.users && CurrentAt(db, CounterIdOf(db.users[userId])).Some?
  {
    match UserLookup(db, userId)
    case Err(e) => Outcome(Err(e), db)
    case Ok(user) =>
      var cid := CounterIdOf(user);
      if cid == 0 then Outcome(Ok(()), db)
      else
        match CurrentAt(db, cid)
        case None => Outcome(Ok(()), db)
        case Some(t) => Outcome(Ok(()), WithCounterStatus(WithTicketStatus(db, t.id, Completed), cid, Idle))
  }

  function NoShowSpec(db: DB, userId: int): (o: Outcome<()>)
    ensures o.result.Err? <==> userId !in db.users
    ensures o.result.Err? ==> o == Outcome(Err(NoRowsMessage), db)
    ensures o.db.users == db.users && o.db.categories == db.categories && o.db.counters == db.counters
    ensures |o.db.tickets| == |db.tickets|
    ensures o.db != db ==> userId in db.users && CurrentAt(db, CounterIdOf(db.users[userId])).Some?
  {
    match UserLookup(db, userId)
    case Err(e) => Outcome(Err(e), db)
    case Ok(user) =>
      var cid := CounterIdOf(user);
      if cid == 0 then Outcome(Ok(()), db)
      else
        match CurrentAt(db, cid)
        case None => Outcome(Ok(()), db)
        case Some(t) => Outcome(Ok(()), WithTicketStatus(db, t.id, NoShow))
  }

  /** PauseCounter (`status` Paused) and ResumeCounter (`status` Idle). */
  function SetOwnCounterSpec(db: DB, userId: int, status: CounterStatus): (o: Outcome<()>)
    ensures o.result.Err? <==> userId !in db.users
    ensures o.result.Err? ==> o == Outcome(Err(NoRowsMessage), db)
    ensures o.db.tickets == db.tickets && o.db.users == db.users && o.db.counters.Keys == db.counters.Keys
    ensures userId in db.users && CounterIdOf(db.users[userId]) != 0 && CounterIdOf(db.users[userId]) in db.counters ==>
      o.db.counters[CounterIdOf(db.users[userId])].status == status
  {
    match UserLookup(db, userId)
    case Err(e) => Outcome(Err(e), db)
    case Ok(user) =>
      var cid := CounterIdOf(user);
      if cid == 0 then Outcome(Ok(()), db) else Outcome(Ok(()), WithCounterStatus(db, cid, status))
  }

  function TransferSpec(db: DB, ticketId: int, counterId: int): (o: Outcome<TicketDetails>)
    ensures o.db.counters == db.counters && o.db.users == db.users && |o.db.tickets| == |db.tickets|
    ensures o.result.Ok? ==> o.result.value.ticket.id == ticketId
    ensures (forall t | t in db.tickets :: t.id != ticketId) ==> o == Outcome(Err(NoRowsMessage), db)
  {
    var db1 := WithAssignment(db, ticketId, counterId);
    Outcome(DetailsById(db1, ticketId), db1)
  }

  function CancelSpec(db: DB, ticketId: int): (o: Outcome<()>)
    ensures o.result == Ok(())
    ensures o.db.counters == db.counters && o.db.users == db.users && |o.db.tickets| == |db.tickets|
    ensures (forall t | t in db.tickets :: t.id != ticketId) ==> o.db == db
  {
    Outcome(Ok(()), WithTicketStatus(db, ticketId, Cancelled))
  }

  // ---------------------------------------------------------------------------
  // The operations on the store.

  method CallNext(store: Store, userId: int) returns (r: Result<Option<TicketDetails>>)
    modifies store
    ensures Outcome(r, store.State()) == CallNextSpec(old(store.State()), userId)
  {
    var user := store.GetUser(userId);
    if user.Err? {
      return Err(user.error);
    }
    var cid := CounterIdOf(user.value);
    if cid == 0 {
      return Ok(None);
    }
    var counter := store.GetCounter(cid);
    if counter.None? {
      return Err(NilCounterMessage);
    }
    var c := counter.value;
    if c.status == Offline {
      return Ok(None);
    }
    var current := store.GetCurrentForCounter(c.id);
    if current.Some? {
      return Ok(None);
    }
    if c.status == Paused {
      return Ok(None);
    }
    var categoryIds: seq<int> := [];
    if c.categoryId.Some? {
      categoryIds := categoryIds + [c.categoryId.value];
    }
    if |categoryIds| == 0 {
      return Ok(None);
    }
    r := Dispatch(store, c, categoryIds);
  }

  method Dispatch(store: Store, c: Counter, categoryIds: seq<int>) returns (r: Result<Option<TicketDetails>>)
    requires categoryIds == CategoryIdsOf(c)
    modifies store
    ensures Outcome(r, store.State()) == DispatchSpec(old(store.State()), c)
  {
    store.UpdateCounterStatus(c.id, Busy);
    var next := store.GetNextTicket(categoryIds);
    if next.Err? {
      return Err(next.error);
    }
    if next.value.None? {
      store.UpdateCounterStatus(c.id, Idle);
      return Ok(None);
    }
    var ticketId := next.value.value.id;
    store.AssignToCounter(ticketId, c.id);
    var details := store.GetWithDetails(ticketId);
    r := if details.Ok? then Ok(Some(details.value)) else Err(details.error);
  }

  method CompleteTicket(store: Store, userId: int) returns (r: Result<()>)
    modifies store
    ensures Outcome(r, store.State()) == CompleteSpec(old(store.State()), userId)
  {
    var user := store.GetUser(userId);
    if user.Err? {
      return Err(user.error);
    }
    var cid := CounterIdOf(user.value);
    if cid == 0 {
      return Ok(());
    }
    var current := store.GetCurrentForCounter(cid);
    if current.None? {
      return Ok(());
    }
    store.UpdateStatus(current.value.id, Completed);
    store.UpdateCounterStatus(cid, Idle);
    r := Ok(());
  }

  method MarkNoShow(store: Store, userId: int) returns (r: Result<()>)
    modifies store
    ensures Outcome(r, store.State()) == NoShowSpec(old(store.State()), userId)
  {
    var user := store.GetUser(userId);
    if user.Err? {
      return Err(user.error);
    }
    var cid := CounterIdOf(user.value);
    if cid == 0 {
      return Ok(());
    }
    var current := store.GetCurrentForCounter(cid);
    if current.None? {
      return Ok(());
    }
    store.UpdateStatus(current.value.id, NoShow);
    r := Ok(());
  }

  method PauseCounter(store: Store, userId: int) returns (r: Result<()>)
    modifies store
    ensures Outcome(r, store.State()) == SetOwnCounterSpec(old(store.State()), userId, Paused)
  {
    var user := store.GetUser(userId);
    if user.Err? {
      return Err(user.error);
    }
    var cid := CounterIdOf(user.value);
    if cid == 0 {
      return Ok(());
    }
    store.UpdateCounterStatus(cid, Paused);
    r := Ok(());
  }

  method ResumeCounter(store: Store, userId: int) returns (r: Result<()>)
    modifies store
    ensures Outcome(r, store.State()) == SetOwnCounterSpec(old(store.State()), userId, Idle)
  {
    var user := store.GetUser(userId);
    if user.Err? {
      return Err(user.error);
    }
    var cid := CounterIdOf(user.value);
    if cid == 0 {
      return Ok(());
    }
    store.UpdateCounterStatus(cid, Idle);
    r := Ok(());
  }

  method TransferTicket(store: Store, ticketId: int, counterId: int) returns (r: Result<TicketDetails>)
    modifies store
    ensures Outcome(r, store.State()) == TransferSpec(old(store.State()), ticketId, counterId)
  {
    store.AssignToCounter(ticketId, counterId);
    r := store.GetWithDetails(ticketId);
  }

  method CancelTicket(store: Store, ticketId: int) returns (r: Result<()>)
    modifies store
    ensures Outcome(r, store.State()) == CancelSpec(old(store.State()), ticketId)
  {
    store.UpdateStatus(ticketId, Cancelled);
    r := Ok(());
  }

  // ---------------------------------------------------------------------------
  // Properties of the dispatch state machine.

  /** Every guard of CallNext passes: the user has a counter that exists, is
      neither offline nor paused, serves no ticket and has a category. */
  predicate ReadyToCall(db: DB, userId: int) {
    userId in db.users && CounterIdOf(db.users[userId]) != 0 && CounterIdOf(db.users[userId]) in db.counters
    && var c := db.counters[CounterIdOf(db.users[userId])];
       c.status != Offline && c.status != Paused && CurrentAt(db, c.id).None? && c.categoryId.Some?
  }

  /** A failed guard makes CallNext return no ticket and change nothing. */
  lemma CallNextGuards(db: DB, userId: int)
    requires userId in db.users
    requires CounterIdOf(db.users[userId]) == 0 || CounterIdOf(db.users[userId]) in db.counters
    requires !ReadyToCall(db, userId)
    ensures CallNextSpec(db, userId) == Outcome(Ok(None), db)
  {
  }

  /** Writing a row in place keeps every id, so a table with unique ids keeps them. */
  lemma AssignKeepsIds(rows: seq<Ticket>, id: int, counterId: int, now: int)
    requires UniqueIds(rows)
    ensures UniqueIds(AssignRows(rows, id, counterId, now))
    ensures forall i | 0 <= i < |rows| :: AssignRows(rows, id, counterId, now)[i].id == rows[i].id
  {
  }

  /** The common first step of the two lemmas below: with every guard passing
      and a ticket waiting, CallNext is the dispatch, which writes the
      assignment of the next ticket to the counter marked serving. */
  lemma {:induction false} CallNextAssigns(db: DB, userId: int)
    requires Consistent(db) && ReadyToCall(db, userId)
    requires exists t | t in db.tickets :: Dispatchable(t, CategoryIdsOf(db.counters[CounterIdOf(db.users[userId])]))
    ensures var cid := CounterIdOf(db.users[userId]);
      var c := db.counters[cid];
      var n := NextTicket(db.tickets, db.categories, CategoryIdsOf(c));
      && n.Some?
      && var db2 := WithAssignment(WithCounterStatus(db, cid, Busy), n.value.id, cid);
         && CallNextSpec(db, userId).db == db2
         && UniqueIds(db2.tickets)
         && FindById(db2.tickets, n.value.id) == Some(AssignedTo(n.value, cid, db.clock))
         && (CallNextSpec(db, userId).result.Ok? <==> DetailsById(db2, n.value.id).Ok?)
         && (CallNextSpec(db, userId).result.Ok? ==> CallNextSpec(db, userId).result.value == Some(DetailsById(db2, n.value.id).value))
  {
    var cid := CounterIdOf(db.users[userId]);
    var c := db.counters[cid];
    assert c.id == cid && UniqueIds(db.tickets);
    var n := NextTicket(db.tickets, db.categories, CategoryIdsOf(c)).value;
    var db1 := WithCounterStatus(db, c.id, Busy);
    var db2 := WithAssignment(db1, n.id, c.id);
    assert CallNextSpec(db, userId) == DispatchSpec(db, c);
    assert NextTicketOf(db1, CategoryIdsOf(c)) == Ok(Some(NextTicketColumns(n)));
    assert DispatchSpec(db, c).db == db2;
    var i :| 0 <= i < |db.tickets| && db.tickets[i] == n;
    AssignKeepsIds(db.tickets, n.id, c.id, db.clock);
    FindUnique(db2.tickets, i);
  }

  /** A ready counter with a waiting ticket of its category: CallNext assigns the
      next ticket there as serving and leaves the counter serving. */
  lemma {:induction false} CallNextServes(db: DB, userId: int)
    requires Consistent(db) && ReadyToCall(db, userId)
    requires exists t | t in db.tickets :: Dispatchable(t, CategoryIdsOf(db.counters[CounterIdOf(db.users[userId])]))
    ensures var cid := CounterIdOf(db.users[userId]);
      var c := db.counters[cid];
      var n := NextTicket(db.tickets, db.categories, CategoryIdsOf(c));
      var o := CallNextSpec(db, userId);
      && n.Some?
      && o.db.tickets == AssignRows(db.tickets, n.value.id, cid, db.clock)
      && o.db.counters == db.counters[cid := c.(status := Busy)]
      && (forall t | t in o.db.tickets && t.id == n.value.id :: t.status == Serving && t.counterId == Some(cid))
  {
    CallNextAssigns(db, userId);
    var cid := CounterIdOf(db.users[userId]);
    var n := NextTicket(db.tickets, db.categories, CategoryIdsOf(db.counters[cid])).value;
    var rows := CallNextSpec(db, userId).db.tickets;
    forall t | t in rows && t.id == n.id
      ensures t.status == Serving && t.counterId == Some(cid)
    {
      var j :| 0 <= j < |rows| && rows[j] == t;
      FindUnique(rows, j);
    }
  }

  /** In the same situation CallNext returns the assigned ticket, serving at
      the counter, and fails only on the join with a missing category. */
  lemma {:induction false} CallNextReturns(db: DB, userId: int)
    requires Consistent(db) && ReadyToCall(db, userId)
    requires exists t | t in db.tickets :: Dispatchable(t, CategoryIdsOf(db.counters[CounterIdOf(db.users[userId])]))
    ensures var cid := CounterIdOf(db.users[userId]);
      var n := NextTicket(db.tickets, db.categories, CategoryIdsOf(db.counters[cid]));
      var o := CallNextSpec(db, userId);
      && n.Some?
      && (o.result.Ok? <==> n.value.categoryId.value in db.categories)
      && (o.result.Ok? ==>
           (o.result.value.Some? && o.result.value.value.ticket.id == n.value.id
            && o.result.value.value.ticket.status == Serving && o.result.value.value.ticket.counterId == Some(cid)))
  {
    CallNextAssigns(db, userId);
  }

  /** A ready counter with an empty queue: CallNext returns no ticket, leaves the
      counter idle and changes no ticket. */
  lemma CallNextEmptyQueue(db: DB, userId: int)
    requires Consistent(db) && ReadyToCall(db, userId)
    requires forall t | t in db.tickets :: !Dispatchable(t, CategoryIdsOf(db.counters[CounterIdOf(db.users[userId])]))
    ensures var cid := CounterIdOf(db.users[userId]);
      CallNextSpec(db, userId) == Outcome(Ok(None), db.(counters := db.counters[cid := db.counters[cid].(status := Idle)]))
  {
    var cid := CounterIdOf(db.users[userId]);
    var c := db.counters[cid];
    assert CallNextSpec(db, userId) == DispatchSpec(db, c);
    assert NextTicketOf(WithCounterStatus(db, c.id, Busy), CategoryIdsOf(c)) == Ok(None);
    assert WithCounterStatus(WithCounterStatus(db, c.id, Busy), c.id, Idle)
      == db.(counters := db.counters[cid := db.counters[cid].(status := Idle)]);
  }

  /** A dispatch that returns a ticket leaves that ticket serving at the counter. */
  lemma DispatchLeavesServing(db: DB, c: Counter)
    requires DispatchSpec(db, c).result.Ok? && DispatchSpec(db, c).result.value.Some?
    ensures CurrentAt(DispatchSpec(db, c).db, c.id).Some?
    ensures DispatchSpec(db, c).db.users == db.users
    ensures DispatchSpec(db, c).db.counters.Keys == db.counters.Keys
    ensures forall id | id in db.counters :: DispatchSpec(db, c).db.counters[id].id == db.counters[id].id
  {
    var db1 := WithCounterStatus(db, c.id, Busy);
    var t := NextTicketOf(db1, CategoryIdsOf(c)).value.value;
    var db2 := WithAssignment(db1, t.id, c.id);
    assert DispatchSpec(db, c).db == db2;
    var found := FindById(db2.tickets, t.id).value;
    assert ServingAt(found, c.id);
  }

  /** Once CallNext has returned a ticket, calling again at once returns no ticket
      and changes nothing: the counter now has a serving ticket. */
  lemma SecondCallNextIsNoOp(db: DB, userId: int)
    requires CallNextSpec(db, userId).result.Ok? && CallNextSpec(db, userId).result.value.Some?
    ensures var db' := CallNextSpec(db, userId).db; CallNextSpec(db', userId) == Outcome(Ok(None), db')
  {
    var cid := CounterIdOf(db.users[userId]);
    var c := db.counters[cid];
    assert CallNextSpec(db, userId) == DispatchSpec(db, c);
    DispatchLeavesServing(db, c);
  }

  /** CompleteTicket completes the counter's current ticket and sets the counter idle. */
  lemma CompleteServes(db: DB, userId: int)
    requires userId in db.users && CounterIdOf(db.users[userId]) != 0
    requires CurrentAt(db, CounterIdOf(db.users[userId])).Some?
    ensures var cid := CounterIdOf(db.users[userId]);
      var t := CurrentAt(db, cid).value;
      var o := CompleteSpec(db, userId);
      && o.result == Ok(())
      && o.db.tickets == UpdateStatusRows(db.tickets, t.id, Completed, db.clock)
      && o.db.counters == WithCounterStatus(db, cid, Idle).counters
      && (forall u | u in o.db.tickets && u.id == t.id :: u.status == Completed && u.completedAt == Some(db.clock))
  {
  }

  /** Without a current ticket CompleteTicket and MarkNoShow change nothing. */
  lemma NothingToFinish(db: DB, userId: int)
    requires userId in db.users
    requires CurrentAt(db, CounterIdOf(db.users[userId])).None?
    ensures CompleteSpec(db, userId) == Outcome(Ok(()), db)
    ensures NoShowSpec(db, userId) == Outcome(Ok(()), db)
  {
  }

  /** MarkNoShow marks the current ticket no-show and leaves every counter as it was. */
  lemma NoShowLeavesCounter(db: DB, userId: int)
    requires userId in db.users && CounterIdOf(db.users[userId]) != 0
    requires CurrentAt(db, CounterIdOf(db.users[userId])).Some?
    ensures var t := CurrentAt(db, CounterIdOf(db.users[userId])).value;
      var o := NoShowSpec(db, userId);
      && o.result == Ok(())
      && o.db == db.(tickets := UpdateStatusRows(db.tickets, t.id, NoShow, db.clock))
      && (forall u | u in o.db.tickets && u.id == t.id :: u.status == NoShow && u.completedAt == Some(db.clock))
  {
  }

  /** PauseCounter and ResumeCounter set the counter's status, whatever it was, and touch no ticket. */
  lemma SetOwnCounterTouchesNoTicket(db: DB, userId: int, status: CounterStatus)
    requires userId in db.users
    ensures var o := SetOwnCounterSpec(db, userId, status);
      var cid := CounterIdOf(db.users[userId]);
      && o.result == Ok(())
      && o.db.tickets == db.tickets
      && (cid != 0 && cid in db.counters ==> o.db.counters == db.counters[cid := db.counters[cid].(status := status)])
      && (cid == 0 || cid !in db.counters ==> o.db == db)
  {
  }

  /** TransferTicket makes the ticket serving at the target counter, whatever its
      status was, and changes no counter. */
  lemma TransferAssigns(db: DB, ticketId: int, counterId: int)
    ensures var o := TransferSpec(db, ticketId, counterId);
      && o.db.counters == db.counters
      && (forall u | u in o.db.tickets && u.id == ticketId :: u.status == Serving && u.counterId == Some(counterId))
      && (o.result.Ok? ==> o.result.value.ticket.status == Serving && o.result.value.ticket.counterId == Some(counterId))
  {
  }

  /** CancelTicket cancels the ticket whatever its status and changes nothing else. */
  lemma CancelAnyStatus(db: DB, ticketId: int)
    ensures var o := CancelSpec(db, ticketId);
      && o.result == Ok(())
      && o.db.(tickets := db.tickets) == db
      && |o.db.tickets| == |db.tickets|
      && (forall i | 0 <= i < |db.tickets| && db.tickets[i].id == ticketId ::
            o.db.tickets[i] == db.tickets[i].(status := Cancelled))
      && (forall i | 0 <= i < |db.tickets| && db.tickets[i].id != ticketId :: o.db.tickets[i] == db.tickets[i])
  {
  }

  // ---------------------------------------------------------------------------
  // GetAllTickets: the listed page and the statistics of today's tickets.

  /** The `Total`, `Waiting`, `Serving` and `Completed` entries of the stats map. */
  datatype TicketStats = TicketStats(total: nat, waiting: nat, serving: nat, completed: nat)

  const NoStats: TicketStats := TicketStats(0, 0, 0, 0)

  /** The stats loop: Total is the number of tickets, the others count by status. */
  method TodayStats(todayTickets: seq<Ticket>) returns (stats: TicketStats)
    ensures stats.total == |todayTickets|
    ensures stats.waiting == CountStatus(todayTickets, Waiting)
    ensures stats.serving == CountStatus(todayTickets, Serving)
    ensures stats.completed == CountStatus(todayTickets, Completed)
  {
    stats := NoStats.(total := |todayTickets|);
    for i := 0 to |todayTickets|
      invariant stats.total == |todayTickets|
      invariant stats.waiting == CountStatus(todayTickets[..i], Waiting)
      invariant stats.serving == CountStatus(todayTickets[..i], Serving)
      invariant stats.completed == CountStatus(todayTickets[..i], Completed)
    {
      assert todayTickets[..i + 1][..i] == todayTickets[..i];
      match todayTickets[i].status {
        case Waiting => stats := stats.(waiting := stats.waiting + 1);
        case Serving => stats := stats.(serving := stats.serving + 1);
        case Completed => stats := stats.(completed := stats.completed + 1);
        case _ =>
      }
    }
    assert todayTickets[..|todayTickets|] == todayTickets;
  }

  /** The three counted statuses never exceed the total. */
  lemma StatsWithinTotal(todayTickets: seq<Ticket>)
    ensures CountStatus(todayTickets, Waiting) + CountStatus(todayTickets, Serving)
      + CountStatus(todayTickets, Completed) <= |todayTickets|
  {
    StatusCountsPartition(todayTickets);
  }

  /** Tickets of the given categories created today, in table order. */
  function TodayInCategories(rows: seq<Ticket>, categoryIds: seq<int>, isToday: int -> bool): (r: seq<Ticket>)
    ensures |r| <= |rows|
    ensures forall t | t in r :: t in rows && t.categoryId.Some? && t.categoryId.value in categoryIds && isToday(t.createdAt)
    ensures forall t | t in rows && t.categoryId.Some? && t.categoryId.value in categoryIds && isToday(t.createdAt) :: t in r
  {
    if rows == [] then []
    else
      var rest := TodayInCategories(rows[1..], categoryIds, isToday);
      var t := rows[0];
      if t.categoryId.Some? && t.categoryId.value in categoryIds && isToday(t.createdAt) then [t] + rest else rest
  }

  datatype TicketListResult = TicketListResult(tickets: seq<Ticket>, stats: TicketStats, totalCount: int)

  /** `listed` is what the filtered, paginated category query returns. */
  method GetAllTickets(store: Store, userId: int, listed: Result<(seq<Ticket>, int)>, isToday: int -> bool)
    returns (r: Result<TicketListResult>)
    ensures userId !in store.users ==> r.Err?
    ensures userId in store.users && CounterIdOf(store.users[userId]) == 0 ==> r == Ok(TicketListResult([], NoStats, 0))
    ensures userId in store.users && CounterIdOf(store.users[userId]) != 0 ==>
      var cid := CounterIdOf(store.users[userId]);
      && (cid !in store.counters ==> r == Err(NilCounterMessage))
      && (cid in store.counters && store.counters[cid].categoryId.None? ==> r == Ok(TicketListResult([], NoStats, 0)))
      && (cid in store.counters && store.counters[cid].categoryId.Some? ==>
            (listed.Err? ==> r == Err(listed.error))
            && (listed.Ok? ==>
                  (r.Ok? && r.value.tickets == listed.value.0 && r.value.totalCount == listed.value.1
                   && var today := TodayInCategories(store.tickets, [store.counters[cid].categoryId.value], isToday);
                      r.value.stats == TicketStats(|today|, CountStatus(today, Waiting), CountStatus(today, Serving),
                                                   CountStatus(today, Completed)))))
  {
    var user := store.GetUser(userId);
    if user.Err? {
      return Err(user.error);
    }
    var cid := CounterIdOf(user.value);
    if cid == 0 {
      return Ok(TicketListResult([], NoStats, 0));
    }
    var counter := store.GetCounter(cid);
    if counter.None? {
      return Err(NilCounterMessage);
    }
    var categoryIds := CategoryIdsOf(counter.value);
    var tickets: seq<Ticket>, totalCount := [], 0;
    if |categoryIds| > 0 {
      if listed.Err? {
        return Err(listed.error);
      }
      tickets, totalCount := listed.value.0, listed.value.1;
    }
    var stats := NoStats;
    if |categoryIds| > 0 {
      stats := TodayStats(TodayInCategories(store.tickets, categoryIds, isToday));
    }
    r := Ok(TicketListResult(tickets, stats, totalCount));
  }
}
