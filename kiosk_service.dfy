/** Ticket issuance at the kiosk: a new waiting ticket with the next number of
    its category's prefix, its queue position and an estimated wait. */
module KioskService {
  import opened Wrappers
  import opened Text
  import opened Sql
  import opened Entities
  import opened TicketQueries
  import opened TicketRepository
  import opened Store

  datatype CreateTicketRequest = CreateTicketRequest(categoryId: int, priority: int)

  /** The issued ticket with its details, the queue position and the estimate in minutes. */
  datatype Issuance = Issuance(ticket: TicketDetails, queuePosition: int, estimatedWaitTime: int)

  /** The ticket GenerateTicket hands to Create. */
  function NewTicket(number: string, req: CreateTicketRequest): (t: Ticket)
    ensures t.ticketNumber == number && t.categoryId == Some(req.categoryId)
    ensures t.status == Waiting && t.priority == req.priority
  {
    Ticket(0, number, Some(req.categoryId), None, Waiting, req.priority, 0, None, None, None, None, 0, 0,
           NullString("", false))
  }

  /** `stats.AvgWaitTime * queuePosition / 60` in Go's integer arithmetic. */
  function EstimatedMinutes(avgWaitSeconds: int, position: int): (m: int)
    ensures avgWaitSeconds >= 0 && position >= 0 ==> m == (avgWaitSeconds * position) / 60
  {
    GoQuo(avgWaitSeconds * position, 60)
  }

  /** The figure the kiosk test expects: 600 s average and position 5 give 50 minutes. */
  lemma EstimateSample()
    ensures EstimatedMinutes(600, 5) == 50
  {
  }

  /** The estimate grows with the position. */
  lemma {:induction false} EstimateMonotone(avgWaitSeconds: nat, p: nat, q: nat)
    requires p <= q
    ensures EstimatedMinutes(avgWaitSeconds, p) <= EstimatedMinutes(avgWaitSeconds, q)
  {
    assert avgWaitSeconds * p <= avgWaitSeconds * q by {
      MultiplyMonotone(avgWaitSeconds, p, q);
    }
    DivideMonotone(avgWaitSeconds * p, avgWaitSeconds * q, 60);
  }

  lemma MultiplyMonotone(a: nat, p: nat, q: nat)
    requires p <= q
    ensures a * p <= a * q
  {
  }

  lemma DivideMonotone(x: nat, y: nat, d: nat)
    requires x <= y && d > 0
    ensures x / d <= y / d
  {
    if x / d > y / d {
      assert d * (x / d) <= x;
      assert y < d * (y / d) + d;
      MultiplyMonotone(d, y / d + 1, x / d);
    }
  }

  /** What GenerateTicket does once the category is known and the number
      query has answered: insert the ticket, read it back, count the category's
      tickets of today and estimate the wait. A failed read-back leaves the
      inserted row in place. */
  function Issue(db: DB, req: CreateTicketRequest, category: Category, numbered: Result<(string, int)>,
                 isToday: int -> bool, countFailed: bool, avgWaitSeconds: Option<int>): (o: (Result<Issuance>, DB))
  {
    match numbered
    case Err(e) => (Err(e), db)
    case Ok(n) =>
      var (db1, created) := Inserted(db, NewTicket(n.0, req));
      match DetailsById(db1, created.id)
      case Err(e) => (Err(e), db1)
      case Ok(d) =>
        var position := if countFailed then 0 else CountTodayInCategory(db1.tickets, category.id, isToday);
        var estimate := if avgWaitSeconds.None? then 0 else EstimatedMinutes(avgWaitSeconds.value, position);
        (Ok(Issuance(d, position, estimate)), db1)
  }

  /** GenerateTicket on a state, for the request, the "today" test, and the two
      queries whose failure the model takes as input: `countFailed` for the
      category count and `avgWaitSeconds` for the dashboard average (None when
      that query fails). The number is the one the repository's query gives. */
  function GenerateTicketSpec(db: DB, req: CreateTicketRequest, isToday: int -> bool,
                              countFailed: bool, avgWaitSeconds: Option<int>): (o: (Result<Issuance>, DB))
    ensures req.categoryId !in db.categories ==> o == (Err(NoRowsMessage), db)
    ensures o.1 != db ==>
      && req.categoryId in db.categories
      && var numbered := GenerateNumberAsWritten(db.tickets, db.categories[req.categoryId].prefix, isToday);
         numbered.Ok? && o.1 == Inserted(db, NewTicket(numbered.value.0, req)).0
    ensures o.0.Ok? ==> |o.1.tickets| == |db.tickets| + 1
  {
    match CategoryLookup(db, req.categoryId)
    case Err(e) => (Err(e), db)
    case Ok(category) =>
      Issue(db, req, category, GenerateNumberAsWritten(db.tickets, category.prefix, isToday), isToday, countFailed, avgWaitSeconds)
  }

  /** Issuance as evidently intended: the same steps with the corrected numbering. */
  function CorrectedGenerateTicketSpec(db: DB, req: CreateTicketRequest, isToday: int -> bool,
                                       countFailed: bool, avgWaitSeconds: Option<int>): (o: (Result<Issuance>, DB))
    ensures req.categoryId !in db.categories ==> o == (Err(NoRowsMessage), db)
    ensures o.1 != db ==>
      && req.categoryId in db.categories
      && var numbered := GenerateNumber(db.tickets, db.categories[req.categoryId].prefix, isToday);
         numbered.Ok? && o.1 == Inserted(db, NewTicket(numbered.value.0, req)).0
    ensures o.0.Ok? ==> |o.1.tickets| == |db.tickets| + 1
  {
    match CategoryLookup(db, req.categoryId)
    case Err(e) => (Err(e), db)
    case Ok(category) =>
      Issue(db, req, category, GenerateNumber(db.tickets, category.prefix, isToday), isToday, countFailed, avgWaitSeconds)
  }

  method GenerateTicket(store: Store, req: CreateTicketRequest, isToday: int -> bool,
                        countFailed: bool, avgWaitSeconds: Option<int>) returns (r: Result<Issuance>)
    modifies store
    ensures (r, store.State()) == GenerateTicketSpec(old(store.State()), req, isToday, countFailed, avgWaitSeconds)
  {
    var category := store.GetCategory(req.categoryId);
    if category.Err? {
      return Err(category.error);
    }
    var numbered := store.GenerateTicketNumber(category.value.prefix, isToday);
    if numbered.Err? {
      return Err(numbered.error);
    }
    var created := store.Create(NewTicket(numbered.value.0, req));
    var details := store.GetWithDetails(created.id);
    if details.Err? {
      return Err(details.error);
    }
    var waitingCount := 0;
    if !countFailed {
      waitingCount := store.GetTodayCountByCategory(category.value.id, isToday);
    }
    var queuePosition := waitingCount;
    if avgWaitSeconds.None? {
      return Ok(Issuance(details.value, queuePosition, 0));
    }
    r := Ok(Issuance(details.value, queuePosition, EstimatedMinutes(avgWaitSeconds.value, queuePosition)));
  }

  // ---------------------------------------------------------------------------
  // Properties of issuance.

  /** A failed category lookup or numbering returns an error and stores nothing. */
  lemma FailureStoresNothing(db: DB, req: CreateTicketRequest, isToday: int -> bool,
                             countFailed: bool, avgWaitSeconds: Option<int>)
    requires req.categoryId !in db.categories
      || GenerateNumberAsWritten(db.tickets, db.categories[req.categoryId].prefix, isToday).Err?
    ensures GenerateTicketSpec(db, req, isToday, countFailed, avgWaitSeconds).0.Err?
    ensures GenerateTicketSpec(db, req, isToday, countFailed, avgWaitSeconds).1 == db
  {
  }

  /** In a consistent store, issuing with the number `numbered` under a known
      category succeeds and appends exactly one waiting row carrying that number. */
  lemma {:induction false} IssueAppends(db: DB, req: CreateTicketRequest, numbered: (string, int), isToday: int -> bool,
                                        countFailed: bool, avgWaitSeconds: Option<int>)
    requires Consistent(db) && req.categoryId in db.categories
    ensures var (r, db') := Issue(db, req, db.categories[req.categoryId], Ok(numbered), isToday, countFailed, avgWaitSeconds);
      && r.Ok?
      && db'.tickets[..|db.tickets|] == db.tickets && |db'.tickets| == |db.tickets| + 1
      && (var row := db'.tickets[|db.tickets|];
          row.status == Waiting && row.categoryId == Some(req.categoryId) && row.priority == req.priority
          && row.ticketNumber == numbered.0 && row.id == db.nextTicketId)
      && r.value.ticket.ticket.id == db.nextTicketId && r.value.ticket.ticket.status == Waiting
      && r.value.queuePosition == (if countFailed then 0 else CountTodayInCategory(db'.tickets, req.categoryId, isToday))
      && (avgWaitSeconds.None? ==> r.value.estimatedWaitTime == 0)
  {
    var (db1, created) := Inserted(db, NewTicket(numbered.0, req));
    InsertKeepsConsistent(db, NewTicket(numbered.0, req));
    assert db1.tickets[|db.tickets|].id == created.id;
    FindUnique(db1.tickets, |db.tickets|);
    assert db1.tickets[..|db.tickets|] == db.tickets;
  }

  /** In a consistent store with the category present and the query answering,
      issuance succeeds: it appends one waiting row with the request's category
      and priority, numbered `<prefix><n>` with n the number the query returns
      (which may repeat a number of today, see TicketRepository.TextMaximumRepeatsNumber);
      the position is today's count for the category (0 when the count fails),
      and the estimate is 0 without statistics. */
  lemma IssuedTicketWaits(db: DB, req: CreateTicketRequest, isToday: int -> bool,
                          countFailed: bool, avgWaitSeconds: Option<int>)
    requires Consistent(db) && req.categoryId in db.categories
    requires GenerateTicketNumberAsWritten(db.tickets, db.categories[req.categoryId].prefix, isToday).Ok?
    ensures var (r, db') := GenerateTicketSpec(db, req, isToday, countFailed, avgWaitSeconds);
      var prefix := db.categories[req.categoryId].prefix;
      var n := GenerateTicketNumberAsWritten(db.tickets, prefix, isToday).value;
      && r.Ok?
      && db'.tickets[..|db.tickets|] == db.tickets && |db'.tickets| == |db.tickets| + 1
      && (var row := db'.tickets[|db.tickets|];
          row.status == Waiting && row.categoryId == Some(req.categoryId) && row.priority == req.priority
          && row.ticketNumber == FormatTicketNumber(prefix, n) && row.id == db.nextTicketId)
      && r.value.ticket.ticket.id == db.nextTicketId && r.value.ticket.ticket.status == Waiting
      && r.value.queuePosition == (if countFailed then 0 else CountTodayInCategory(db'.tickets, req.categoryId, isToday))
      && (avgWaitSeconds.None? ==> r.value.estimatedWaitTime == 0)
  {
    var category := db.categories[req.categoryId];
    IssueAppends(db, req, GenerateNumberAsWritten(db.tickets, category.prefix, isToday).value, isToday, countFailed, avgWaitSeconds);
  }

  /** With the corrected numbering, the issued ticket's number is one that no
      ticket of today carries, and the rest of the issuance is the same. */
  lemma CorrectedIssuanceIsNew(db: DB, req: CreateTicketRequest, isToday: int -> bool,
                               countFailed: bool, avgWaitSeconds: Option<int>)
    requires Consistent(db) && req.categoryId in db.categories
    requires GenerateNumber(db.tickets, db.categories[req.categoryId].prefix, isToday).Ok?
    ensures var (r, db') := CorrectedGenerateTicketSpec(db, req, isToday, countFailed, avgWaitSeconds);
      && r.Ok? && |db'.tickets| == |db.tickets| + 1 && db'.tickets[..|db.tickets|] == db.tickets
      && db'.tickets[|db.tickets|].status == Waiting
      && forall t | t in db.tickets && isToday(t.createdAt) :: t.ticketNumber != db'.tickets[|db.tickets|].ticketNumber
  {
    var category := db.categories[req.categoryId];
    var numbered := GenerateNumber(db.tickets, category.prefix, isToday).value;
    GeneratedNumberIsNew(db.tickets, category.prefix, isToday);
    IssueAppends(db, req, numbered, isToday, countFailed, avgWaitSeconds);
  }
}
