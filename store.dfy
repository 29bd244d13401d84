/** The repositories behind the services, as one in-memory store: the ticket
    table (rows in storage order), counters, categories and users keyed by id,
    the two association tables, the clock that `NOW()` reads and the next
    serial id of each table that hands out ids. The functions on `DB`
    say what each repository call returns or leaves behind; the `Store` class
    performs those calls in place. */
module Store {
  import opened Wrappers
  import opened Entities
  import opened TicketQueries
  import opened TicketRepository
  import opened Associations

  datatype DB = DB(
    tickets: seq<Ticket>,
    counters: map<int, Counter>,
    categories: map<int, Category>,
    users: map<int, User>,
    counterCategories: seq<Association>,
    userCounters: seq<Association>,
    clock: int,
    nextTicketId: int,
    nextCategoryId: int,
    nextCounterId: int)

  predicate UniqueIds(rows: seq<Ticket>) {
    forall i, j | 0 <= i < j < |rows| :: rows[i].id != rows[j].id
  }

  /** Keys agree with the stored ids, ticket ids are unique, and every id,
      including the counter of each counter_category row, is below its table's
      next serial id. */
  predicate Consistent(db: DB) {
    (forall id | id in db.counters :: db.counters[id].id == id && id < db.nextCounterId)
    && (forall id | id in db.categories :: db.categories[id].id == id && id < db.nextCategoryId)
    && (forall id | id in db.users :: db.users[id].id == id)
    && (forall i | 0 <= i < |db.tickets| :: db.tickets[i].id < db.nextTicketId)
    && (forall i | 0 <= i < |db.counterCategories| :: db.counterCategories[i].owner < db.nextCounterId)
    && UniqueIds(db.tickets)
  }

  const NoRowsMessage: string := "no rows in result set"

  /** UserRepository.GetByID: a missing user is an error. */
  function UserLookup(db: DB, id: int): (r: Result<User>)
    ensures r.Ok? <==> id in db.users
    ensures r.Ok? ==> r.value == db.users[id]
  {
    if id in db.users then Ok(db.users[id]) else Err(NoRowsMessage)
  }

  /** CounterRepository.GetByID: a missing counter is (nil, nil), not an error. */
  function CounterLookup(db: DB, id: int): (r: Option<Counter>)
    ensures r.Some? <==> id in db.counters
    ensures r.Some? ==> r.value == db.counters[id]
  {
    if id in db.counters then Some(db.counters[id]) else None
  }

  /** CategoryRepository.GetByID: a missing category is an error. */
  function CategoryLookup(db: DB, id: int): (r: Result<Category>)
    ensures r.Ok? <==> id in db.categories
    ensures r.Ok? ==> r.value == db.categories[id]
  {
    if id in db.categories then Ok(db.categories[id]) else Err(NoRowsMessage)
  }

  /** CounterRepository.UpdateStatus: `UPDATE counters SET status = $1 WHERE id = $2`. */
  function WithCounterStatus(db: DB, id: int, status: CounterStatus): (r: DB)
    ensures r.tickets == db.tickets && r.categories == db.categories && r.users == db.users
    ensures r.clock == db.clock && r.nextTicketId == db.nextTicketId
    ensures r.counters.Keys == db.counters.Keys
    ensures id in db.counters ==> r.counters[id] == db.counters[id].(status := status)
    ensures forall c | c in db.counters && c != id :: r.counters[c] == db.counters[c]
  {
    if id in db.counters then db.(counters := db.counters[id := db.counters[id].(status := status)]) else db
  }

  /** TicketRepository.UpdateStatus at the store's clock. */
  function WithTicketStatus(db: DB, id: int, status: TicketStatus): (r: DB)
    ensures r == db.(tickets := UpdateStatusRows(db.tickets, id, status, db.clock))
  {
    db.(tickets := UpdateStatusRows(db.tickets, id, status, db.clock))
  }

  /** TicketRepository.AssignToCounter at the store's clock. */
  function WithAssignment(db: DB, ticketId: int, counterId: int): (r: DB)
    ensures r == db.(tickets := AssignRows(db.tickets, ticketId, counterId, db.clock))
  {
    db.(tickets := AssignRows(db.tickets, ticketId, counterId, db.clock))
  }

  /** The columns GetNextTicket scans: the category goes to a local and the
      nullable columns are not read, so they stay NULL in the returned ticket. */
  function NextTicketColumns(t: Ticket): (r: Ticket)
    ensures r.id == t.id && r.ticketNumber == t.ticketNumber && r.status == t.status
    ensures r.categoryId.None? && r.counterId.None? && r.calledAt.None?
  {
    t.(categoryId := None, counterId := None, calledAt := None, completedAt := None,
       waitTime := None, serviceTime := None)
  }

  /** TicketRepository.GetNextTicket: an empty category list is an error without a query;
      no waiting ticket is (nil, nil). */
  function NextTicketOf(db: DB, categoryIds: seq<int>): (r: Result<Option<Ticket>>)
    ensures r.Err? <==> categoryIds == []
    ensures r.Ok? && r.value.None? <==> categoryIds != [] && forall t | t in db.tickets :: !Dispatchable(t, categoryIds)
    ensures r.Ok? && r.value.Some? ==>
      exists t | t in db.tickets :: Dispatchable(t, categoryIds) && r.value.value.id == t.id
  {
    if categoryIds == [] then Err("no categories provided")
    else
      match NextTicket(db.tickets, db.categories, categoryIds)
      case None => OptionalRow(NoRows)
      case Some(t) => OptionalRow(Row(NextTicketColumns(t)))
  }

  /** TicketRepository.GetCurrentForCounter; no serving ticket is (nil, nil). */
  function CurrentAt(db: DB, counterId: int): (r: Option<Ticket>)
    ensures r.None? <==> forall t | t in db.tickets :: !ServingAt(t, counterId)
    ensures r.Some? ==> r.value in db.tickets && ServingAt(r.value, counterId)
  {
    CurrentForCounter(db.tickets, counterId)
  }

  /** TicketRepository.GetWithDetails: no row is an error, and so is a NULL category. */
  function DetailsById(db: DB, id: int): (r: Result<TicketDetails>)
    ensures r.Ok? ==> r.value.ticket.id == id && r.value.ticket.categoryId.None?
    ensures r.Ok? ==> exists t | t in db.tickets :: t.id == id && t.status == r.value.ticket.status
    ensures (forall t | t in db.tickets :: t.id != id) ==> r == Err(NoRowsMessage)
  {
    match FindById(db.tickets, id)
    case None => Err(NoRowsMessage)
    case Some(t) => ScannedDetails(t, db)
  }

  /** TicketRepository.GetByTicketNumber, with the same join as GetWithDetails. */
  function DetailsByNumber(db: DB, number: string): (r: Result<TicketDetails>)
    ensures r.Ok? ==> r.value.ticket.ticketNumber == number && r.value.ticket.categoryId.None?
    ensures r.Ok? ==> exists t | t in db.tickets ::
      (t.ticketNumber == number && t.status == r.value.ticket.status
       && t.createdAt == r.value.ticket.createdAt && t.categoryId == Some(r.value.category.id))
    ensures (forall t | t in db.tickets :: t.ticketNumber != number) ==> r == Err(NoRowsMessage)
  {
    match FindByNumber(db.tickets, number)
    case None => Err(NoRowsMessage)
    case Some(t) => ScannedDetails(t, db)
  }

  /** Both detail reads scan the ticket's `category_id` into a local, so the
      returned ticket's own CategoryID stays NULL; the joined category carries it. */
  function ScannedDetails(t: Ticket, db: DB): (r: Result<TicketDetails>)
    ensures r.Ok? <==> t.categoryId.Some? && t.categoryId.value in db.categories
    ensures r.Ok? ==> r.value.ticket == t.(categoryId := None) && r.value.category.id == t.categoryId.value
  {
    match JoinDetails(t, db.categories, db.counters)
    case Ok(d) => Ok(d.(ticket := t.(categoryId := None)))
    case Err(e) => Err(e)
  }

  /** The row `INSERT ... RETURNING id, created_at` stores: the inserted columns,
      the new serial id, the clock, and NULL in every column that is not inserted. */
  function InsertedRow(t: Ticket, id: int, now: int): (r: Ticket)
    ensures r.id == id && r.createdAt == now
    ensures r.ticketNumber == t.ticketNumber && r.categoryId == t.categoryId
    ensures r.status == t.status && r.priority == t.priority && r.notes == t.notes
    ensures r.counterId.None? && r.calledAt.None? && r.completedAt.None?
  {
    t.(id := id, createdAt := now, counterId := None, calledAt := None, completedAt := None,
       waitTime := None, serviceTime := None)
  }

  /** TicketRepository.Create: the new table and the ticket with ID and CreatedAt written back. */
  function Inserted(db: DB, t: Ticket): (r: (DB, Ticket))
    ensures r.0.tickets == db.tickets + [InsertedRow(t, db.nextTicketId, db.clock)]
    ensures r.0.nextTicketId == db.nextTicketId + 1
    ensures r.0.(tickets := db.tickets, nextTicketId := db.nextTicketId) == db
    ensures r.1 == t.(id := db.nextTicketId, createdAt := db.clock)
  {
    (db.(tickets := db.tickets + [InsertedRow(t, db.nextTicketId, db.clock)], nextTicketId := db.nextTicketId + 1),
     t.(id := db.nextTicketId, createdAt := db.clock))
  }

  /** CategoryRepository.Create: the row is stored under the next serial id, which is written back. */
  function InsertedCategory(db: DB, c: Category): (r: (DB, Category))
    ensures r.1 == c.(id := db.nextCategoryId)
    ensures r.0 == db.(categories := db.categories[db.nextCategoryId := r.1], nextCategoryId := db.nextCategoryId + 1)
  {
    var created := c.(id := db.nextCategoryId);
    (db.(categories := db.categories[db.nextCategoryId := created], nextCategoryId := db.nextCategoryId + 1), created)
  }

  /** CounterRepository.Create, in the same way. */
  function InsertedCounter(db: DB, c: Counter): (r: (DB, Counter))
    ensures r.1 == c.(id := db.nextCounterId)
    ensures r.0 == db.(counters := db.counters[db.nextCounterId := r.1], nextCounterId := db.nextCounterId + 1)
  {
    var created := c.(id := db.nextCounterId);
    (db.(counters := db.counters[db.nextCounterId := created], nextCounterId := db.nextCounterId + 1), created)
  }

  /** An `UPDATE ... WHERE id = $n` of a category: no row matches a missing id. */
  function WithCategory(db: DB, c: Category): (r: DB)
    ensures c.id in db.categories ==> r == db.(categories := db.categories[c.id := c])
    ensures c.id !in db.categories ==> r == db
  {
    if c.id in db.categories then db.(categories := db.categories[c.id := c]) else db
  }

  /** UserRepository.Update, in the same way. */
  function WithUser(db: DB, u: User): (r: DB)
    ensures u.id in db.users ==> r == db.(users := db.users[u.id := u])
    ensures u.id !in db.users ==> r == db
  {
    if u.id in db.users then db.(users := db.users[u.id := u]) else db
  }

  lemma InsertKeepsConsistent(db: DB, t: Ticket)
    requires Consistent(db)
    ensures Consistent(Inserted(db, t).0)
  {
    var n := Inserted(db, t).0;
    assert forall i | 0 <= i < |db.tickets| :: n.tickets[i] == db.tickets[i];
  }

  /** In a ticket table with unique ids, looking an id up finds its one row. */
  lemma {:induction false} FindUnique(rows: seq<Ticket>, i: int)
    requires UniqueIds(rows) && 0 <= i < |rows|
    ensures FindById(rows, rows[i].id) == Some(rows[i])
  {
    if i > 0 {
      assert rows[0].id != rows[i].id;
      assert UniqueIds(rows[1..]) by {
        forall a, b | 0 <= a < b < |rows| - 1 ensures rows[1..][a].id != rows[1..][b].id {
          assert rows[1..][a] == rows[a + 1] && rows[1..][b] == rows[b + 1];
        }
      }
      FindUnique(rows[1..], i - 1);
    }
  }

  /** The in-memory store; each method is one repository call. */
  class Store {
    var tickets: seq<Ticket>
    var counters: map<int, Counter>
    var categories: map<int, Category>
    var users: map<int, User>
    var counterCategories: seq<Association>
    var userCounters: seq<Association>
    var clock: int
    var nextTicketId: int
    var nextCategoryId: int
    var nextCounterId: int

    function State(): (db: DB)
      reads this
      ensures db.tickets == tickets && db.counters == counters && db.categories == categories
      ensures db.users == users && db.counterCategories == counterCategories && db.userCounters == userCounters
      ensures db.clock == clock && db.nextTicketId == nextTicketId
      ensures db.nextCategoryId == nextCategoryId && db.nextCounterId == nextCounterId
    {
      DB(tickets, counters, categories, users, counterCategories, userCounters, clock, nextTicketId,
         nextCategoryId, nextCounterId)
    }

    constructor (db: DB)
      ensures State() == db
    {
      tickets, counters, categories, users := db.tickets, db.counters, db.categories, db.users;
      counterCategories, userCounters := db.counterCategories, db.userCounters;
      clock, nextTicketId := db.clock, db.nextTicketId;
      nextCategoryId, nextCounterId := db.nextCategoryId, db.nextCounterId;
    }

    /** Time passes between requests. */
    method Tick(seconds: nat)
      modifies this
      ensures State() == old(State()).(clock := old(clock) + seconds)
    {
      clock := clock + seconds;
    }

    method GetUser(id: int) returns (r: Result<User>)
      ensures r == UserLookup(State(), id)
    {
      r := if id in users then Ok(users[id]) else Err(NoRowsMessage);
    }

    method GetCounter(id: int) returns (r: Option<Counter>)
      ensures r == CounterLookup(State(), id)
    {
      r := if id in counters then Some(counters[id]) else None;
    }

    method GetCategory(id: int) returns (r: Result<Category>)
      ensures r == CategoryLookup(State(), id)
    {
      r := if id in categories then Ok(categories[id]) else Err(NoRowsMessage);
    }

    method UpdateCounterStatus(id: int, status: CounterStatus)
      modifies this
      ensures State() == WithCounterStatus(old(State()), id, status)
    {
      if id in counters {
        counters := counters[id := counters[id].(status := status)];
      }
    }

    method GetNextTicket(categoryIds: seq<int>) returns (r: Result<Option<Ticket>>)
      ensures r == NextTicketOf(State(), categoryIds)
    {
      if |categoryIds| == 0 {
        return Err("no categories provided");
      }
      var next := NextTicket(tickets, categories, categoryIds);
      r := OptionalRow(if next.Some? then Row(NextTicketColumns(next.value)) else NoRows);
    }

    method GetCurrentForCounter(counterId: int) returns (r: Option<Ticket>)
      ensures r == CurrentAt(State(), counterId)
    {
      r := CurrentForCounter(tickets, counterId);
    }

    method UpdateStatus(id: int, status: TicketStatus)
      modifies this
      ensures State() == WithTicketStatus(old(State()), id, status)
    {
      tickets := UpdateStatusRows(tickets, id, status, clock);
    }

    method AssignToCounter(ticketId: int, counterId: int)
      modifies this
      ensures State() == WithAssignment(old(State()), ticketId, counterId)
    {
      tickets := AssignRows(tickets, ticketId, counterId, clock);
    }

    method GetWithDetails(id: int) returns (r: Result<TicketDetails>)
      ensures r == DetailsById(State(), id)
    {
      var t := FindById(tickets, id);
      r := if t.None? then Err(NoRowsMessage) else ScannedDetails(t.value, State());
    }

    method GetByTicketNumber(number: string) returns (r: Result<TicketDetails>)
      ensures r == DetailsByNumber(State(), number)
    {
      var t := FindByNumber(tickets, number);
      r := if t.None? then Err(NoRowsMessage) else ScannedDetails(t.value, State());
    }

    method GetTodayCountByCategory(categoryId: int, isToday: int -> bool) returns (n: nat)
      ensures n == CountTodayInCategory(State().tickets, categoryId, isToday)
    {
      n := CountTodayInCategory(tickets, categoryId, isToday);
    }

    /** TicketRepository.GenerateNumber: the numbering query as written, formatted. */
    method GenerateTicketNumber(prefix: string, isToday: int -> bool) returns (r: Result<(string, int)>)
      ensures r == GenerateNumberAsWritten(State().tickets, prefix, isToday)
    {
      r := GenerateNumberAsWritten(tickets, prefix, isToday);
    }

    method Create(t: Ticket) returns (created: Ticket)
      modifies this
      ensures (State(), created) == Inserted(old(State()), t)
    {
      tickets := tickets + [InsertedRow(t, nextTicketId, clock)];
      created := t.(id := nextTicketId, createdAt := clock);
      nextTicketId := nextTicketId + 1;
    }

    method CreateCategory(c: Category) returns (created: Category)
      modifies this
      ensures (State(), created) == InsertedCategory(old(State()), c)
    {
      created := c.(id := nextCategoryId);
      categories := categories[nextCategoryId := created];
      nextCategoryId := nextCategoryId + 1;
    }

    method UpdateCategory(c: Category)
      modifies this
      ensures State() == WithCategory(old(State()), c)
    {
      if c.id in categories {
        categories := categories[c.id := c];
      }
    }

    method CreateCounter(c: Counter) returns (created: Counter)
      modifies this
      ensures (State(), created) == InsertedCounter(old(State()), c)
    {
      created := c.(id := nextCounterId);
      counters := counters[nextCounterId := created];
      nextCounterId := nextCounterId + 1;
    }

    method UpdateUser(u: User)
      modifies this
      ensures State() == WithUser(old(State()), u)
    {
      if u.id in users {
        users := users[u.id := u];
      }
    }

    /** CounterCategoryRepository.DeleteByCounterID. */
    method DeleteCounterCategories(counterId: int)
      modifies this
      ensures State() == old(State()).(counterCategories := WithoutOwner(old(counterCategories), counterId))
    {
      counterCategories := WithoutOwner(counterCategories, counterId);
    }

    /** CounterCategoryRepository.Create. */
    method CreateCounterCategory(counterId: int, categoryId: int)
      modifies this
      ensures State() == old(State()).(counterCategories := old(counterCategories) + [Association(counterId, categoryId)])
    {
      counterCategories := counterCategories + [Association(counterId, categoryId)];
    }

    /** UserCounterRepository.DeleteByUserID. */
    method DeleteUserCounters(userId: int)
      modifies this
      ensures State() == old(State()).(userCounters := WithoutOwner(old(userCounters), userId))
    {
      userCounters := WithoutOwner(userCounters, userId);
    }

    /** UserCounterRepository.Create. */
    method CreateUserCounter(userId: int, counterId: int)
      modifies this
      ensures State() == old(State()).(userCounters := old(userCounters) + [Association(userId, counterId)])
    {
      userCounters := userCounters + [Association(userId, counterId)];
    }
  }
}
