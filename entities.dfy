/** The records of the queue server: users, service categories, counters and
    tickets, with the fixed status vocabularies. Timestamps are integers
    (seconds); a nullable column is an `Option` (or a `NullString` where the
    code keeps the raw nullable string). */
module Entities {
  import opened Wrappers
  import opened Sql

  /** Ticket statuses accepted by the status-update request. */
  datatype TicketStatus = Waiting | Serving | Completed | NoShow | Cancelled

  /** Counter statuses; `Busy` is the status named `serving`. */
  datatype CounterStatus = Offline | Idle | Busy | Paused

  function TicketStatusName(s: TicketStatus): (r: string)
    ensures r != ""
  {
    match s
    case Waiting => "waiting"
    case Serving => "serving"
    case Completed => "completed"
    case NoShow => "no_show"
    case Cancelled => "cancelled"
  }

  /** The `oneof` validation of the status field: the five names and nothing else. */
  function ParseTicketStatus(name: string): (r: Option<TicketStatus>)
    ensures r.Some? ==> TicketStatusName(r.value) == name
  {
    if name == "waiting" then Some(Waiting)
    else if name == "serving" then Some(Serving)
    else if name == "completed" then Some(Completed)
    else if name == "no_show" then Some(NoShow)
    else if name == "cancelled" then Some(Cancelled)
    else None
  }

  lemma TicketStatusRoundTrip(s: TicketStatus)
    ensures ParseTicketStatus(TicketStatusName(s)) == Some(s)
  {
  }

  function CounterStatusName(s: CounterStatus): (r: string)
    ensures r != ""
  {
    match s
    case Offline => "offline"
    case Idle => "idle"
    case Busy => "serving"
    case Paused => "paused"
  }

  datatype User = User(
    id: int,
    username: string,
    fullName: NullString,
    email: NullString,
    phone: NullString,
    role: string,
    isActive: bool,
    counterId: Option<int>)

  datatype Category = Category(
    id: int,
    name: string,
    prefix: string,
    priority: int,
    colorCode: string,
    description: NullString,
    icon: NullString,
    isActive: bool)

  datatype Counter = Counter(
    id: int,
    number: string,
    name: NullString,
    location: NullString,
    status: CounterStatus,
    categoryId: Option<int>,
    currentStaffId: Option<int>)

  datatype Ticket = Ticket(
    id: int,
    ticketNumber: string,
    categoryId: Option<int>,
    counterId: Option<int>,
    status: TicketStatus,
    priority: int,
    createdAt: int,
    calledAt: Option<int>,
    completedAt: Option<int>,
    waitTime: Option<int>,
    serviceTime: Option<int>,
    dailySequence: int,
    queueDate: int,
    notes: NullString)

  // ---------------------------------------------------------------------------
  // Counting ticket rows by status.

  /** The number of tickets with the given status. */
  function CountStatus(rows: seq<Ticket>, status: TicketStatus): (n: nat)
    ensures n <= |rows|
  {
    if rows == [] then 0
    else CountStatus(rows[..|rows| - 1], status) + (if rows[|rows| - 1].status == status then 1 else 0)
  }

  /** The count is zero exactly when no ticket has the status. */
  lemma {:induction false} CountStatusZero(rows: seq<Ticket>, status: TicketStatus)
    ensures CountStatus(rows, status) == 0 <==> forall t | t in rows :: t.status != status
  {
    if rows != [] {
      var n := |rows| - 1;
      CountStatusZero(rows[..n], status);
      assert rows == rows[..n] + [rows[n]];
    }
  }

  /** Every ticket has exactly one of the five statuses. */
  lemma {:induction false} StatusCountsPartition(rows: seq<Ticket>)
    ensures CountStatus(rows, Waiting) + CountStatus(rows, Serving) + CountStatus(rows, Completed)
      + CountStatus(rows, NoShow) + CountStatus(rows, Cancelled) == |rows|
  {
    if rows != [] {
      StatusCountsPartition(rows[..|rows| - 1]);
    }
  }
}
