/** The staff pages' arithmetic: the page and limit query parameters with
    their defaults, the offset handed to the ticket list, the page count and
    the previous/next links; and the HTTP status of the "call next" action
    together with the one broadcast it makes. */
module StaffHandler {
  import opened Wrappers
  import opened Text
  import opened TicketRepository
  import opened Store
  import opened StaffService
  import Hub

  const DefaultPage: int := 1
  const DefaultLimit: int := 20

  /** A query parameter as `strconv.Atoi` reads it, replaced by `default` when it
      is not an integer or is below 1. */
  function Positive(raw: string, default: int): (n: int)
    requires default >= 1
    ensures n >= 1
    ensures Atoi(raw).Some? && Atoi(raw).value >= 1 ==> n == Atoi(raw).value
    ensures Atoi(raw).None? || Atoi(raw).value < 1 ==> n == default
  {
    var v := Atoi(raw);
    if v.None? || v.value < 1 then default else v.value
  }

  /** `c.DefaultQuery(key, default)`: the parameter's text when present (even empty), else the default text. */
  function QueryParam(query: map<string, string>, key: string, default: string): (s: string)
    ensures key in query ==> s == query[key]
    ensures key !in query ==> s == default
  {
    if key in query then query[key] else default
  }

  /** The pagination block of the tickets page. */
  datatype Pagination = Pagination(page: int, limit: int, offset: int, totalPages: int, hasPrev: bool, hasNext: bool)

  /** `(totalCount + limit - 1) / limit`, at least 1. */
  function TotalPages(totalCount: int, limit: int): (n: int)
    requires limit >= 1
    ensures n >= 1
    ensures totalCount <= limit ==> n == 1
    ensures totalCount >= 1 ==> (n - 1) * limit < totalCount <= n * limit
  {
    var q := GoQuo(totalCount + limit - 1, limit);
    CeilingBounds(totalCount, limit);
    if q < 1 then 1 else q
  }

  /** The quotient Go computes for a ceiling division lies between the page bounds. */
  lemma CeilingBounds(totalCount: int, limit: int)
    requires limit >= 1
    ensures totalCount >= 1 ==> (GoQuo(totalCount + limit - 1, limit) - 1) * limit < totalCount
    ensures totalCount >= 1 ==> totalCount <= GoQuo(totalCount + limit - 1, limit) * limit
    ensures totalCount <= limit ==> GoQuo(totalCount + limit - 1, limit) <= 1
  {
    var a := totalCount + limit - 1;
    var q := GoQuo(a, limit);
    GoDivision(a, limit);
    assert (q - 1) * limit == q * limit - limit;
    if a >= 0 && totalCount <= limit && q >= 2 {
      MultiplyLe(2, q, limit);
      assert false;
    }
  }

  /** TicketsPage's pagination for the raw `page` and `limit` parameters and the list's total. */
  function PaginationOf(query: map<string, string>, totalCount: int): (p: Pagination)
    ensures p.page >= 1 && p.limit >= 1 && p.offset >= 0 && p.totalPages >= 1
    ensures p.page == Positive(QueryParam(query, "page", "1"), DefaultPage)
    ensures p.limit == Positive(QueryParam(query, "limit", "20"), DefaultLimit)
    ensures p.offset == (p.page - 1) * p.limit
    ensures p.totalPages == TotalPages(totalCount, p.limit)
    ensures p.hasPrev <==> p.page > 1
    ensures p.hasNext <==> p.page < p.totalPages
  {
    var page := Positive(QueryParam(query, "page", "1"), DefaultPage);
    var limit := Positive(QueryParam(query, "limit", "20"), DefaultLimit);
    var totalPages := TotalPages(totalCount, limit);
    MultiplyLe(0, page - 1, limit);
    Pagination(page, limit, (page - 1) * limit, totalPages, page > 1, page < totalPages)
  }

  /** Absent parameters give page 1 of 20 rows, starting at row 0. */
  lemma DefaultPagination(totalCount: int)
    ensures var p := PaginationOf(map[], totalCount);
      p.page == 1 && p.limit == 20 && p.offset == 0 && !p.hasPrev
  {
    assert Atoi("1") == Some(1) by { AtoiRoundTrip(1); }
    assert Atoi("20") == Some(20) by { AtoiRoundTrip(20); }
  }

  /** A "next" link is shown exactly when rows remain after this page. */
  lemma {:induction false} HasNextIffRowsRemain(query: map<string, string>, totalCount: int)
    ensures var p := PaginationOf(query, totalCount);
      p.hasNext <==> p.offset + p.limit < totalCount
  {
    var p := PaginationOf(query, totalCount);
    if totalCount >= 1 {
      if p.page < p.totalPages {
        assert p.page * p.limit <= (p.totalPages - 1) * p.limit by {
          MultiplyLe(p.page, p.totalPages - 1, p.limit);
        }
      } else {
        assert p.totalPages * p.limit <= p.page * p.limit by {
          MultiplyLe(p.totalPages, p.page, p.limit);
        }
      }
    } else {
      assert p.totalPages == 1;
    }
  }

  lemma MultiplyLe(a: int, b: int, k: nat)
    requires a <= b
    ensures a * k <= b * k
  {
  }

  /** The page after this one starts exactly where this one ends. */
  lemma NextPageFollows(query: map<string, string>, totalCount: int, raw: string)
    requires Atoi(raw) == Some(PaginationOf(query, totalCount).page + 1)
    ensures var p := PaginationOf(query, totalCount);
      var q := PaginationOf(query["page" := raw], totalCount);
      q.limit == p.limit && q.offset == p.offset + p.limit && q.hasPrev
  {
    var p := PaginationOf(query, totalCount);
    var q := PaginationOf(query["page" := raw], totalCount);
    assert q.page == p.page + 1;
    assert q.limit == p.limit;
    assert p.page * p.limit == (p.page - 1) * p.limit + p.limit;
  }

  // ---------------------------------------------------------------------------
  // The "call next" action.

  const StatusOK: int := 200
  const StatusConflict: int := 409
  const StatusInternalServerError: int := 500

  /** The HTTP status for the service's answer: a failure is 500, no ticket is 409, a ticket 200. */
  function CallNextStatus(r: Result<Option<TicketDetails>>): (status: int)
    ensures r.Err? <==> status == StatusInternalServerError
    ensures r.Ok? && r.value.None? <==> status == StatusConflict
    ensures r.Ok? && r.value.Some? <==> status == StatusOK
  {
    match r
    case Err(_) => StatusInternalServerError
    case Ok(None) => StatusConflict
    case Ok(Some(_)) => StatusOK
  }

  /** The hub after the action: one ticket_update carrying the called ticket
      (its JSON text is `encode(ticket)`) when there is one, nothing otherwise. */
  function AfterCallNext(h: Hub.HubState, r: Result<Option<TicketDetails>>, encode: TicketDetails -> string): (h': Hub.HubState)
    requires Hub.Valid(h)
    ensures CallNextStatus(r) != StatusOK ==> h' == h
    ensures CallNextStatus(r) == StatusOK ==> h' == Hub.Fanout(h, Hub.Envelope(Hub.TicketUpdate, encode(r.value.value)))
  {
    if r.Ok? && r.value.Some? then Hub.Broadcasted(h, Hub.TicketUpdate, Hub.Encoded(encode(r.value.value))) else h
  }

  method CallNext(store: Store, hub: Hub.Hub, userId: int, encode: TicketDetails -> string) returns (status: int)
    requires Hub.Valid(hub.State())
    modifies store, hub
    ensures store.State() == CallNextSpec(old(store.State()), userId).db
    ensures status == CallNextStatus(CallNextSpec(old(store.State()), userId).result)
    ensures hub.State() == AfterCallNext(old(hub.State()), CallNextSpec(old(store.State()), userId).result, encode)
    ensures Hub.Valid(hub.State())
  {
    var ticket := StaffService.CallNext(store, userId);
    if ticket.Err? {
      return StatusInternalServerError;
    }
    if ticket.value.None? {
      return StatusConflict;
    }
    hub.BroadcastTicketUpdate(Hub.Encoded(encode(ticket.value.value)));
    status := StatusOK;
  }

  /** A call that finds a ticket sends exactly one message to every client with
      room, and that message is tagged ticket_update. */
  lemma CalledTicketBroadcastOnce(h: Hub.HubState, r: Result<Option<TicketDetails>>, encode: TicketDetails -> string, c: Hub.ClientId)
    requires Hub.Valid(h) && r.Ok? && r.value.Some? && Hub.HasRoom(h, c)
    ensures AfterCallNext(h, r, encode).buffers[c] == h.buffers[c] + [Hub.Envelope(Hub.TicketUpdate, encode(r.value.value))]
  {
  }
}
