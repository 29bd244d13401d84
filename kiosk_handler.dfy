/** The kiosk pages: the category list merged with each category's waiting
    count and ordered for display, and the updates pushed to the hub after a
    ticket is issued. */
module KioskHandler {
  import opened Wrappers
  import opened Text
  import opened Entities
  import opened TicketRepository
  import opened Store
  import opened KioskService
  import Hub

  /** One row of the queue statistics: a category and how many tickets wait in it. */
  datatype CategoryQueueStats = CategoryQueueStats(categoryId: int, waitingCount: int)

  /** A category with its waiting count, as the kiosk page lists it. */
  datatype CategoryWithQueue = CategoryWithQueue(category: Category, waitingCount: int)

  // ---------------------------------------------------------------------------
  // The count map.

  /** `categoryQueueMap` after the loop over the rows: a later row for the same category overwrites an earlier one. */
  function QueueMapOf(rows: seq<CategoryQueueStats>): (m: map<int, int>)
    ensures forall i | 0 <= i < |rows| :: rows[i].categoryId in m
  {
    if rows == [] then map[]
    else QueueMapOf(rows[..|rows| - 1])[rows[|rows| - 1].categoryId := rows[|rows| - 1].waitingCount]
  }

  /** A category's entry is the count of its last row. */
  lemma {:induction false} QueueMapLastWins(rows: seq<CategoryQueueStats>, i: int)
    requires 0 <= i < |rows|
    requires forall j | i < j < |rows| :: rows[j].categoryId != rows[i].categoryId
    ensures QueueMapOf(rows)[rows[i].categoryId] == rows[i].waitingCount
  {
    if i < |rows| - 1 {
      QueueMapLastWins(rows[..|rows| - 1], i);
    }
  }

  /** The map holds exactly the categories that have a row. */
  lemma {:induction false} QueueMapKeys(rows: seq<CategoryQueueStats>, id: int)
    ensures id in QueueMapOf(rows) <==> exists i | 0 <= i < |rows| :: rows[i].categoryId == id
  {
    if rows != [] {
      QueueMapKeys(rows[..|rows| - 1], id);
      if id in QueueMapOf(rows[..|rows| - 1]) {
        var i :| 0 <= i < |rows| - 1 && rows[..|rows| - 1][i].categoryId == id;
        assert rows[i].categoryId == id;
      }
      if exists i | 0 <= i < |rows| :: rows[i].categoryId == id {
        var i :| 0 <= i < |rows| && rows[i].categoryId == id;
        if i < |rows| - 1 {
          assert rows[..|rows| - 1][i].categoryId == id;
        }
      }
    }
  }

  method QueueMap(rows: seq<CategoryQueueStats>) returns (m: map<int, int>)
    ensures m == QueueMapOf(rows)
  {
    m := map[];
    for i := 0 to |rows|
      invariant m == QueueMapOf(rows[..i])
    {
      assert rows[..i + 1][..i] == rows[..i];
      m := m[rows[i].categoryId := rows[i].waitingCount];
    }
    assert rows[..|rows|] == rows;
  }

  // ---------------------------------------------------------------------------
  // The merge.

  /** Every category in input order, each with its waiting count (`categoryQueueMap[cat.ID]`, 0 without a row). */
  function MergedOf(categories: seq<Category>, m: map<int, int>): (r: seq<CategoryWithQueue>)
    ensures |r| == |categories|
    ensures forall i | 0 <= i < |r| :: r[i] == CategoryWithQueue(categories[i], GetOrZero(m, categories[i].id))
  {
    if categories == [] then []
    else
      var last := categories[|categories| - 1];
      MergedOf(categories[..|categories| - 1], m) + [CategoryWithQueue(last, GetOrZero(m, last.id))]
  }

  method Merge(categories: seq<Category>, m: map<int, int>) returns (r: seq<CategoryWithQueue>)
    ensures r == MergedOf(categories, m)
  {
    r := [];
    for i := 0 to |categories|
      invariant r == MergedOf(categories[..i], m)
    {
      assert categories[..i + 1][..i] == categories[..i];
      r := r + [CategoryWithQueue(categories[i], GetOrZero(m, categories[i].id))];
    }
    assert categories[..|categories|] == categories;
  }

  // ---------------------------------------------------------------------------
  // The display order.

  /** The `sort.Slice` comparison: higher priority first, then name ascending. */
  predicate Before(x: CategoryWithQueue, y: CategoryWithQueue) {
    if x.category.priority == y.category.priority then StringLess(x.category.name, y.category.name)
    else x.category.priority > y.category.priority
  }

  /** `x` may stand before `y`. */
  predicate NotAfter(x: CategoryWithQueue, y: CategoryWithQueue) {
    !Before(y, x)
  }

  predicate Sorted(s: seq<CategoryWithQueue>) {
    forall k, l | 0 <= k < l < |s| :: NotAfter(s[k], s[l])
  }

  lemma BeforeAsymmetric(x: CategoryWithQueue, y: CategoryWithQueue)
    requires Before(x, y)
    ensures NotAfter(x, y)
  {
    StringLessAsymmetric(x.category.name, y.category.name);
  }

  lemma NotAfterTransitive(x: CategoryWithQueue, y: CategoryWithQueue, z: CategoryWithQueue)
    requires NotAfter(x, y) && NotAfter(y, z)
    ensures NotAfter(x, z)
  {
    if x.category.priority == y.category.priority == z.category.priority {
      var a, b, c := x.category.name, y.category.name, z.category.name;
      if StringLess(c, a) {
        StringLessTotal(a, b);
        if StringLess(a, b) {
          StringLessTransitive(c, a, b);
        }
      }
    }
  }

  /** sort.Slice on the merged list, as an insertion sort by swaps. */
  /** The first `n` entries are in display order. */
  predicate SortedPrefix(s: seq<CategoryWithQueue>, n: int) {
    forall k, l | 0 <= k < l < n && l < |s| :: NotAfter(s[k], s[l])
  }

  /** While entry `j` moves down: the first `i + 1` entries without `j` are in
      order, and `j` may stand before every entry after it. */
  predicate Inserting(s: seq<CategoryWithQueue>, i: int, j: int) {
    0 <= j <= i < |s|
    && (forall k, l | 0 <= k < l <= i && k != j && l != j :: NotAfter(s[k], s[l]))
    && (forall l | j < l <= i :: NotAfter(s[j], s[l]))
  }

  /** `s` with entries `j - 1` and `j` exchanged. */
  function SwapDown(s: seq<CategoryWithQueue>, j: int): (r: seq<CategoryWithQueue>)
    requires 0 < j < |s|
    ensures |r| == |s| && r[j - 1] == s[j] && r[j] == s[j - 1]
    ensures forall k | 0 <= k < |s| && k != j - 1 && k != j :: r[k] == s[k]
    ensures multiset(r) == multiset(s)
  {
    s[j - 1 := s[j]][j := s[j - 1]]
  }

  lemma StartInserting(s: seq<CategoryWithQueue>, i: int)
    requires 0 <= i < |s| && SortedPrefix(s, i)
    ensures Inserting(s, i, i)
  {
  }

  /** One swap of the insertion keeps the state of the insertion, one place lower. */
  lemma SwapKeepsInserting(s: seq<CategoryWithQueue>, i: int, j: int)
    requires Inserting(s, i, j) && j > 0 && Before(s[j], s[j - 1])
    ensures Inserting(SwapDown(s, j), i, j - 1)
  {
    BeforeAsymmetric(s[j], s[j - 1]);
  }

  /** The entry has stopped moving, so the first `i + 1` entries are in order. */
  lemma InsertionDone(s: seq<CategoryWithQueue>, i: int, j: int)
    requires Inserting(s, i, j) && (j > 0 ==> !Before(s[j], s[j - 1]))
    ensures SortedPrefix(s, i + 1)
  {
    forall k, l | 0 <= k < l <= i
      ensures NotAfter(s[k], s[l])
    {
      if l == j && k < j - 1 {
        NotAfterTransitive(s[k], s[j - 1], s[j]);
      }
    }
  }

  method SortCategories(a: array<CategoryWithQueue>)
    modifies a
    ensures Sorted(a[..])
    ensures multiset(a[..]) == old(multiset(a[..]))
  {
    for i := 0 to a.Length
      invariant SortedPrefix(a[..], i)
      invariant multiset(a[..]) == old(multiset(a[..]))
    {
      StartInserting(a[..], i);
      var j := i;
      while j > 0 && Before(a[j], a[j - 1])
        invariant Inserting(a[..], i, j)
        invariant multiset(a[..]) == old(multiset(a[..]))
      {
        ghost var s := a[..];
        SwapKeepsInserting(s, i, j);
        a[j - 1], a[j] := a[j], a[j - 1];
        assert a[..] == SwapDown(s, j);
        j := j - 1;
      }
      InsertionDone(a[..], i, j);
    }
  }

  /** What the kiosk page shows: the ordered categories and the number of active counters. */
  method ShowKiosk(categories: Result<seq<Category>>, queueInfo: Result<(int, seq<CategoryQueueStats>)>)
    returns (list: seq<CategoryWithQueue>, activeCounters: int)
    ensures var cats := if categories.Err? then [] else categories.value;
      var rows := if queueInfo.Err? then [] else queueInfo.value.1;
      && Sorted(list)
      && multiset(list) == multiset(MergedOf(cats, QueueMapOf(rows)))
      && |list| == |cats|
    ensures activeCounters == (if queueInfo.Err? then 0 else queueInfo.value.0)
  {
    var cats: seq<Category> := [];
    if categories.Ok? {
      cats := categories.value;
    }
    var rows: seq<CategoryQueueStats> := [];
    activeCounters := 0;
    if queueInfo.Ok? {
      activeCounters, rows := queueInfo.value.0, queueInfo.value.1;
    }
    var m := QueueMap(rows);
    var merged := Merge(cats, m);
    var a := new CategoryWithQueue[|merged|](i requires 0 <= i < |merged| => merged[i]);
    assert a[..] == merged;
    SortCategories(a);
    list := a[..];
    assert |list| == |multiset(list)| == |multiset(merged)| == |merged|;
  }

  /** Every category appears in the page as often as in the input, with its own count. */
  lemma {:induction false} EveryCategoryListed(list: seq<CategoryWithQueue>, cats: seq<Category>, m: map<int, int>, i: int)
    requires multiset(list) == multiset(MergedOf(cats, m)) && 0 <= i < |cats|
    ensures CategoryWithQueue(cats[i], GetOrZero(m, cats[i].id)) in list
  {
    var merged := MergedOf(cats, m);
    assert merged[i] in multiset(merged);
  }

  /** With no queue statistics every listed count is 0. */
  lemma NoQueueInfoNoCounts(list: seq<CategoryWithQueue>, cats: seq<Category>)
    requires multiset(list) == multiset(MergedOf(cats, QueueMapOf([])))
    ensures forall e | e in list :: e.waitingCount == 0
  {
    forall e | e in list
      ensures e.waitingCount == 0
    {
      assert e in multiset(MergedOf(cats, QueueMapOf([])));
    }
  }

  // ---------------------------------------------------------------------------
  // The ticket action.

  const StatusOK: int := 200
  const StatusCreated: int := 201
  const StatusBadRequest: int := 400
  const StatusInternalServerError: int := 500

  /** The status: 400 for a request that does not bind, 500 when issuance fails,
      otherwise 200 for an HTMX request (an HTML fragment) and 201 for JSON. */
  function GenerateStatus(bound: bool, r: Result<Issuance>, htmx: bool): (status: int)
    ensures !bound <==> status == StatusBadRequest
    ensures bound && r.Err? <==> status == StatusInternalServerError
    ensures bound && r.Ok? ==> status == (if htmx then StatusOK else StatusCreated)
  {
    if !bound then StatusBadRequest
    else if r.Err? then StatusInternalServerError
    else if htmx then StatusOK else StatusCreated
  }

  /** The hub after an issued ticket: stats_update first when there are
      statistics (`stats` is their JSON text), then ticket_update. */
  function AfterIssue(h: Hub.HubState, r: Result<Issuance>, stats: Option<string>, encode: TicketDetails -> string): (h': Hub.HubState)
    requires Hub.Valid(h)
    ensures Hub.Valid(h')
    ensures r.Err? ==> h' == h
  {
    if r.Err? then h
    else
      var h1 := if stats.Some? then Hub.Broadcasted(h, Hub.StatsUpdate, Hub.Encoded(stats.value)) else h;
      Hub.FanoutKeepsValid(h, Hub.Envelope(Hub.StatsUpdate, if stats.Some? then stats.value else ""));
      var h2 := Hub.Broadcasted(h1, Hub.TicketUpdate, Hub.Encoded(encode(r.value.ticket)));
      Hub.FanoutKeepsValid(h1, Hub.Envelope(Hub.TicketUpdate, encode(r.value.ticket)));
      h2
  }

  /** A client with room for both messages gets the statistics before the ticket. */
  lemma {:induction false} StatsBeforeTicket(h: Hub.HubState, r: Result<Issuance>, stats: string, encode: TicketDetails -> string, c: Hub.ClientId)
    requires Hub.Valid(h) && r.Ok? && c in h.clients && |h.buffers[c]| + 2 <= Hub.SendBufferSize
    ensures AfterIssue(h, r, Some(stats), encode).buffers[c]
      == h.buffers[c] + [Hub.Envelope(Hub.StatsUpdate, stats), Hub.Envelope(Hub.TicketUpdate, encode(r.value.ticket))]
  {
    var m1 := Hub.Envelope(Hub.StatsUpdate, stats);
    var m2 := Hub.Envelope(Hub.TicketUpdate, encode(r.value.ticket));
    Hub.FanoutKeepsValid(h, m1);
    assert c in Hub.Fanout(h, m1).clients;
    assert Hub.HasRoom(Hub.Fanout(h, m1), c);
    Hub.PublishOrder(h, m1, m2, c);
  }

  /** Without statistics only the ticket is sent. */
  lemma NoStatsOnlyTicket(h: Hub.HubState, r: Result<Issuance>, encode: TicketDetails -> string, c: Hub.ClientId)
    requires Hub.Valid(h) && r.Ok? && Hub.HasRoom(h, c)
    ensures AfterIssue(h, r, None, encode).buffers[c] == h.buffers[c] + [Hub.Envelope(Hub.TicketUpdate, encode(r.value.ticket))]
  {
  }

  /** The kiosk's ticket action: `req` is None when the form does not bind, `htmx`
      says whether the HX-Request header is set, and `stats` is the JSON text of
      the statistics fetched after issuance (None when that fetch gives nil). */
  method GenerateTicket(store: Store, hub: Hub.Hub, req: Option<CreateTicketRequest>, htmx: bool,
                        isToday: int -> bool, countFailed: bool, avgWaitSeconds: Option<int>,
                        stats: Option<string>, encode: TicketDetails -> string)
    returns (status: int)
    requires Hub.Valid(hub.State())
    modifies store, hub
    ensures req.None? ==> status == StatusBadRequest && store.State() == old(store.State()) && hub.State() == old(hub.State())
    ensures req.Some? ==>
      (var (r, db) := GenerateTicketSpec(old(store.State()), req.value, isToday, countFailed, avgWaitSeconds);
       && store.State() == db
       && status == GenerateStatus(true, r, htmx)
       && hub.State() == AfterIssue(old(hub.State()), r, stats, encode))
  {
    if req.None? {
      return StatusBadRequest;
    }
    var r := KioskService.GenerateTicket(store, req.value, isToday, countFailed, avgWaitSeconds);
    if r.Err? {
      return StatusInternalServerError;
    }
    if stats.Some? {
      hub.BroadcastStatsUpdate(Hub.Encoded(stats.value));
    }
    hub.BroadcastTicketUpdate(Hub.Encoded(encode(r.value.ticket)));
    status := if htmx then StatusOK else StatusCreated;
  }
}
