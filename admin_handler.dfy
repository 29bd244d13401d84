/** The admin pages' report helpers: counts by status, the per-hour,
    per-category and per-counter breakdowns, the ticket list's paging and
    header cards, and the CSV export. */
module AdminHandler {
  import opened Wrappers
  import opened Text
  import opened Entities

  // ---------------------------------------------------------------------------
  // countTicketsByStatus.

  method CountTicketsByStatus(tickets: seq<Ticket>, status: TicketStatus) returns (count: nat)
    ensures count == CountStatus(tickets, status)
    ensures count <= |tickets|
  {
    count := 0;
    for i := 0 to |tickets|
      invariant count == CountStatus(tickets[..i], status)
    {
      assert tickets[..i + 1][..i] == tickets[..i];
      if tickets[i].status == status {
        count := count + 1;
      }
    }
    assert tickets[..|tickets|] == tickets;
  }

  // ---------------------------------------------------------------------------
  // getHourlyBreakdown.

  /** `CreatedAt.Hour()` of a timestamp in seconds. */
  function HourOf(createdAt: int): (h: int)
    ensures 0 <= h < 24
  {
    (createdAt % 86400) / 3600
  }

  /** The number of tickets created in the given hour of the day. */
  function CountHour(rows: seq<Ticket>, hour: int): (n: nat)
    ensures n <= |rows|
  {
    if rows == [] then 0
    else CountHour(rows[..|rows| - 1], hour) + (if HourOf(rows[|rows| - 1].createdAt) == hour then 1 else 0)
  }

  /** The counts of the hours below `k`, added up. */
  function SumHours(rows: seq<Ticket>, k: nat): nat {
    if k == 0 then 0 else SumHours(rows, k - 1) + CountHour(rows, k - 1)
  }

  lemma {:induction false} SumHoursLast(rows: seq<Ticket>, k: nat)
    requires rows != []
    ensures SumHours(rows, k)
      == SumHours(rows[..|rows| - 1], k) + (if HourOf(rows[|rows| - 1].createdAt) < k then 1 else 0)
  {
    if k > 0 {
      SumHoursLast(rows, k - 1);
    }
  }

  /** Every ticket falls in exactly one of the 24 hours. */
  lemma {:induction false} HoursPartition(rows: seq<Ticket>)
    ensures SumHours(rows, 24) == |rows|
  {
    if rows != [] {
      SumHoursLast(rows, 24);
      HoursPartition(rows[..|rows| - 1]);
    } else {
      assert SumHours(rows, 24) == 0 by { EmptySumHours(24); }
    }
  }

  lemma {:induction false} EmptySumHours(k: nat)
    ensures SumHours([], k) == 0
  {
    if k > 0 { EmptySumHours(k - 1); }
  }

  datatype HourCount = HourCount(hour: int, count: int)

  /** The added counts of a list of hours. */
  function SumHourly(s: seq<HourCount>): int {
    if s == [] then 0 else SumHourly(s[..|s| - 1]) + s[|s| - 1].count
  }

  method HourlyBreakdown(tickets: seq<Ticket>) returns (result: seq<HourCount>)
    ensures |result| == 24
    ensures forall h | 0 <= h < 24 :: result[h] == HourCount(h, CountHour(tickets, h))
  {
    var hourMap: map<int, int> := map[];
    for i := 0 to |tickets|
      invariant forall h | 0 <= h < 24 :: GetOrZero(hourMap, h) == CountHour(tickets[..i], h)
    {
      assert tickets[..i + 1][..i] == tickets[..i];
      var hour := HourOf(tickets[i].createdAt);
      hourMap := hourMap[hour := GetOrZero(hourMap, hour) + 1];
    }
    assert tickets[..|tickets|] == tickets;
    result := [];
    for hour := 0 to 24
      invariant |result| == hour
      invariant forall h | 0 <= h < hour :: result[h] == HourCount(h, CountHour(tickets, h))
    {
      result := result + [HourCount(hour, GetOrZero(hourMap, hour))];
    }
  }

  /** The 24 counts add up to the number of tickets. */
  lemma {:induction false} HourlyCountsAddUp(tickets: seq<Ticket>, result: seq<HourCount>)
    requires |result| == 24
    requires forall h | 0 <= h < 24 :: result[h] == HourCount(h, CountHour(tickets, h))
    ensures SumHourly(result) == |tickets|
  {
    HourlyPrefix(tickets, result, 24);
    HoursPartition(tickets);
    assert result[..24] == result;
  }

  lemma {:induction false} HourlyPrefix(tickets: seq<Ticket>, result: seq<HourCount>, k: nat)
    requires k <= |result| <= 24
    requires forall h | 0 <= h < |result| :: result[h] == HourCount(h, CountHour(tickets, h))
    ensures SumHourly(result[..k]) == SumHours(tickets, k)
  {
    if k > 0 {
      HourlyPrefix(tickets, result, k - 1);
      assert result[..k][..k - 1] == result[..k - 1];
    }
  }

  // ---------------------------------------------------------------------------
  // getCategoryBreakdown and getCounterBreakdown: one entry per distinct id.

  /** An id as the breakdown's key, `fmt.Sprintf("%d", id)`. */
  function KeyOf(id: int): string {
    IntToDecimal(id)
  }

  /** The id field a breakdown groups by: None for a NULL column. */
  type Field = Ticket -> Option<int>

  /** The number of tickets whose field is set and printed as `key`. */
  function CountKey(rows: seq<Ticket>, field: Field, key: string): (n: nat)
    ensures n <= |rows|
  {
    if rows == [] then 0
    else
      var t := rows[|rows| - 1];
      CountKey(rows[..|rows| - 1], field, key) + (if field(t).Some? && KeyOf(field(t).value) == key then 1 else 0)
  }

  /** The number of tickets whose field is set and whose key is in `keys`. */
  function CountKeys(rows: seq<Ticket>, field: Field, keys: set<string>): (n: nat) {
    if rows == [] then 0
    else
      var t := rows[|rows| - 1];
      CountKeys(rows[..|rows| - 1], field, keys) + (if field(t).Some? && KeyOf(field(t).value) in keys then 1 else 0)
  }

  /** The number of tickets whose field is set. */
  function CountValid(rows: seq<Ticket>, field: Field): (n: nat) {
    if rows == [] then 0
    else CountValid(rows[..|rows| - 1], field) + (if field(rows[|rows| - 1]).Some? then 1 else 0)
  }

  /** The keys of the tickets whose field is set: exactly the keys counted at least once. */
  function KeysOf(rows: seq<Ticket>, field: Field): (keys: set<string>)
    ensures forall k :: k in keys <==> CountKey(rows, field, k) >= 1
  {
    if rows == [] then {}
    else
      var t := rows[|rows| - 1];
      KeysOf(rows[..|rows| - 1], field) + (if field(t).Some? then {KeyOf(field(t).value)} else {})
  }

  lemma {:induction false} CountKeysSplit(rows: seq<Ticket>, field: Field, keys: set<string>, k: string)
    requires k in keys
    ensures CountKeys(rows, field, keys) == CountKeys(rows, field, keys - {k}) + CountKey(rows, field, k)
  {
    if rows != [] {
      CountKeysSplit(rows[..|rows| - 1], field, keys, k);
    }
  }

  lemma {:induction false} CountKeysAll(rows: seq<Ticket>, field: Field)
    ensures CountKeys(rows, field, KeysOf(rows, field)) == CountValid(rows, field)
  {
    if rows != [] {
      var init := rows[..|rows| - 1];
      CountKeysAll(init, field);
      CountKeysGrow(init, field, KeysOf(init, field), KeysOf(rows, field));
    }
  }

  /** Adding keys that no earlier ticket has keeps the count of the earlier tickets. */
  lemma {:induction false} CountKeysGrow(rows: seq<Ticket>, field: Field, keys: set<string>, more: set<string>)
    requires KeysOf(rows, field) <= keys <= more
    ensures CountKeys(rows, field, more) == CountKeys(rows, field, keys)
  {
    if rows != [] {
      CountKeysGrow(rows[..|rows| - 1], field, keys, more);
    }
  }

  lemma {:induction false} CountKeysNone(rows: seq<Ticket>, field: Field)
    ensures CountKeys(rows, field, {}) == 0
  {
    if rows != [] {
      CountKeysNone(rows[..|rows| - 1], field);
    }
  }

  datatype BreakdownEntry = BreakdownEntry(key: string, count: int)

  /** The keys a breakdown lists. */
  function EntryKeys(s: seq<BreakdownEntry>): set<string> {
    if s == [] then {} else EntryKeys(s[..|s| - 1]) + {s[|s| - 1].key}
  }

  function SumCounts(s: seq<BreakdownEntry>): int {
    if s == [] then 0 else SumCounts(s[..|s| - 1]) + s[|s| - 1].count
  }

  lemma AppendEntry(s: seq<BreakdownEntry>, e: BreakdownEntry)
    ensures SumCounts(s + [e]) == SumCounts(s) + e.count
    ensures EntryKeys(s + [e]) == EntryKeys(s) + {e.key}
  {
    assert (s + [e])[..|s|] == s;
  }

  /** The grouping loop: each key with the number of its tickets. */
  method CountByKey(tickets: seq<Ticket>, field: Field) returns (counts: map<string, int>)
    ensures counts.Keys == KeysOf(tickets, field)
    ensures forall k | k in counts :: counts[k] == CountKey(tickets, field, k)
  {
    counts := map[];
    for i := 0 to |tickets|
      invariant counts.Keys == KeysOf(tickets[..i], field)
      invariant forall k | k in counts :: counts[k] == CountKey(tickets[..i], field, k)
    {
      assert tickets[..i + 1][..i] == tickets[..i];
      var id := field(tickets[i]);
      if id.Some? {
        var key := KeyOf(id.value);
        counts := counts[key := GetOrZero(counts, key) + 1];
      }
    }
    assert tickets[..|tickets|] == tickets;
  }

  /** The grouping loop and the walk over its map, in the map's (unspecified) order. */
  method Breakdown(tickets: seq<Ticket>, field: Field) returns (result: seq<BreakdownEntry>)
    ensures forall i, j | 0 <= i < j < |result| :: result[i].key != result[j].key
    ensures forall i | 0 <= i < |result| :: result[i].count == CountKey(tickets, field, result[i].key) >= 1
    ensures EntryKeys(result) == KeysOf(tickets, field)
    ensures SumCounts(result) == CountValid(tickets, field)
  {
    var counts := CountByKey(tickets, field);
    CountKeysAll(tickets, field);
    result := [];
    var remaining := counts.Keys;
    while remaining != {}
      invariant remaining <= counts.Keys
      invariant EntryKeys(result) == counts.Keys - remaining
      invariant forall i, j | 0 <= i < j < |result| :: result[i].key != result[j].key
      invariant forall i | 0 <= i < |result| :: result[i].key !in remaining
      invariant forall i | 0 <= i < |result| :: result[i].count == CountKey(tickets, field, result[i].key) >= 1
      invariant SumCounts(result) + CountKeys(tickets, field, remaining) == CountValid(tickets, field)
      decreases remaining
    {
      var key :| key in remaining;
      CountKeysSplit(tickets, field, remaining, key);
      var entry := BreakdownEntry(key, counts[key]);
      AppendEntry(result, entry);
      result := result + [entry];
      remaining := remaining - {key};
    }
    assert counts.Keys - remaining == counts.Keys;
    CountKeysNone(tickets, field);
  }

  /** The category column, NULL as None. */
  function CategoryField(t: Ticket): Option<int> { t.categoryId }

  /** The counter column, NULL as None. */
  function CounterField(t: Ticket): Option<int> { t.counterId }

  method CategoryBreakdown(tickets: seq<Ticket>) returns (result: seq<BreakdownEntry>)
    ensures forall i, j | 0 <= i < j < |result| :: result[i].key != result[j].key
    ensures forall i | 0 <= i < |result| :: result[i].count == CountKey(tickets, CategoryField, result[i].key) >= 1
    ensures SumCounts(result) == CountValid(tickets, CategoryField)
  {
    result := Breakdown(tickets, CategoryField);
  }

  method CounterBreakdown(tickets: seq<Ticket>) returns (result: seq<BreakdownEntry>)
    ensures forall i, j | 0 <= i < j < |result| :: result[i].key != result[j].key
    ensures forall i | 0 <= i < |result| :: result[i].count == CountKey(tickets, CounterField, result[i].key) >= 1
    ensures SumCounts(result) == CountValid(tickets, CounterField)
  {
    result := Breakdown(tickets, CounterField);
  }

  // ---------------------------------------------------------------------------
  // ListTickets: paging and header cards.

  /** The admin list's limit and offset: `page` (default "1") and `limit`
      (default "50") must parse, and nothing clamps them. */
  function ListPaging(query: map<string, string>): (r: Result<(int, int)>)
    ensures r.Ok? <==> (Atoi(if "page" in query then query["page"] else "1").Some?
                        && Atoi(if "limit" in query then query["limit"] else "50").Some?)
    ensures r.Ok? ==> r.value.1 == (Atoi(if "page" in query then query["page"] else "1").value - 1) * r.value.0
  {
    var page := Atoi(if "page" in query then query["page"] else "1");
    var limit := Atoi(if "limit" in query then query["limit"] else "50");
    if page.None? then Err("invalid page")
    else if limit.None? then Err("invalid limit")
    else Ok((limit.value, (page.value - 1) * limit.value))
  }

  /** Without parameters the list starts at the first row and holds 50. */
  lemma DefaultListPaging()
    ensures ListPaging(map[]) == Ok((50, 0))
  {
    assert Atoi("1") == Some(1) by { AtoiRoundTrip(1); }
    assert Atoi("50") == Some(50) by { AtoiRoundTrip(50); }
  }

  /** Page `p` of the list starts after the `p - 1` full pages before it. */
  lemma {:induction false} ListPageOffset(query: map<string, string>, page: int)
    requires ListPaging(query).Ok? && ListPaging(query).value.0 >= 0
    requires Atoi(if "page" in query then query["page"] else "1") == Some(page) && page >= 1
    ensures ListPaging(query).value.1 >= 0
    ensures ListPaging(query).value.1 + ListPaging(query).value.0 == page * ListPaging(query).value.0
  {
    var limit := ListPaging(query).value.0;
    assert (page - 1) * limit >= 0 by { NonNegativeProduct(page - 1, limit); }
    assert (page - 1) * limit + limit == page * limit;
  }

  lemma NonNegativeProduct(a: nat, b: nat)
    ensures a * b >= 0
  {
  }

  /** The header cards: Total, Waiting, Serving and Completed (today only). */
  datatype HeaderStats = HeaderStats(total: nat, waiting: nat, serving: nat, completed: nat)

  /** The number of completed tickets created today. */
  function CountCompletedToday(rows: seq<Ticket>, isToday: int -> bool): (n: nat) {
    if rows == [] then 0
    else
      var t := rows[|rows| - 1];
      CountCompletedToday(rows[..|rows| - 1], isToday) + (if t.status == Completed && isToday(t.createdAt) then 1 else 0)
  }

  method ListHeaderStats(tickets: seq<Ticket>, isToday: int -> bool) returns (stats: HeaderStats)
    ensures stats.total == |tickets|
    ensures stats.waiting == CountStatus(tickets, Waiting)
    ensures stats.serving == CountStatus(tickets, Serving)
    ensures stats.completed == CountCompletedToday(tickets, isToday)
  {
    stats := HeaderStats(|tickets|, 0, 0, 0);
    for i := 0 to |tickets|
      invariant stats.total == |tickets|
      invariant stats.waiting == CountStatus(tickets[..i], Waiting)
      invariant stats.serving == CountStatus(tickets[..i], Serving)
      invariant stats.completed == CountCompletedToday(tickets[..i], isToday)
    {
      assert tickets[..i + 1][..i] == tickets[..i];
      var t := tickets[i];
      match t.status {
        case Waiting => stats := stats.(waiting := stats.waiting + 1);
        case Serving => stats := stats.(serving := stats.serving + 1);
        case Completed =>
          if isToday(t.createdAt) {
            stats := stats.(completed := stats.completed + 1);
          }
        case _ =>
      }
    }
    assert tickets[..|tickets|] == tickets;
  }

  lemma {:induction false} CompletedTodayWithinCompleted(rows: seq<Ticket>, isToday: int -> bool)
    ensures CountCompletedToday(rows, isToday) <= CountStatus(rows, Completed)
  {
    if rows != [] {
      CompletedTodayWithinCompleted(rows[..|rows| - 1], isToday);
    }
  }

  /** The three counted cards never exceed the total. */
  lemma HeaderWithinTotal(rows: seq<Ticket>, isToday: int -> bool)
    ensures CountStatus(rows, Waiting) + CountStatus(rows, Serving) + CountCompletedToday(rows, isToday) <= |rows|
  {
    CompletedTodayWithinCompleted(rows, isToday);
    StatusCountsPartition(rows);
  }

  // ---------------------------------------------------------------------------
  // ExportTickets: the CSV text.

  /** The eight column names. */
  const CsvColumns: seq<string> := ["Ticket Number", "Category", "Status", "Created At", "Priority", "Wait Time", "Service Time", "Notes"]

  /** The header line: the column names, comma-separated. */
  const CsvHeader: string := Join(CsvColumns, ",") + "\n"

  /** The wait-time column: "Mm Ss" of the seconds, or "0m 0s" for NULL. */
  function WaitTimeText(w: Option<int>): (s: string)
    ensures w.None? ==> s == "0m 0s"
  {
    if w.None? then "0m 0s"
    else IntToDecimal(GoQuo(w.value, 60)) + "m " + IntToDecimal(GoRem(w.value, 60)) + "s"
  }

  /** The service-time column: whole minutes "Mm", or "0m" for NULL. */
  function ServiceTimeText(w: Option<int>): (s: string)
    ensures w.None? ==> s == "0m"
  {
    if w.None? then "0m" else IntToDecimal(GoQuo(w.value, 60)) + "m"
  }

  /** A wait of `w >= 0` seconds reads back as M minutes and S < 60 seconds with M * 60 + S == w. */
  lemma WaitTimeReadsBack(w: nat)
    ensures var m := NatToDecimal(w / 60);
      var sec := NatToDecimal(w % 60);
      && WaitTimeText(Some(w)) == m + "m " + sec + "s"
      && DecimalValue(m) * 60 + DecimalValue(sec) == w && DecimalValue(sec) < 60
  {
    DecimalRoundTrip(w / 60);
    DecimalRoundTrip(w % 60);
  }

  /** A service time of `w >= 0` seconds reads back as its whole minutes. */
  lemma ServiceTimeReadsBack(w: nat)
    ensures var m := NatToDecimal(w / 60);
      ServiceTimeText(Some(w)) == m + "m" && DecimalValue(m) == w / 60
  {
    DecimalRoundTrip(w / 60);
  }

  /** One ticket's CSV fields; `formatTime` renders `CreatedAt` as "2006-01-02 15:04:05" does. */
  function CsvFields(t: Ticket, formatTime: int -> string): (fields: seq<string>)
    ensures |fields| == 8
  {
    [ t.ticketNumber,
      IntToDecimal(if t.categoryId.Some? then t.categoryId.value else 0),
      TicketStatusName(t.status),
      formatTime(t.createdAt),
      IntToDecimal(t.priority),
      WaitTimeText(t.waitTime),
      ServiceTimeText(t.serviceTime),
      t.notes.str ]
  }

  /** One ticket's CSV line: the fields joined by commas, unquoted, and a line break. */
  function CsvLine(t: Ticket, formatTime: int -> string): (line: string)
    ensures |line| >= 1 && line[|line| - 1] == '\n'
  {
    Join(CsvFields(t, formatTime), ",") + "\n"
  }

  function CsvLines(tickets: seq<Ticket>, formatTime: int -> string): string {
    if tickets == [] then ""
    else CsvLines(tickets[..|tickets| - 1], formatTime) + CsvLine(tickets[|tickets| - 1], formatTime)
  }

  /** The export's text. The builder receives the header first; here the ticket
      lines are collected and the header put in front, which gives the same text. */
  method ExportCsv(tickets: seq<Ticket>, formatTime: int -> string) returns (content: string)
    ensures content == CsvHeader + CsvLines(tickets, formatTime)
  {
    var lines := "";
    for i := 0 to |tickets|
      invariant lines == CsvLines(tickets[..i], formatTime)
    {
      assert tickets[..i + 1][..i] == tickets[..i];
      lines := lines + CsvLine(tickets[i], formatTime);
    }
    assert tickets[..|tickets|] == tickets;
    content := CsvHeader + lines;
  }

  /** The number of line breaks in a text. */
  function Newlines(s: string): nat {
    if s == [] then 0 else Newlines(s[..|s| - 1]) + (if s[|s| - 1] == '\n' then 1 else 0)
  }

  lemma {:induction false} NewlinesAppend(a: string, b: string)
    ensures Newlines(a + b) == Newlines(a) + Newlines(b)
  {
    if b != [] {
      assert (a + b)[..|a + b| - 1] == a + b[..|b| - 1];
      NewlinesAppend(a, b[..|b| - 1]);
    } else {
      assert a + b == a;
    }
  }

  lemma {:induction false} NoBreakNoNewlines(s: string)
    requires '\n' !in s
    ensures Newlines(s) == 0
  {
    if s != [] {
      assert forall c | c in s[..|s| - 1] :: c in s;
      NoBreakNoNewlines(s[..|s| - 1]);
    }
  }

  lemma IntHasNoBreak(i: int)
    ensures '\n' !in IntToDecimal(i)
  {
    var s := NatToDecimal(if i < 0 then -i else i);
    assert AllDigits(s);
  }

  lemma {:induction false} JoinNoBreak(parts: seq<string>, sep: string)
    requires '\n' !in sep && forall i | 0 <= i < |parts| :: '\n' !in parts[i]
    ensures '\n' !in Join(parts, sep)
  {
    if |parts| > 1 {
      JoinNoBreak(parts[..|parts| - 1], sep);
    }
  }

  /** No field of the ticket's line holds a line break of its own. */
  predicate SingleLineFields(t: Ticket, formatTime: int -> string) {
    '\n' !in t.ticketNumber && '\n' !in t.notes.str && '\n' !in formatTime(t.createdAt)
  }

  lemma WaitTimeSingleLine(w: Option<int>)
    ensures '\n' !in WaitTimeText(w)
  {
    if w.Some? {
      IntHasNoBreak(GoQuo(w.value, 60));
      IntHasNoBreak(GoRem(w.value, 60));
    }
  }

  lemma ServiceTimeSingleLine(w: Option<int>)
    ensures '\n' !in ServiceTimeText(w)
  {
    if w.Some? {
      IntHasNoBreak(GoQuo(w.value, 60));
    }
  }

  lemma StatusNameSingleLine(status: TicketStatus)
    ensures '\n' !in TicketStatusName(status)
  {
  }

  lemma FieldsSingleLine(t: Ticket, formatTime: int -> string)
    requires SingleLineFields(t, formatTime)
    ensures forall i | 0 <= i < 8 :: '\n' !in CsvFields(t, formatTime)[i]
  {
    IntHasNoBreak(if t.categoryId.Some? then t.categoryId.value else 0);
    IntHasNoBreak(t.priority);
    WaitTimeSingleLine(t.waitTime);
    ServiceTimeSingleLine(t.serviceTime);
    StatusNameSingleLine(t.status);
  }

  lemma CsvLineHasOneNewline(t: Ticket, formatTime: int -> string)
    requires SingleLineFields(t, formatTime)
    ensures Newlines(CsvLine(t, formatTime)) == 1
  {
    var fields := CsvFields(t, formatTime);
    FieldsSingleLine(t, formatTime);
    JoinNoBreak(fields, ",");
    var j := Join(fields, ",");
    NoBreakNoNewlines(j);
    NewlinesAppend(j, "\n");
  }

  lemma HeaderHasOneNewline()
    ensures Newlines(CsvHeader) == 1
  {
    JoinNoBreak(CsvColumns, ",");
    var row := Join(CsvColumns, ",");
    NoBreakNoNewlines(row);
    NewlinesAppend(row, "\n");
  }

  /** The export is the header line and then one line per ticket, as long as
      ticket numbers, notes and the rendered times hold no line breaks (the
      fields are written unquoted). */
  lemma {:induction false} CsvOneLinePerTicket(tickets: seq<Ticket>, formatTime: int -> string)
    requires forall t | t in tickets :: SingleLineFields(t, formatTime)
    ensures Newlines(CsvHeader + CsvLines(tickets, formatTime)) == |tickets| + 1
  {
    CsvLinesCount(tickets, formatTime);
    HeaderHasOneNewline();
    NewlinesAppend(CsvHeader, CsvLines(tickets, formatTime));
  }

  lemma {:induction false} CsvLinesCount(tickets: seq<Ticket>, formatTime: int -> string)
    requires forall t | t in tickets :: SingleLineFields(t, formatTime)
    ensures Newlines(CsvLines(tickets, formatTime)) == |tickets|
  {
    if tickets != [] {
      var init := tickets[..|tickets| - 1];
      assert forall t | t in init :: t in tickets;
      CsvLinesCount(init, formatTime);
      CsvLineHasOneNewline(tickets[|tickets| - 1], formatTime);
      NewlinesAppend(CsvLines(init, formatTime), CsvLine(tickets[|tickets| - 1], formatTime));
    }
  }
}
