/** The ticket repository's own logic around the SQL: the handling of empty
    inputs and of queries that find no row, the ticket-number format, the
    conversion of a scanned row, and the category/counter join. */
module TicketRepository {
  import opened Wrappers
  import opened Text
  import opened Sql
  import opened Dynamic
  import opened Entities
  import opened TicketQueries

  /** What a single-row query hands back. */
  datatype RowOutcome<T> = Row(value: T) | NoRows | QueryFailed(message: string)

  /** GetNextTicket and GetCurrentForCounter: no row is "no ticket", not an error. */
  function OptionalRow<T>(o: RowOutcome<T>): (r: Result<Option<T>>)
    ensures o.NoRows? ==> r == Ok(None)
    ensures o.Row? ==> r == Ok(Some(o.value))
    ensures o.QueryFailed? ==> r == Err(o.message)
  {
    match o
    case Row(v) => Ok(Some(v))
    case NoRows => Ok(None)
    case QueryFailed(m) => Err(m)
  }

  /** GetLastCalledByCategoryID: no row is the empty ticket number, not an error. */
  function LastCalledNumber(o: RowOutcome<string>): (r: Result<string>)
    ensures o.NoRows? ==> r == Ok("")
    ensures o.Row? ==> r == Ok(o.value)
    ensures r.Err? <==> o.QueryFailed?
  {
    match o
    case Row(number) => Ok(number)
    case NoRows => Ok("")
    case QueryFailed(m) => Err(m)
  }

  // ---------------------------------------------------------------------------
  // Ticket numbers: `fmt.Sprintf("%s%03d", prefix, number)`.

  function FormatTicketNumber(prefix: string, n: nat): (s: string)
    ensures HasPrefix(s, prefix) && |s| >= |prefix| + 3
    ensures AllDigits(s[|prefix|..])
    ensures n < 1000 <==> |s| == |prefix| + 3
  {
    var s := prefix + Pad3(n);
    assert s[..|prefix|] == prefix && s[|prefix|..] == Pad3(n);
    DecimalLength(n);
    s
  }

  /** `%d` prints more than three digits exactly from 1000 on. */
  lemma {:induction false} DecimalLength(n: nat)
    ensures n >= 1000 <==> |NatToDecimal(n)| > 3
    ensures n >= 100 ==> |NatToDecimal(n)| >= 3
  {
    if n >= 10 { DecimalLength(n / 10); }
  }

  /** The sequence number reads back from the formatted ticket number. */
  lemma FormatRoundTrip(prefix: string, n: nat)
    ensures SequenceOf(FormatTicketNumber(prefix, n), prefix) == Some(n)
  {
    var s := FormatTicketNumber(prefix, n);
    assert s[|prefix|..] == Pad3(n);
    Pad3RoundTrip(n);
  }

  /** GenerateNumber with the corrected numbering: the formatted number and the sequence. */
  function GenerateNumber(rows: seq<Ticket>, prefix: string, isToday: int -> bool): (r: Result<(string, int)>)
    ensures r.Ok? ==> r.value.1 >= 1 && r.value.0 == FormatTicketNumber(prefix, r.value.1)
    ensures r.Ok? ==> SequenceOf(r.value.0, prefix) == Some(r.value.1)
    ensures r.Err? <==> NextTicketSequence(rows, prefix, isToday).Err?
  {
    match NextTicketSequence(rows, prefix, isToday)
    case Ok(n) =>
      FormatRoundTrip(prefix, n);
      Ok((FormatTicketNumber(prefix, n), n))
    case Err(e) => Err(e)
  }

  /** Under sequential use, a generated number differs from every number issued today. */
  lemma {:induction false} GeneratedNumberIsNew(rows: seq<Ticket>, prefix: string, isToday: int -> bool)
    requires GenerateNumber(rows, prefix, isToday).Ok?
    ensures forall t | t in rows && isToday(t.createdAt) :: t.ticketNumber != GenerateNumber(rows, prefix, isToday).value.0
  {
    var g := GenerateNumber(rows, prefix, isToday).value;
    forall t | t in rows && isToday(t.createdAt) ensures t.ticketNumber != g.0 {
      if t.ticketNumber == g.0 {
        assert SequenceOf(t.ticketNumber, prefix) == Some(g.1);
        assert SequencedToday(t, prefix, isToday);
        assert false;
      }
    }
  }

  /** GenerateNumber as written: the query's (text-maximum) number, formatted. */
  function GenerateNumberAsWritten(rows: seq<Ticket>, prefix: string, isToday: int -> bool): (r: Result<(string, int)>)
    ensures r.Ok? ==> r.value.1 >= 1 && r.value.0 == FormatTicketNumber(prefix, r.value.1)
    ensures r.Err? <==> GenerateTicketNumberAsWritten(rows, prefix, isToday).Err?
  {
    match GenerateTicketNumberAsWritten(rows, prefix, isToday)
    case Ok(n) => Ok((FormatTicketNumber(prefix, n), n))
    case Err(e) => Err(e)
  }

  function Issued(id: int, number: string): Ticket {
    Ticket(id, number, Some(1), None, Waiting, 0, 0, None, None, None, None, 0, 0, NullString("", false))
  }

  lemma DigitsA999() ensures KeepDigits("A999") == "999"
  {
    assert KeepDigits("A") == "" by { assert "A"[..0] == ""; }
    assert KeepDigits("A9") == "9" by { assert "A9"[..1] == "A"; }
    assert KeepDigits("A99") == "99" by { assert "A99"[..2] == "A9"; }
    assert KeepDigits("A999") == "999" by { assert "A999"[..3] == "A99"; }
  }

  lemma DigitsA1000() ensures KeepDigits("A1000") == "1000"
  {
    assert KeepDigits("A") == "" by { assert "A"[..0] == ""; }
    assert KeepDigits("A1") == "1" by { assert "A1"[..1] == "A"; }
    assert KeepDigits("A10") == "10" by { assert "A10"[..2] == "A1"; }
    assert KeepDigits("A100") == "100" by { assert "A100"[..3] == "A10"; }
    assert KeepDigits("A1000") == "1000" by { assert "A1000"[..4] == "A100"; }
  }

  lemma DigitsB2001() ensures KeepDigits("B2001") == "2001"
  {
    assert KeepDigits("B") == "" by { assert "B"[..0] == ""; }
    assert KeepDigits("B2") == "2" by { assert "B2"[..1] == "B"; }
    assert KeepDigits("B20") == "20" by { assert "B20"[..2] == "B2"; }
    assert KeepDigits("B200") == "200" by { assert "B200"[..3] == "B20"; }
    assert KeepDigits("B2001") == "2001" by { assert "B2001"[..4] == "B200"; }
  }

  lemma Value999() ensures DecimalValue("999") == 999
  {
    assert "999"[..2] == "99" && "99"[..1] == "9" && "9"[..0] == "";
  }

  lemma Value1000() ensures DecimalValue("1000") == 1000
  {
    assert "1000"[..3] == "100" && "100"[..2] == "10" && "10"[..1] == "1" && "1"[..0] == "";
  }

  lemma Value2001() ensures DecimalValue("2001") == 2001
  {
    assert "2001"[..3] == "200" && "200"[..2] == "20" && "20"[..1] == "2" && "2"[..0] == "";
  }

  lemma Value001() ensures DecimalValue("001") == 1
  {
    assert "001"[..2] == "00" && "00"[..1] == "0" && "0"[..0] == "";
  }

  lemma FormatA1000() ensures FormatTicketNumber("A", 1000) == "A1000"
  {
    assert NatToDecimal(100) == "100";
  }

  lemma FormatA1001() ensures FormatTicketNumber("A", 1001) == "A1001"
  {
    assert NatToDecimal(100) == "100";
  }

  lemma FormatB22002() ensures FormatTicketNumber("B2", 2002) == "B22002"
  {
    assert NatToDecimal(200) == "200";
  }

  lemma FormatB2002() ensures FormatTicketNumber("B2", 2) == "B2002"
  {
    assert Pad3(2) == "002";
  }

  /** Every timestamp falls on the current day. */
  function AllToday(t: int): bool { true }

  const RowsA: seq<Ticket> := [Issued(1, "A999"), Issued(2, "A1000")]
  const RowsB2: seq<Ticket> := [Issued(1, "B2001")]

  lemma DigitTextsA()
    ensures DigitTexts(RowsA, "A", AllToday) == ["999", "1000"]
  {
    DigitsA999();
    DigitsA1000();
    assert PlainPattern("A");
    LikePlainPrefix("A999", "A");
    LikePlainPrefix("A1000", "A");
    assert HasPrefix("A999", "A") && HasPrefix("A1000", "A");
    assert RowsA[1..] == [Issued(2, "A1000")] && RowsA[1..][1..] == [];
    assert DigitTexts(RowsA[1..][1..], "A", AllToday) == [];
    assert DigitTexts(RowsA[1..], "A", AllToday) == ["1000"];
  }

  lemma TextMaxA()
    ensures TextMax(["999", "1000"]) == Some("999")
  {
    assert StringLess("1000", "999");
    assert ["999", "1000"][1..] == ["1000"];
    assert TextMax(["1000"]) == Some("1000");
  }

  lemma MaxSequenceA()
    ensures MaxSequence(RowsA, "A", AllToday) == 1000
  {
    Value999();
    Value1000();
    assert SequenceOf("A999", "A") == Some(999) by { assert "A999"[1..] == "999"; }
    assert SequenceOf("A1000", "A") == Some(1000) by { assert "A1000"[1..] == "1000"; }
    assert RowsA[1..] == [Issued(2, "A1000")] && RowsA[1..][1..] == [];
    assert MaxSequence(RowsA[1..], "A", AllToday) == 1000;
  }

  /** With "A999" and "A1000" issued today, the text maximum of the digit strings is
      "999", so the query hands out 1000 again and the number "A1000" repeats. */
  lemma TextMaximumRepeatsNumber()
    ensures GenerateNumberAsWritten(RowsA, "A", AllToday) == Ok(("A1000", 1000))
    ensures RowsA[1].ticketNumber == "A1000"
    ensures GenerateNumber(RowsA, "A", AllToday) == Ok(("A1001", 1001))
  {
    DigitTextsA();
    TextMaxA();
    Value999();
    Value1000();
    FormatA1000();
    FormatA1001();
    MaxSequenceA();
  }

  /** A prefix that contains a digit lends that digit to the number: with "B2001"
      issued under prefix "B2", the query reads 2001 and hands out 2002 ("B22002"). */
  lemma PrefixDigitsEnterNumber()
    ensures GenerateNumberAsWritten(RowsB2, "B2", AllToday) == Ok(("B22002", 2002))
    ensures GenerateNumber(RowsB2, "B2", AllToday) == Ok(("B2002", 2))
  {
    PrefixDigitsAsWritten();
    PrefixDigitsCorrected();
  }

  lemma PrefixDigitsAsWritten()
    ensures GenerateNumberAsWritten(RowsB2, "B2", AllToday) == Ok(("B22002", 2002))
  {
    DigitsB2001();
    Value2001();
    FormatB22002();
    assert PlainPattern("B2");
    LikePlainPrefix("B2001", "B2");
    assert HasPrefix("B2001", "B2");
    assert RowsB2[1..] == [];
    assert DigitTexts(RowsB2, "B2", AllToday) == ["2001"];
    assert TextMax(["2001"]) == Some("2001");
  }

  lemma PrefixDigitsCorrected()
    ensures GenerateNumber(RowsB2, "B2", AllToday) == Ok(("B2002", 2))
  {
    Value001();
    FormatB2002();
    assert RowsB2[1..] == [];
    assert SequenceOf("B2001", "B2") == Some(1) by { assert "B2001"[2..] == "001"; }
    assert MaxSequence(RowsB2, "B2", AllToday) == 1;
  }

  // ---------------------------------------------------------------------------
  // GetByID: the scanned row, with optional columns filled only when non-NULL.

  /** The columns of a ticket row as scanned; `categoryId` is scanned into a plain integer. */
  datatype ScannedTicket = ScannedTicket(
    id: int, ticketNumber: string, categoryId: Option<int>, counterId: NullInt64,
    status: TicketStatus, priority: int, createdAt: int,
    calledAt: Option<int>, completedAt: Option<int>, waitTime: NullInt64, serviceTime: NullInt64,
    dailySequence: int, queueDate: int, notes: NullString)

  function FromNullInt(n: NullInt64): (r: Option<int>)
    ensures r.Some? <==> n.valid
    ensures r.Some? ==> r.value == n.int64
  {
    if n.valid then Some(n.int64) else None
  }

  /** A NULL category cannot be scanned into an integer and fails the read. */
  function TicketFromScan(row: ScannedTicket): (r: Result<Ticket>)
    ensures r.Err? <==> row.categoryId.None?
    ensures r.Ok? ==> r.value.categoryId == row.categoryId
    ensures r.Ok? ==> (r.value.counterId.Some? <==> row.counterId.valid)
    ensures r.Ok? && r.value.counterId.Some? ==> r.value.counterId.value == row.counterId.int64
    ensures r.Ok? ==> r.value.calledAt == row.calledAt && r.value.completedAt == row.completedAt
    ensures r.Ok? ==> (r.value.waitTime.Some? <==> row.waitTime.valid)
    ensures r.Ok? && r.value.waitTime.Some? ==> r.value.waitTime.value == row.waitTime.int64
    ensures r.Ok? ==> (r.value.serviceTime.Some? <==> row.serviceTime.valid)
    ensures r.Ok? && r.value.serviceTime.Some? ==> r.value.serviceTime.value == row.serviceTime.int64
    ensures r.Ok? ==> r.value.id == row.id && r.value.ticketNumber == row.ticketNumber && r.value.status == row.status
  {
    if row.categoryId.None? then Err("can't scan NULL into int")
    else Ok(Ticket(row.id, row.ticketNumber, row.categoryId, FromNullInt(row.counterId),
                   row.status, row.priority, row.createdAt, row.calledAt, row.completedAt,
                   FromNullInt(row.waitTime), FromNullInt(row.serviceTime),
                   row.dailySequence, row.queueDate, row.notes))
  }

  // ---------------------------------------------------------------------------
  // GetWithDetails / GetByTicketNumber: the ticket joined with its category and counter.

  datatype CategoryBrief = CategoryBrief(id: int, name: string, prefix: string, colorCode: string)

  /** The joined counter; `id == 0` and empty texts when the ticket has no counter row. */
  datatype CounterBrief = CounterBrief(id: int, number: string, name: string)

  datatype TicketDetails = TicketDetails(ticket: Ticket, category: CategoryBrief, counter: CounterBrief)

  /** The first row with the given id (ids are unique in a well-formed table). */
  function FindById(rows: seq<Ticket>, id: int): (r: Option<Ticket>)
    ensures r.Some? ==> r.value in rows && r.value.id == id
    ensures r.None? <==> forall t | t in rows :: t.id != id
  {
    if rows == [] then None else if rows[0].id == id then Some(rows[0]) else FindById(rows[1..], id)
  }

  function FindByNumber(rows: seq<Ticket>, number: string): (r: Option<Ticket>)
    ensures r.Some? ==> r.value in rows && r.value.ticketNumber == number
    ensures r.None? <==> forall t | t in rows :: t.ticketNumber != number
  {
    if rows == [] then None else if rows[0].ticketNumber == number then Some(rows[0]) else FindByNumber(rows[1..], number)
  }

  /** The LEFT JOINs: a missing category (NULL into an integer) fails; a missing counter gives id 0. */
  function JoinDetails(t: Ticket, categories: map<int, Category>, counters: map<int, Counter>): (r: Result<TicketDetails>)
    ensures r.Ok? <==> t.categoryId.Some? && t.categoryId.value in categories
    ensures r.Ok? ==> (r.value.ticket == t && r.value.category.id == t.categoryId.value
      && r.value.category.name == categories[t.categoryId.value].name
      && r.value.category.colorCode == categories[t.categoryId.value].colorCode)
    ensures r.Ok? && t.counterId.Some? && t.counterId.value in counters ==>
      r.value.counter == CounterBrief(t.counterId.value, counters[t.counterId.value].number, counters[t.counterId.value].name.str)
    ensures r.Ok? && !(t.counterId.Some? && t.counterId.value in counters) ==> r.value.counter == CounterBrief(0, "", "")
  {
    if t.categoryId.None? || t.categoryId.value !in categories then Err("can't scan NULL into int")
    else
      var c := categories[t.categoryId.value];
      var counter :=
        if t.counterId.Some? && t.counterId.value in counters
        then var co := counters[t.counterId.value]; CounterBrief(t.counterId.value, co.number, co.name.str)
        else CounterBrief(0, "", "");
      Ok(TicketDetails(t, CategoryBrief(t.categoryId.value, c.name, c.prefix, c.colorCode), counter))
  }

  // ---------------------------------------------------------------------------
  // Argument lists built by the repository.

  /** GetWaitingPreviewByCategories: no categories gives the empty list without a
      query (None); otherwise the arguments are the limit followed by the ids in order. */
  method WaitingPreviewArgs(categoryIds: seq<int>, limit: int) returns (args: Option<seq<Value>>)
    ensures args.None? <==> categoryIds == []
    ensures args.Some? ==> |args.value| == |categoryIds| + 1 && args.value[0] == VInt(limit)
    ensures args.Some? ==> forall i | 0 <= i < |categoryIds| :: args.value[i + 1] == VInt(categoryIds[i])
  {
    if |categoryIds| == 0 {
      return None;
    }
    var a := [VInt(limit)];
    for i := 0 to |categoryIds|
      invariant |a| == i + 1 && a[0] == VInt(limit)
      invariant forall j | 0 <= j < i :: a[j + 1] == VInt(categoryIds[j])
    {
      a := a + [VInt(categoryIds[i])];
    }
    args := Some(a);
  }

  /** GetTodayCompletedByCategories: no categories gives the empty list without a
      query (None); otherwise the arguments are the ids in order. */
  method CompletedTodayArgs(categoryIds: seq<int>) returns (args: Option<seq<Value>>)
    ensures args.None? <==> categoryIds == []
    ensures args.Some? ==> |args.value| == |categoryIds|
    ensures args.Some? ==> forall i | 0 <= i < |categoryIds| :: args.value[i] == VInt(categoryIds[i])
  {
    if |categoryIds| == 0 {
      return None;
    }
    var a := new Value[|categoryIds|](_ => VNull);
    for i := 0 to |categoryIds|
      invariant forall j | 0 <= j < i :: a[j] == VInt(categoryIds[j])
    {
      a[i] := VInt(categoryIds[i]);
    }
    args := Some(a[..]);
  }
}
