/** The SQL of the ticket table, stated as functions over the table's rows.
    The table is a sequence of rows in storage order; where SQL leaves the
    order of equal rows open, the model takes the first in storage order. */
module TicketQueries {
  import opened Wrappers
  import opened Text
  import opened Dynamic
  import opened Entities

  // ---------------------------------------------------------------------------
  // GetNextTicket: waiting tickets of the given categories, ordered by the
  // category's priority (descending) and then by creation time (ascending).

  /** The sub-select `(SELECT priority FROM categories WHERE id = t.category_id)`:
      NULL (None) when the ticket has no category row. */
  function CategoryPriority(categories: map<int, Category>, t: Ticket): (p: Option<int>)
    ensures p.Some? <==> t.categoryId.Some? && t.categoryId.value in categories
  {
    if t.categoryId.Some? && t.categoryId.value in categories then Some(categories[t.categoryId.value].priority) else None
  }

  /** `ORDER BY ... DESC` on a nullable integer: NULL sorts first, then larger values. */
  predicate PriorityAhead(p: Option<int>, q: Option<int>) {
    (p.None? && q.Some?) || (p.Some? && q.Some? && p.value > q.value)
  }

  /** Ticket `a` is dispatched strictly ahead of ticket `b`. */
  predicate DispatchedBefore(categories: map<int, Category>, a: Ticket, b: Ticket) {
    var pa, pb := CategoryPriority(categories, a), CategoryPriority(categories, b);
    PriorityAhead(pa, pb) || (pa == pb && a.createdAt < b.createdAt)
  }

  /** `t.category_id = ANY($1) AND t.status = 'waiting'`. */
  predicate Dispatchable(t: Ticket, categoryIds: seq<int>) {
    t.status == Waiting && t.categoryId.Some? && t.categoryId.value in categoryIds
  }

  /** Being "not ahead" is transitive: the dispatch order is a total preorder. */
  lemma NotAheadTransitive(categories: map<int, Category>, a: Ticket, b: Ticket, c: Ticket)
    requires !DispatchedBefore(categories, a, b) && !DispatchedBefore(categories, b, c)
    ensures !DispatchedBefore(categories, a, c)
  {
  }

  /** The row `LIMIT 1` returns: a dispatchable ticket that no dispatchable ticket precedes. */
  function NextTicket(rows: seq<Ticket>, categories: map<int, Category>, categoryIds: seq<int>): (r: Option<Ticket>)
    ensures r.None? <==> forall t | t in rows :: !Dispatchable(t, categoryIds)
    ensures r.Some? ==> r.value in rows && Dispatchable(r.value, categoryIds)
    ensures r.Some? ==> forall t | t in rows && Dispatchable(t, categoryIds) :: !DispatchedBefore(categories, t, r.value)
  {
    if rows == [] then None
    else
      var rest := NextTicket(rows[1..], categories, categoryIds);
      if Dispatchable(rows[0], categoryIds) && (rest.None? || !DispatchedBefore(categories, rest.value, rows[0])) then
        assert forall t | t in rows[1..] && Dispatchable(t, categoryIds) :: !DispatchedBefore(categories, t, rows[0]) by {
          forall t | t in rows[1..] && Dispatchable(t, categoryIds) ensures !DispatchedBefore(categories, t, rows[0]) {
            NotAheadTransitive(categories, t, rest.value, rows[0]);
          }
        }
        Some(rows[0])
      else
        rest
  }

  // ---------------------------------------------------------------------------
  // GetCurrentTicketForCounter: the serving ticket of a counter, latest call first.

  predicate ServingAt(t: Ticket, counterId: int) {
    t.status == Serving && t.counterId == Some(counterId)
  }

  /** `ORDER BY t.called_at DESC`: a NULL call time first, then later calls. */
  predicate CalledAfter(a: Ticket, b: Ticket) {
    (a.calledAt.None? && b.calledAt.Some?) || (a.calledAt.Some? && b.calledAt.Some? && a.calledAt.value > b.calledAt.value)
  }

  function CurrentForCounter(rows: seq<Ticket>, counterId: int): (r: Option<Ticket>)
    ensures r.None? <==> forall t | t in rows :: !ServingAt(t, counterId)
    ensures r.Some? ==> r.value in rows && ServingAt(r.value, counterId)
    ensures r.Some? ==> forall t | t in rows && ServingAt(t, counterId) :: !CalledAfter(t, r.value)
  {
    if rows == [] then None
    else
      var rest := CurrentForCounter(rows[1..], counterId);
      if ServingAt(rows[0], counterId) && (rest.None? || !CalledAfter(rest.value, rows[0])) then Some(rows[0])
      else rest
  }

  // ---------------------------------------------------------------------------
  // UpdateTicketStatus and AssignTicketToCounter.

  /** `EXTRACT(EPOCH FROM (later - earlier))::INT`: NULL when either side is NULL. */
  function Elapsed(earlier: Option<int>, later: Option<int>): (d: Option<int>)
    ensures d.Some? <==> earlier.Some? && later.Some?
    ensures d.Some? ==> earlier.value + d.value == later.value
  {
    if earlier.Some? && later.Some? then Some(later.value - earlier.value) else None
  }

  /** The row written by `UpdateTicketStatus(status)` at time `now`. */
  function StatusUpdated(t: Ticket, status: TicketStatus, now: int): (u: Ticket)
    ensures u.status == status
    ensures status == Serving ==>
      u.calledAt == Some(now) && u.(status := t.status, calledAt := t.calledAt) == t
    ensures (status == Completed || status == NoShow) ==>
      u.completedAt == Some(now)
      && u.waitTime == Elapsed(Some(t.createdAt), t.calledAt)
      && u.serviceTime == Elapsed(t.calledAt, Some(now))
      && u.(status := t.status, completedAt := t.completedAt, waitTime := t.waitTime, serviceTime := t.serviceTime) == t
    ensures status == Waiting || status == Cancelled ==> u.(status := t.status) == t
  {
    match status
    case Serving => t.(status := Serving, calledAt := Some(now))
    case Completed =>
      t.(status := Completed, completedAt := Some(now),
         waitTime := Elapsed(Some(t.createdAt), t.calledAt), serviceTime := Elapsed(t.calledAt, Some(now)))
    case NoShow =>
      t.(status := NoShow, completedAt := Some(now),
         waitTime := Elapsed(Some(t.createdAt), t.calledAt), serviceTime := Elapsed(t.calledAt, Some(now)))
    case Waiting => t.(status := Waiting)
    case Cancelled => t.(status := Cancelled)
  }

  /** The row written by `AssignTicketToCounter` at time `now`, whatever its previous status. */
  function AssignedTo(t: Ticket, counterId: int, now: int): (u: Ticket)
    ensures u.counterId == Some(counterId) && u.status == Serving && u.calledAt == Some(now)
    ensures u.(counterId := t.counterId, status := t.status, calledAt := t.calledAt) == t
  {
    t.(counterId := Some(counterId), status := Serving, calledAt := Some(now))
  }

  /** `UPDATE tickets SET <status columns> WHERE id = $2`. */
  function UpdateStatusRows(rows: seq<Ticket>, id: int, status: TicketStatus, now: int): (r: seq<Ticket>)
    ensures |r| == |rows|
    ensures forall i | 0 <= i < |rows| :: r[i] == if rows[i].id == id then StatusUpdated(rows[i], status, now) else rows[i]
  {
    seq(|rows|, i requires 0 <= i < |rows| => if rows[i].id == id then StatusUpdated(rows[i], status, now) else rows[i])
  }

  /** `UPDATE tickets SET counter_id = $1, status = 'serving', called_at = NOW() WHERE id = $2`. */
  function AssignRows(rows: seq<Ticket>, id: int, counterId: int, now: int): (r: seq<Ticket>)
    ensures |r| == |rows|
    ensures forall i | 0 <= i < |rows| :: r[i] == if rows[i].id == id then AssignedTo(rows[i], counterId, now) else rows[i]
  {
    seq(|rows|, i requires 0 <= i < |rows| => if rows[i].id == id then AssignedTo(rows[i], counterId, now) else rows[i])
  }

  // ---------------------------------------------------------------------------
  // Counting queries.

  /** Rows of a category created on the current day (`GetTodayTicketCountByCategory`). */
  function CountTodayInCategory(rows: seq<Ticket>, categoryId: int, isToday: int -> bool): (n: nat)
    ensures n <= |rows|
    ensures n == 0 <==> forall t | t in rows :: !(t.categoryId == Some(categoryId) && isToday(t.createdAt))
  {
    if rows == [] then 0
    else CountTodayInCategory(rows[1..], categoryId, isToday)
         + (if rows[0].categoryId == Some(categoryId) && isToday(rows[0].createdAt) then 1 else 0)
  }

  // ---------------------------------------------------------------------------
  // GenerateTicketNumber, as the query is written:
  //   SELECT COALESCE(MAX(NULLIF(regexp_replace(ticket_number, '[^0-9]', '', 'g'), ''))::INT, 0) + 1
  //   FROM tickets WHERE ticket_number LIKE prefix || '%' AND DATE(created_at) = CURRENT_DATE

  const MaxInt4: int := 2147483647

  /** `s LIKE p` under PostgreSQL's rules: `_` matches any one character, `%`
      any run of characters, and `\` makes the character after it literal. A
      pattern may not end in a lone `\`; the numbering pattern always ends in
      the `%` the query appends, so that case does not arise and is no match here. */
  predicate Like(s: string, p: string)
    decreases |s| + |p|
  {
    if p == [] then s == []
    else if p[0] == '%' then Like(s, p[1..]) || (s != [] && Like(s[1..], p))
    else if p[0] == '\\' then |p| >= 2 && s != [] && s[0] == p[1] && Like(s[1..], p[2..])
    else s != [] && (p[0] == '_' || s[0] == p[0]) && Like(s[1..], p[1..])
  }

  /** A text without LIKE's three special characters. */
  predicate PlainPattern(prefix: string) {
    forall i | 0 <= i < |prefix| :: prefix[i] != '%' && prefix[i] != '_' && prefix[i] != '\\'
  }

  /** A trailing `%` matches any text. */
  lemma {:induction false} LikeAnyRest(s: string)
    ensures Like(s, "%")
  {
    if s != [] {
      LikeAnyRest(s[1..]);
    }
  }

  /** For a prefix without special characters, `LIKE prefix || '%'` is a prefix test. */
  lemma {:induction false} LikePlainPrefix(s: string, prefix: string)
    requires PlainPattern(prefix)
    ensures Like(s, prefix + "%") <==> HasPrefix(s, prefix)
  {
    if prefix == [] {
      assert prefix + "%" == "%";
      LikeAnyRest(s);
    } else {
      assert (prefix + "%")[1..] == prefix[1..] + "%";
      assert PlainPattern(prefix[1..]) by {
        forall i | 0 <= i < |prefix[1..]| ensures prefix[1..][i] != '%' && prefix[1..][i] != '_' && prefix[1..][i] != '\\' {
          assert prefix[1..][i] == prefix[i + 1];
        }
      }
      if s != [] {
        LikePlainPrefix(s[1..], prefix[1..]);
        assert HasPrefix(s, prefix) <==> s[0] == prefix[0] && HasPrefix(s[1..], prefix[1..]) by {
          if |prefix| <= |s| {
            assert s[..|prefix|] == [s[0]] + s[1..][..|prefix| - 1];
            assert prefix == [prefix[0]] + prefix[1..];
          }
        }
      }
    }
  }

  /** A prefix containing `_` selects numbers that do not start with it: under
      prefix "A_" the number "AB001" is counted. */
  lemma UnderscorePrefixIsWildcard()
    ensures Like("AB001", "A_" + "%") && !HasPrefix("AB001", "A_")
  {
    assert "A_" + "%" == "A_%";
    assert "AB001"[1..] == "B001" && "A_%"[1..] == "_%";
    assert "B001"[1..] == "001" && "_%"[1..] == "%";
    LikeAnyRest("001");
    assert "AB001"[..2] == "AB";
  }

  /** `ticket_number LIKE prefix || '%' AND DATE(created_at) = CURRENT_DATE`. */
  predicate NumberedToday(t: Ticket, prefix: string, isToday: int -> bool) {
    Like(t.ticketNumber, prefix + "%") && isToday(t.createdAt)
  }

  /** The non-NULL values of `NULLIF(regexp_replace(ticket_number, '[^0-9]', '', 'g'), '')`
      over the selected rows, in storage order. */
  function DigitTexts(rows: seq<Ticket>, prefix: string, isToday: int -> bool): (r: seq<string>)
    ensures forall x | x in r :: x != "" && AllDigits(x)
  {
    if rows == [] then []
    else
      var d := KeepDigits(rows[0].ticketNumber);
      (if NumberedToday(rows[0], prefix, isToday) && d != "" then [d] else []) + DigitTexts(rows[1..], prefix, isToday)
  }

  /** Every ticket numbered today under the prefix contributes its digits. */
  lemma {:induction false} DigitTextsCover(rows: seq<Ticket>, prefix: string, isToday: int -> bool)
    ensures forall t | t in rows && NumberedToday(t, prefix, isToday) && KeepDigits(t.ticketNumber) != "" ::
      KeepDigits(t.ticketNumber) in DigitTexts(rows, prefix, isToday)
  {
    if rows != [] {
      DigitTextsCover(rows[1..], prefix, isToday);
      assert forall t | t in rows :: t == rows[0] || t in rows[1..];
    }
  }

  /** `MAX` over text values: NULL for no values. The values are digit strings,
      which every collation orders character by character (`StringLess`). */
  function TextMax(xs: seq<string>): (m: Option<string>)
    ensures m.None? <==> xs == []
    ensures m.Some? ==> m.value in xs && forall x | x in xs :: !StringLess(m.value, x)
  {
    if xs == [] then None
    else
      var rest := TextMax(xs[1..]);
      if rest.None? then
        StringLessIrreflexive(xs[0]);
        Some(xs[0])
      else if StringLess(rest.value, xs[0]) then
        StringLessIrreflexive(xs[0]);
        assert forall x | x in xs[1..] :: !StringLess(xs[0], x) by {
          forall x | x in xs[1..] ensures !StringLess(xs[0], x) {
            if StringLess(xs[0], x) { StringLessTransitive(rest.value, xs[0], x); }
          }
        }
        Some(xs[0])
      else
        rest
  }

  /** The number the query returns: one more than the value of the text-largest
      digit string, or an `integer out of range` error from the `::INT` cast or the `+ 1`. */
  function GenerateTicketNumberAsWritten(rows: seq<Ticket>, prefix: string, isToday: int -> bool): (r: Result<int>)
    ensures DigitTexts(rows, prefix, isToday) == [] ==> r == Ok(1)
    ensures r.Ok? ==> 1 <= r.value <= MaxInt4
    ensures r.Ok? && DigitTexts(rows, prefix, isToday) != [] ==>
      exists m | m in DigitTexts(rows, prefix, isToday) ::
        r.value == DecimalValue(m) + 1 && forall x | x in DigitTexts(rows, prefix, isToday) :: !StringLess(m, x)
    ensures r.Err? ==> exists m | m in DigitTexts(rows, prefix, isToday) :: DecimalValue(m) >= MaxInt4
  {
    match TextMax(DigitTexts(rows, prefix, isToday))
    case None => Ok(1)
    case Some(m) =>
      if DecimalValue(m) >= MaxInt4 then Err("integer out of range") else Ok(DecimalValue(m) + 1)
  }

  // ---------------------------------------------------------------------------
  // Ticket numbering as evidently intended: one more than the largest sequence
  // number issued today under this prefix, reading only the digits after the prefix.

  /** The sequence number of `number` under `prefix`: the value of the digits that follow the prefix. */
  function SequenceOf(number: string, prefix: string): (r: Option<nat>)
    ensures r.Some? ==> (HasPrefix(number, prefix) && |number| > |prefix|
      && AllDigits(number[|prefix|..]) && r.value == DecimalValue(number[|prefix|..]))
  {
    if HasPrefix(number, prefix) && |number| > |prefix| && AllDigits(number[|prefix|..])
    then Some(DecimalValue(number[|prefix|..])) else None
  }

  predicate SequencedToday(t: Ticket, prefix: string, isToday: int -> bool) {
    isToday(t.createdAt) && SequenceOf(t.ticketNumber, prefix).Some?
  }

  /** The largest sequence number issued today under `prefix`, 0 when there is none. */
  function MaxSequence(rows: seq<Ticket>, prefix: string, isToday: int -> bool): (m: nat)
    ensures forall t | t in rows && SequencedToday(t, prefix, isToday) :: SequenceOf(t.ticketNumber, prefix).value <= m
    ensures m == 0 || exists t | t in rows && SequencedToday(t, prefix, isToday) :: SequenceOf(t.ticketNumber, prefix).value == m
  {
    if rows == [] then 0
    else
      var rest := MaxSequence(rows[1..], prefix, isToday);
      if SequencedToday(rows[0], prefix, isToday) && SequenceOf(rows[0].ticketNumber, prefix).value > rest
      then SequenceOf(rows[0].ticketNumber, prefix).value
      else rest
  }

  /** The next sequence number for `prefix`: above every number issued today under it. */
  function NextTicketSequence(rows: seq<Ticket>, prefix: string, isToday: int -> bool): (r: Result<int>)
    ensures r.Ok? ==> 1 <= r.value <= MaxInt4
    ensures r.Ok? ==> forall t | t in rows && SequencedToday(t, prefix, isToday) :: SequenceOf(t.ticketNumber, prefix).value < r.value
    ensures r.Ok? ==> r.value == 1 || exists t | t in rows && SequencedToday(t, prefix, isToday) :: SequenceOf(t.ticketNumber, prefix).value == r.value - 1
    ensures r.Err? ==> exists t | t in rows && SequencedToday(t, prefix, isToday) :: SequenceOf(t.ticketNumber, prefix).value >= MaxInt4
  {
    var m := MaxSequence(rows, prefix, isToday);
    if m >= MaxInt4 then Err("integer out of range") else Ok(m + 1)
  }

  // ---------------------------------------------------------------------------
  // ListTickets: a WHERE clause per filter present in the map, always ordered by
  // creation time (newest first), then LIMIT and OFFSET when non-zero.

  /** The filter keys that add a WHERE condition, in the order the conditions are emitted. */
  datatype FilterKey = StatusKey | CategoryKey | CounterKey | DateFromKey | DateToKey

  function KeyName(k: FilterKey): string {
    match k
    case StatusKey => "status"
    case CategoryKey => "category_id"
    case CounterKey => "counter_id"
    case DateFromKey => "date_from"
    case DateToKey => "date_to"
  }

  /** The condition's column and comparison. */
  function ConditionText(k: FilterKey): string {
    match k
    case StatusKey => "t.status ="
    case CategoryKey => "t.category_id ="
    case CounterKey => "t.counter_id ="
    case DateFromKey => "t.created_at >="
    case DateToKey => "t.created_at <="
  }

  /** The filter is skipped when its value equals this one (`!= ""` or `!= 0` on an `interface{}`). */
  function SkipWhen(k: FilterKey): Value {
    match k
    case StatusKey => VString("")
    case CategoryKey => VInt(0)
    case CounterKey => VInt(0)
    case DateFromKey => VString("")
    case DateToKey => VString("")
  }

  /** One emitted fragment of the query text; `param` is its `$n` placeholder. */
  datatype ListPart =
    | Condition(key: FilterKey, param: nat)
    | NewestFirst
    | LimitParam(param: nat)
    | OffsetParam(param: nat)

  datatype ListQuery = ListQuery(parts: seq<ListPart>, args: seq<Value>)

  const ListSelect: string :=
    "SELECT t.id, t.ticket_number, t.category_id, t.counter_id, t.status, t.priority, "
    + "t.created_at, t.called_at, t.completed_at, t.wait_time, t.service_time, t.notes "
    + "FROM tickets t WHERE 1=1"

  function PartText(p: ListPart): string {
    match p
    case Condition(k, n) => " AND " + ConditionText(k) + " $" + NatToDecimal(n)
    case NewestFirst => " ORDER BY t.created_at DESC"
    case LimitParam(n) => " LIMIT $" + NatToDecimal(n)
    case OffsetParam(n) => " OFFSET $" + NatToDecimal(n)
  }

  function PartsText(parts: seq<ListPart>): string {
    if parts == [] then "" else PartsText(parts[..|parts| - 1]) + PartText(parts[|parts| - 1])
  }

  /** The SQL text of a built query. */
  function QueryText(q: ListQuery): string { ListSelect + PartsText(q.parts) }

  /** The placeholders of the fragments, in text order. */
  function Placeholders(parts: seq<ListPart>): seq<nat> {
    if parts == [] then []
    else Placeholders(parts[..|parts| - 1]) + (if parts[|parts| - 1].NewestFirst? then [] else [parts[|parts| - 1].param])
  }

  /** The placeholders are `$1, $2, ..., $k`. */
  predicate Consecutive(ps: seq<nat>) { forall i | 0 <= i < |ps| :: ps[i] == i + 1 }

  /** `if v, ok := filters[key]; ok && v != <zero>`. */
  predicate Present(filters: map<string, Value>, key: string, skipWhen: Value) {
    key in filters && filters[key] != skipWhen
  }

  predicate IsConditionOn(p: ListPart, k: FilterKey) { p.Condition? && p.key == k }

  predicate HasCondition(parts: seq<ListPart>, k: FilterKey) {
    exists i | 0 <= i < |parts| :: IsConditionOn(parts[i], k)
  }

  /** Each condition's placeholder holds that filter's value. */
  predicate ArgsMatch(q: ListQuery, filters: map<string, Value>) {
    forall i | 0 <= i < |q.parts| && q.parts[i].Condition? ::
      KeyName(q.parts[i].key) in filters && 1 <= q.parts[i].param <= |q.args|
      && q.args[q.parts[i].param - 1] == filters[KeyName(q.parts[i].key)]
  }

  /** The fragments and arguments fit together: placeholders `$1..$k` in order, with exactly k arguments. */
  predicate WellFormed(q: ListQuery, filters: map<string, Value>) {
    Consecutive(Placeholders(q.parts)) && |Placeholders(q.parts)| == |q.args| && ArgsMatch(q, filters)
  }

  lemma PlaceholdersAppend(parts: seq<ListPart>, p: ListPart)
    ensures Placeholders(parts + [p]) == Placeholders(parts) + (if p.NewestFirst? then [] else [p.param])
  {
    assert (parts + [p])[..|parts + [p]| - 1] == parts;
  }

  lemma ConditionsAppend(parts: seq<ListPart>, p: ListPart, k: FilterKey)
    ensures HasCondition(parts + [p], k) <==> (HasCondition(parts, k) || IsConditionOn(p, k))
  {
    var ps := parts + [p];
    if HasCondition(ps, k) && !IsConditionOn(p, k) {
      var i :| 0 <= i < |ps| && IsConditionOn(ps[i], k);
      assert i < |parts| && parts[i] == ps[i];
    }
    if HasCondition(parts, k) {
      var i :| 0 <= i < |parts| && IsConditionOn(parts[i], k);
      assert ps[i] == parts[i];
    }
    if IsConditionOn(p, k) { assert ps[|parts|] == p; }
  }

  /** Appending a fragment with the next placeholder and its argument keeps the query well formed. */
  lemma AppendKeepsWellFormed(q: ListQuery, filters: map<string, Value>, p: ListPart, v: Value)
    requires WellFormed(q, filters) && !p.NewestFirst? && p.param == |q.args| + 1
    requires p.Condition? ==> KeyName(p.key) in filters && v == filters[KeyName(p.key)]
    ensures WellFormed(ListQuery(q.parts + [p], q.args + [v]), filters)
  {
    PlaceholdersAppend(q.parts, p);
    var q' := ListQuery(q.parts + [p], q.args + [v]);
    forall i | 0 <= i < |q'.parts| && q'.parts[i].Condition?
      ensures KeyName(q'.parts[i].key) in filters && 1 <= q'.parts[i].param <= |q'.args|
        && q'.args[q'.parts[i].param - 1] == filters[KeyName(q'.parts[i].key)]
    {
      if i < |q.parts| { assert q'.parts[i] == q.parts[i]; }
    }
  }

  /** Appending the ordering, which has no placeholder, keeps the query well formed and its conditions. */
  lemma OrderingKeepsWellFormed(q: ListQuery, filters: map<string, Value>)
    requires WellFormed(q, filters)
    ensures WellFormed(ListQuery(q.parts + [NewestFirst], q.args), filters)
    ensures forall k :: HasCondition(q.parts + [NewestFirst], k) <==> HasCondition(q.parts, k)
  {
    PlaceholdersAppend(q.parts, NewestFirst);
    forall k ensures HasCondition(q.parts + [NewestFirst], k) <==> HasCondition(q.parts, k) {
      ConditionsAppend(q.parts, NewestFirst, k);
    }
    var q' := ListQuery(q.parts + [NewestFirst], q.args);
    forall i | 0 <= i < |q'.parts| && q'.parts[i].Condition?
      ensures KeyName(q'.parts[i].key) in filters && 1 <= q'.parts[i].param <= |q'.args|
        && q'.args[q'.parts[i].param - 1] == filters[KeyName(q'.parts[i].key)]
    {
      assert i < |q.parts| && q'.parts[i] == q.parts[i];
    }
  }

  method AddCondition(q: ListQuery, filters: map<string, Value>, k: FilterKey, argCount: nat) returns (q': ListQuery, argCount': nat)
    requires WellFormed(q, filters) && argCount == |q.args| + 1
    requires forall i | 0 <= i < |q.parts| :: q.parts[i].Condition?
    ensures WellFormed(q', filters) && argCount' == |q'.args| + 1
    ensures forall i | 0 <= i < |q'.parts| :: q'.parts[i].Condition?
    ensures forall k' :: HasCondition(q'.parts, k') <==> (HasCondition(q.parts, k') || (k' == k && Present(filters, KeyName(k), SkipWhen(k))))
  {
    q', argCount' := q, argCount;
    if KeyName(k) in filters && filters[KeyName(k)] != SkipWhen(k) {
      var c := Condition(k, argCount);
      AppendKeepsWellFormed(q, filters, c, filters[KeyName(k)]);
      forall k' ensures HasCondition(q.parts + [c], k') <==> (HasCondition(q.parts, k') || k' == k) {
        ConditionsAppend(q.parts, c, k');
      }
      q' := ListQuery(q.parts + [c], q.args + [filters[KeyName(k)]]);
      argCount' := argCount + 1;
    }
  }

  /** The WHERE conditions, in the fixed order status, category, counter, date range. */
  method ListConditions(filters: map<string, Value>) returns (q: ListQuery, argCount: nat)
    ensures WellFormed(q, filters) && argCount == |q.args| + 1
    ensures forall i | 0 <= i < |q.parts| :: q.parts[i].Condition?
    ensures forall k :: HasCondition(q.parts, k) <==> Present(filters, KeyName(k), SkipWhen(k))
  {
    q := ListQuery([], []);
    argCount := 1;
    q, argCount := AddCondition(q, filters, StatusKey, argCount);
    q, argCount := AddCondition(q, filters, CategoryKey, argCount);
    q, argCount := AddCondition(q, filters, CounterKey, argCount);
    q, argCount := AddCondition(q, filters, DateFromKey, argCount);
    q, argCount := AddCondition(q, filters, DateToKey, argCount);
  }

  /** LIMIT and OFFSET, each only when its filter is present and non-zero. */
  method AddPaging(q: ListQuery, filters: map<string, Value>, argCount: nat) returns (q': ListQuery)
    requires WellFormed(q, filters) && argCount == |q.args| + 1
    ensures WellFormed(q', filters)
    ensures |q'.parts| >= |q.parts| && q'.parts[..|q.parts|] == q.parts
    ensures forall i | |q.parts| <= i < |q'.parts| :: q'.parts[i].LimitParam? || q'.parts[i].OffsetParam?
    ensures forall k :: HasCondition(q'.parts, k) <==> HasCondition(q.parts, k)
    ensures (exists i | |q.parts| <= i < |q'.parts| :: q'.parts[i].LimitParam?) <==> Present(filters, "limit", VInt(0))
    ensures (exists i | |q.parts| <= i < |q'.parts| :: q'.parts[i].OffsetParam?) <==> Present(filters, "offset", VInt(0))
  {
    q' := q;
    var next := argCount;
    if "limit" in filters && filters["limit"] != VInt(0) {
      var p := LimitParam(next);
      AppendKeepsWellFormed(q', filters, p, filters["limit"]);
      forall k ensures HasCondition(q'.parts + [p], k) <==> HasCondition(q'.parts, k) { ConditionsAppend(q'.parts, p, k); }
      q' := ListQuery(q'.parts + [p], q'.args + [filters["limit"]]);
      next := next + 1;
    }
    ghost var mid := q';
    if "offset" in filters && filters["offset"] != VInt(0) {
      var p := OffsetParam(next);
      AppendKeepsWellFormed(q', filters, p, filters["offset"]);
      forall k ensures HasCondition(q'.parts + [p], k) <==> HasCondition(q'.parts, k) { ConditionsAppend(q'.parts, p, k); }
      q' := ListQuery(q'.parts + [p], q'.args + [filters["offset"]]);
      assert q'.parts[|mid.parts|].OffsetParam?;
    }
    if Present(filters, "limit", VInt(0)) { assert q'.parts[|q.parts|].LimitParam?; }
  }

  /** The shape of the final query: conditions, the ordering, then paging. */
  lemma ListShape(conditions: seq<ListPart>, q: ListQuery, filters: map<string, Value>)
    requires forall i | 0 <= i < |conditions| :: conditions[i].Condition?
    requires |q.parts| > |conditions| && q.parts[..|conditions| + 1] == conditions + [NewestFirst]
    requires forall i | |conditions| + 1 <= i < |q.parts| :: q.parts[i].LimitParam? || q.parts[i].OffsetParam?
    requires (exists i | |conditions| + 1 <= i < |q.parts| :: q.parts[i].LimitParam?) <==> Present(filters, "limit", VInt(0))
    requires (exists i | |conditions| + 1 <= i < |q.parts| :: q.parts[i].OffsetParam?) <==> Present(filters, "offset", VInt(0))
    ensures exists n | 0 <= n < |q.parts| :: (q.parts[n] == NewestFirst
      && (forall i | 0 <= i < n :: q.parts[i].Condition?)
      && (forall i | n < i < |q.parts| :: q.parts[i].LimitParam? || q.parts[i].OffsetParam?))
    ensures (exists i | 0 <= i < |q.parts| :: q.parts[i].LimitParam?) <==> Present(filters, "limit", VInt(0))
    ensures (exists i | 0 <= i < |q.parts| :: q.parts[i].OffsetParam?) <==> Present(filters, "offset", VInt(0))
  {
    var n := |conditions|;
    forall i | 0 <= i <= n ensures q.parts[i] == (conditions + [NewestFirst])[i] {
      assert q.parts[..n + 1][i] == q.parts[i];
    }
    assert q.parts[n] == NewestFirst;
  }

  method ListTickets(filters: map<string, Value>) returns (q: ListQuery)
    ensures WellFormed(q, filters)
    ensures forall k :: HasCondition(q.parts, k) <==> Present(filters, KeyName(k), SkipWhen(k))
    ensures exists n | 0 <= n < |q.parts| :: (q.parts[n] == NewestFirst
      && (forall i | 0 <= i < n :: q.parts[i].Condition?)
      && (forall i | n < i < |q.parts| :: q.parts[i].LimitParam? || q.parts[i].OffsetParam?))
    ensures (exists i | 0 <= i < |q.parts| :: q.parts[i].LimitParam?) <==> Present(filters, "limit", VInt(0))
    ensures (exists i | 0 <= i < |q.parts| :: q.parts[i].OffsetParam?) <==> Present(filters, "offset", VInt(0))
  {
    var conditions, argCount := ListConditions(filters);
    var ordered := ListQuery(conditions.parts + [NewestFirst], conditions.args);
    OrderingKeepsWellFormed(conditions, filters);
    q := AddPaging(ordered, filters, argCount);
    ListShape(conditions.parts, q, filters);
  }

  // ---------------------------------------------------------------------------
  // The `IN (...)` lists of the preview and completed-today queries.

  /** Placeholders for an `IN (...)` list and the arguments they stand for. */
  datatype InList = InList(placeholders: seq<string>, args: seq<Value>)

  /** GetWaitingTicketsPreviewByCategories: `$1` is the limit, the ids are `$2..$(n+1)`. */
  method WaitingPreviewInList(categoryIds: seq<int>, limit: int) returns (r: Result<InList>)
    ensures r.Err? <==> categoryIds == []
    ensures r.Ok? ==> |r.value.placeholders| == |categoryIds| && |r.value.args| == |categoryIds| + 1
    ensures r.Ok? ==> r.value.args[0] == VInt(limit)
    ensures r.Ok? ==> forall i | 0 <= i < |categoryIds| ::
      r.value.placeholders[i] == "$" + NatToDecimal(i + 2) && r.value.args[i + 1] == VInt(categoryIds[i])
  {
    if |categoryIds| == 0 {
      return Err("no categories provided");
    }
    var placeholders := new string[|categoryIds|];
    var args := new Value[|categoryIds| + 1](_ => VNull);
    for i := 0 to |categoryIds|
      invariant forall j | 0 <= j < i :: placeholders[j] == "$" + NatToDecimal(j + 2) && args[j + 1] == VInt(categoryIds[j])
    {
      placeholders[i] := "$" + NatToDecimal(i + 2);
      args[i + 1] := VInt(categoryIds[i]);
    }
    args[0] := VInt(limit);
    r := Ok(InList(placeholders[..], args[..]));
  }

  /** GetTodayCompletedTicketsByCategories: the ids are `$1..$n`. */
  method CompletedTodayInList(categoryIds: seq<int>) returns (r: Result<InList>)
    ensures r.Err? <==> categoryIds == []
    ensures r.Ok? ==> |r.value.placeholders| == |categoryIds| && |r.value.args| == |categoryIds|
    ensures r.Ok? ==> forall i | 0 <= i < |categoryIds| ::
      r.value.placeholders[i] == "$" + NatToDecimal(i + 1) && r.value.args[i] == VInt(categoryIds[i])
  {
    if |categoryIds| == 0 {
      return Err("no categories provided");
    }
    var placeholders := new string[|categoryIds|];
    var args := new Value[|categoryIds|](_ => VNull);
    for i := 0 to |categoryIds|
      invariant forall j | 0 <= j < i :: placeholders[j] == "$" + NatToDecimal(j + 1) && args[j] == VInt(categoryIds[j])
    {
      placeholders[i] := "$" + NatToDecimal(i + 1);
      args[i] := VInt(categoryIds[i]);
    }
    r := Ok(InList(placeholders[..], args[..]));
  }
}
