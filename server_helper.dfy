/** The template helpers the server registers: duration text, integer
    division and remainder, counts and sums over category lists, `dict` for
    passing several values to a sub-template, and the link of a page of the
    staff ticket list. */
module ServerHelper {
  import opened Wrappers
  import opened Text
  import opened Dynamic
  import opened Entities

  // ---------------------------------------------------------------------------
  // formatDuration.

  /** formatDuration as written: from one minute on it returns the template
      placeholders themselves, never the number. */
  function FormatDurationAsWritten(seconds: int): (s: string)
    ensures seconds < 60 ==> s == "< 1 min"
    ensures 60 <= seconds < 3600 ==> s == "{{ . }} min"
    ensures seconds >= 3600 ==> s == "{{ . }}h {{ . }}m"
  {
    if seconds < 60 then "< 1 min"
    else
      var minutes := GoQuo(seconds, 60);
      if minutes < 60 then "{{ . }} min" else "{{ . }}h {{ . }}m"
  }

  /** Two minutes and fifty minutes print alike, and neither text holds a digit. */
  lemma AsWrittenLosesMinutes()
    ensures FormatDurationAsWritten(120) == FormatDurationAsWritten(3000)
    ensures forall i | 0 <= i < |FormatDurationAsWritten(120)| :: !IsDigit(FormatDurationAsWritten(120)[i])
  {
  }

  /** formatDuration as its commented-out lines intend: the minutes, or the
      hours and the remaining minutes. */
  function FormatDuration(seconds: int): (s: string)
    ensures seconds < 60 ==> s == "< 1 min"
  {
    if seconds < 60 then "< 1 min"
    else
      var minutes := seconds / 60;
      if minutes < 60 then NatToDecimal(minutes) + " min"
      else NatToDecimal(minutes / 60) + "h " + NatToDecimal(minutes % 60) + "m"
  }

  /** Under an hour the text is the whole-minute count, and it reads back as that count. */
  lemma {:induction false} FormatDurationMinutes(seconds: int)
    requires 60 <= seconds < 3600
    ensures var s := FormatDuration(seconds);
      var digits := s[..|s| - 4];
      |s| > 4 && s[|s| - 4..] == " min" && AllDigits(digits) && DecimalValue(digits) == seconds / 60
  {
    var s := FormatDuration(seconds);
    assert s[..|s| - 4] == NatToDecimal(seconds / 60);
    DecimalRoundTrip(seconds / 60);
  }

  /** From an hour on the text is `<h>h <m>m` with h * 60 + m the whole minutes and m below 60. */
  lemma FormatDurationHours(seconds: int)
    requires seconds >= 3600
    ensures var minutes := seconds / 60;
      FormatDuration(seconds) == NatToDecimal(minutes / 60) + "h " + NatToDecimal(minutes % 60) + "m"
      && (minutes / 60) * 60 + minutes % 60 == minutes && minutes % 60 < 60 && minutes / 60 >= 1
  {
  }

  /** Under an hour, different whole-minute counts print differently. */
  lemma FormatDurationDistinguishes(a: int, b: int)
    requires 60 <= a < 3600 && 60 <= b < 3600 && a / 60 != b / 60
    ensures FormatDuration(a) != FormatDuration(b)
  {
    FormatDurationMinutes(a);
    FormatDurationMinutes(b);
  }

  // ---------------------------------------------------------------------------
  // div and mod.

  /** div: 0 for a zero divisor, otherwise Go's truncating quotient. */
  function Div(a: int, b: int): (q: int)
    ensures b == 0 ==> q == 0
    ensures b > 0 && a >= 0 ==> q == a / b
  {
    if b == 0 then 0 else GoQuo(a, b)
  }

  /** mod: Go's remainder; a zero divisor panics, which is None here. */
  function Mod(a: int, b: int): (r: Option<int>)
    ensures r.None? <==> b == 0
  {
    if b == 0 then None else Some(GoRem(a, b))
  }

  /** For a non-zero divisor, div and mod recompose the dividend; the
      remainder is smaller than the divisor and takes the dividend's sign. */
  lemma DivModRecompose(a: int, b: int)
    requires b != 0
    ensures Div(a, b) * b + Mod(a, b).value == a
    ensures 0 <= a ==> 0 <= Mod(a, b).value < (if b > 0 then b else -b)
    ensures a < 0 ==> -(if b > 0 then b else -b) < Mod(a, b).value <= 0
  {
    GoDivision(a, b);
  }

  /** Go truncates toward zero, so -7 div 2 is -3 and the remainder -1. */
  lemma DivTruncates()
    ensures Div(-7, 2) == -3 && Mod(-7, 2) == Some(-1)
  {
  }

  // ---------------------------------------------------------------------------
  // Counting and summing categories.

  /** The number of active categories. */
  function NumActive(items: seq<Category>): (n: nat)
    ensures n <= |items|
  {
    if items == [] then 0
    else NumActive(items[..|items| - 1]) + (if items[|items| - 1].isActive then 1 else 0)
  }

  /** No category is active exactly when the count is 0, and all are exactly when it is the length. */
  lemma {:induction false} NumActiveExtremes(items: seq<Category>)
    ensures NumActive(items) == 0 <==> forall i | 0 <= i < |items| :: !items[i].isActive
    ensures NumActive(items) == |items| <==> forall i | 0 <= i < |items| :: items[i].isActive
  {
    if items != [] {
      var n := |items| - 1;
      NumActiveExtremes(items[..n]);
      assert forall i | 0 <= i < n :: items[..n][i] == items[i];
    }
  }

  method CountActive(items: seq<Category>) returns (count: nat)
    ensures count == NumActive(items)
  {
    count := 0;
    for i := 0 to |items|
      invariant count == NumActive(items[..i])
    {
      assert items[..i + 1][..i] == items[..i];
      if items[i].isActive {
        count := count + 1;
      }
    }
    assert items[..|items|] == items;
  }

  /** countInactive counts the rest: the two counts always add up to the length. */
  method CountInactive(items: seq<Category>) returns (count: nat)
    ensures count == |items| - NumActive(items)
  {
    count := 0;
    for i := 0 to |items|
      invariant count == i - NumActive(items[..i])
    {
      assert items[..i + 1][..i] == items[..i];
      if !items[i].isActive {
        count := count + 1;
      }
    }
    assert items[..|items|] == items;
  }

  /** The sum of the priorities. */
  function PrioritySum(items: seq<Category>): int {
    if items == [] then 0 else PrioritySum(items[..|items| - 1]) + items[|items| - 1].priority
  }

  lemma {:induction false} PrioritySumConcat(a: seq<Category>, b: seq<Category>)
    ensures PrioritySum(a + b) == PrioritySum(a) + PrioritySum(b)
  {
    if b != [] {
      assert (a + b)[..|a + b| - 1] == a + b[..|b| - 1];
      PrioritySumConcat(a, b[..|b| - 1]);
    } else {
      assert a + b == a;
    }
  }

  /** sum: the priorities of a category list when the field is "Priority";
      0 for any other field, and for `items` of any other type (None). */
  method Sum(items: Option<seq<Category>>, field: string) returns (total: int)
    ensures items.None? || field != "Priority" ==> total == 0
    ensures items.Some? && field == "Priority" ==> total == PrioritySum(items.value)
  {
    total := 0;
    if items.None? {
      return;
    }
    var v := items.value;
    for i := 0 to |v|
      invariant total == (if field == "Priority" then PrioritySum(v[..i]) else 0)
    {
      assert v[..i + 1][..i] == v[..i];
      if field == "Priority" {
        total := total + v[i].priority;
      }
    }
    assert v[..|v|] == v;
  }

  // ---------------------------------------------------------------------------
  // dict.

  const OddArguments: string := "invalid dict call: even number of arguments required"
  const KeyNotString: string := "dict keys must be strings"

  /** Every argument at an even position is a string. */
  predicate StringKeys(values: seq<Value>) {
    forall i | 0 <= i < |values| && i % 2 == 0 :: values[i].VString?
  }

  /** The map the pairs build, a later pair overwriting an earlier one with the same key. */
  function PairsMap(values: seq<Value>): (m: map<string, Value>)
    requires |values| % 2 == 0 && StringKeys(values)
    decreases |values|
  {
    if values == [] then map[]
    else
      var n := |values|;
      PairsMap(values[..n - 2])[values[n - 2].s := values[n - 1]]
  }

  /** dict's answer: an error for an odd count or a non-string key, else the pairs' map. */
  function DictOf(values: seq<Value>): (r: Result<map<string, Value>>)
    ensures r.Err? <==> |values| % 2 != 0 || !StringKeys(values)
    ensures |values| % 2 != 0 ==> r == Err(OddArguments)
  {
    if |values| % 2 != 0 then Err(OddArguments)
    else if !StringKeys(values) then Err(KeyNotString)
    else Ok(PairsMap(values))
  }

  method Dict(values: seq<Value>) returns (r: Result<map<string, Value>>)
    ensures r == DictOf(values)
  {
    if |values| % 2 != 0 {
      return Err(OddArguments);
    }
    var dict: map<string, Value> := map[];
    var i := 0;
    while i < |values|
      invariant 0 <= i <= |values| && i % 2 == 0
      invariant StringKeys(values[..i])
      invariant dict == PairsMap(values[..i])
    {
      if !values[i].VString? {
        assert !StringKeys(values);
        return Err(KeyNotString);
      }
      assert values[..i + 2][..i] == values[..i];
      dict := dict[values[i].s := values[i + 1]];
      i := i + 2;
    }
    assert values[..i] == values;
    r := Ok(dict);
  }

  /** The keys of the map are exactly the string keys passed. */
  lemma {:induction false} DictKeys(values: seq<Value>)
    requires |values| % 2 == 0 && StringKeys(values)
    ensures forall k :: k in PairsMap(values) <==> exists i | 0 <= i < |values| && i % 2 == 0 :: values[i] == VString(k)
  {
    if values != [] {
      var n := |values|;
      var front := values[..n - 2];
      assert StringKeys(front);
      DictKeys(front);
      assert forall i | 0 <= i < n - 2 :: front[i] == values[i];
    }
  }

  /** With distinct keys each key maps to the value that follows it. */
  lemma {:induction false} DictLookup(values: seq<Value>, j: int)
    requires |values| % 2 == 0 && StringKeys(values)
    requires forall a, b | 0 <= a < b < |values| && a % 2 == 0 && b % 2 == 0 :: values[a] != values[b]
    requires 0 <= j < |values| && j % 2 == 0
    ensures values[j].s in PairsMap(values) && PairsMap(values)[values[j].s] == values[j + 1]
  {
    var n := |values|;
    if j < n - 2 {
      var front := values[..n - 2];
      assert StringKeys(front);
      assert values[j] != values[n - 2];
      DictLookup(front, j);
    }
  }

  // ---------------------------------------------------------------------------
  // buildPaginationURL.

  datatype Param = Param(key: string, value: string)

  /** A filter that is a non-empty string, or "" when it is absent, of another type or empty. */
  function FilterText(filters: map<string, Value>, key: string): (s: string)
    ensures key in filters && filters[key].VString? ==> s == filters[key].s
    ensures key !in filters || !filters[key].VString? ==> s == ""
  {
    if key in filters && filters[key].VString? then filters[key].s else ""
  }

  /** A parameter for a non-empty value, none for an empty one. */
  function Optional(key: string, value: string): (ps: seq<Param>)
    ensures value == "" ==> ps == []
    ensures value != "" ==> ps == [Param(key, value)]
  {
    if value == "" then [] else [Param(key, value)]
  }

  /** The position of each key in the link. */
  function Rank(key: string): int {
    if key == "page" then 0
    else if key == "date_from" then 1
    else if key == "date_to" then 2
    else if key == "status" then 3
    else if key == "sort_by" then 4
    else if key == "sort_order" then 5
    else 6
  }

  /** The parameter list: the page, clamped to at least 1, then every
      non-empty filter and sort setting in a fixed order. */
  function PaginationParams(page: int, filters: map<string, Value>, sortBy: string, sortOrder: string): (ps: seq<Param>)
    ensures |ps| >= 1 && ps[0] == Param("page", IntToDecimal(if page < 1 then 1 else page))
  {
    var clamped := if page < 1 then 1 else page;
    [Param("page", IntToDecimal(clamped))]
      + Optional("date_from", FilterText(filters, "date_from"))
      + Optional("date_to", FilterText(filters, "date_to"))
      + Optional("status", FilterText(filters, "status"))
      + Optional("sort_by", sortBy)
      + Optional("sort_order", sortOrder)
  }

  /** Keys in strictly increasing rank, every value non-empty. */
  predicate Ordered(ps: seq<Param>) {
    (forall i | 0 <= i < |ps| :: ps[i].value != "")
    && forall i, j | 0 <= i < j < |ps| :: Rank(ps[i].key) < Rank(ps[j].key)
  }

  lemma AppendOptional(ps: seq<Param>, key: string, value: string)
    requires Ordered(ps) && forall i | 0 <= i < |ps| :: Rank(ps[i].key) < Rank(key)
    ensures Ordered(ps + Optional(key, value))
    ensures forall i | 0 <= i < |ps + Optional(key, value)| :: Rank((ps + Optional(key, value))[i].key) <= Rank(key)
    ensures Param(key, value) in ps + Optional(key, value) <==> value != ""
  {
    if value == "" {
      assert ps + Optional(key, value) == ps;
      assert Param(key, value) !in ps;
    }
  }

  /** The parameters come in the fixed order page, date_from, date_to, status,
      sort_by, sort_order, and none has an empty value. */
  lemma {:induction false} ParamsInOrder(page: int, filters: map<string, Value>, sortBy: string, sortOrder: string)
    ensures Ordered(PaginationParams(page, filters, sortBy, sortOrder))
  {
    var clamped := if page < 1 then 1 else page;
    var p0 := [Param("page", IntToDecimal(clamped))];
    var p1 := p0 + Optional("date_from", FilterText(filters, "date_from"));
    var p2 := p1 + Optional("date_to", FilterText(filters, "date_to"));
    var p3 := p2 + Optional("status", FilterText(filters, "status"));
    var p4 := p3 + Optional("sort_by", sortBy);
    assert p4 + Optional("sort_order", sortOrder) == PaginationParams(page, filters, sortBy, sortOrder);
    AppendOptional(p0, "date_from", FilterText(filters, "date_from"));
    AppendOptional(p1, "date_to", FilterText(filters, "date_to"));
    AppendOptional(p2, "status", FilterText(filters, "status"));
    AppendOptional(p3, "sort_by", sortBy);
    AppendOptional(p4, "sort_order", sortOrder);
  }

  /** Each filter and sort setting appears exactly when it is non-empty. */
  lemma ParamsPresent(page: int, filters: map<string, Value>, sortBy: string, sortOrder: string)
    ensures var ps := PaginationParams(page, filters, sortBy, sortOrder);
      && (Param("date_from", FilterText(filters, "date_from")) in ps <==> FilterText(filters, "date_from") != "")
      && (Param("date_to", FilterText(filters, "date_to")) in ps <==> FilterText(filters, "date_to") != "")
      && (Param("status", FilterText(filters, "status")) in ps <==> FilterText(filters, "status") != "")
      && (Param("sort_by", sortBy) in ps <==> sortBy != "")
      && (Param("sort_order", sortOrder) in ps <==> sortOrder != "")
  {
    ParamsInOrder(page, filters, sortBy, sortOrder);
  }

  function Rendered(ps: seq<Param>): (texts: seq<string>)
    ensures |texts| == |ps|
    ensures forall i | 0 <= i < |ps| :: texts[i] == ps[i].key + "=" + ps[i].value
  {
    seq(|ps|, i requires 0 <= i < |ps| => ps[i].key + "=" + ps[i].value)
  }

  const TicketsPath: string := "/staff/tickets?"

  function BuildPaginationURL(page: int, filters: map<string, Value>, sortBy: string, sortOrder: string): (url: string)
    ensures HasPrefix(url, TicketsPath) && |url| > |TicketsPath|
  {
    var query := Join(Rendered(PaginationParams(page, filters, sortBy, sortOrder)), "&");
    JoinStartsWithFirst(Rendered(PaginationParams(page, filters, sortBy, sortOrder)), "&");
    assert (TicketsPath + query)[..|TicketsPath|] == TicketsPath;
    TicketsPath + query
  }

  lemma {:induction false} JoinStartsWithFirst(parts: seq<string>, sep: string)
    requires |parts| >= 1
    ensures HasPrefix(Join(parts, sep), parts[0])
  {
    if |parts| > 1 {
      JoinStartsWithFirst(parts[..|parts| - 1], sep);
      var front := Join(parts[..|parts| - 1], sep);
      assert (front + sep + parts[|parts| - 1])[..|parts[0]|] == front[..|parts[0]|];
    }
  }

  lemma PrefixConcat(a: string, s: string, prefix: string)
    requires HasPrefix(s, prefix)
    ensures HasPrefix(a + s, a + prefix)
  {
    assert (a + s)[..|a + prefix|] == a + s[..|prefix|];
  }

  /** The link always starts with the clamped page. */
  lemma URLStartsWithPage(page: int, filters: map<string, Value>, sortBy: string, sortOrder: string)
    ensures HasPrefix(BuildPaginationURL(page, filters, sortBy, sortOrder),
                      TicketsPath + ("page=" + IntToDecimal(if page < 1 then 1 else page)))
  {
    var ps := PaginationParams(page, filters, sortBy, sortOrder);
    var texts := Rendered(ps);
    JoinStartsWithFirst(texts, "&");
    assert texts[0] == "page=" + IntToDecimal(if page < 1 then 1 else page);
    PrefixConcat(TicketsPath, Join(texts, "&"), texts[0]);
  }

  /** With no filter and no sort setting the link names only the page; a page below 1 is page 1. */
  lemma URLWithoutFilters(page: int)
    ensures BuildPaginationURL(page, map[], "", "") == TicketsPath + "page=" + IntToDecimal(if page < 1 then 1 else page)
    ensures page < 1 ==> BuildPaginationURL(page, map[], "", "") == BuildPaginationURL(1, map[], "", "")
  {
  }
}
