/** The staff ticket page's script: the duration text of the detail view, the
    status badge, and the column-sort control of the ticket list. */
module TicketJs {
  import opened Wrappers
  import opened Text
  import opened Entities

  // ---------------------------------------------------------------------------
  // formatDuration.

  /** `Math.floor(seconds / 3600)`. */
  function Hours(seconds: int): int { seconds / 3600 }

  /** `Math.floor((seconds % 3600) / 60)`, with JavaScript's `%`, which keeps the dividend's sign. */
  function Minutes(seconds: int): int { GoRem(seconds, 3600) / 60 }

  /** `seconds % 60`. */
  function Secs(seconds: int): int { GoRem(seconds, 60) }

  /** The words formatDuration pushes: the hours and the minutes when they
      are not zero, and the seconds only when they are not zero and there is
      no hour. A number prints as its decimal text. */
  function DurationWords(seconds: int): (w: seq<string>)
    ensures |w| <= 3
    ensures Hours(seconds) > 0 ==> 1 <= |w| <= 2 && w[0] == IntToDecimal(Hours(seconds)) + " jam"
    ensures Hours(seconds) == 0 && Minutes(seconds) > 0 ==> |w| >= 1 && w[0] == IntToDecimal(Minutes(seconds)) + " menit"
  {
    var h := Hours(seconds);
    var m := Minutes(seconds);
    var s := Secs(seconds);
    (if h > 0 then [IntToDecimal(h) + " jam"] else [])
    + (if m > 0 then [IntToDecimal(m) + " menit"] else [])
    + (if s > 0 && h == 0 then [IntToDecimal(s) + " detik"] else [])
  }

  const ZeroDuration: string := "0 detik"

  /** formatDuration of a duration in seconds, None when the value is missing. */
  method FormatDuration(seconds: Option<int>) returns (text: string)
    ensures seconds.None? || seconds == Some(0) ==> text == ZeroDuration
    ensures seconds.Some? && seconds.value != 0 ==>
      text == (if DurationWords(seconds.value) == [] then ZeroDuration else Join(DurationWords(seconds.value), " "))
    ensures text != ""
  {
    if seconds.None? || seconds.value == 0 {
      return ZeroDuration;
    }
    var total := seconds.value;
    var hours := total / 3600;
    var minutes := GoRem(total, 3600) / 60;
    var secs := GoRem(total, 60);
    var result: seq<string> := [];
    if hours > 0 {
      result := result + [IntToDecimal(hours) + " jam"];
    }
    if minutes > 0 {
      result := result + [IntToDecimal(minutes) + " menit"];
    }
    if secs > 0 && hours == 0 {
      result := result + [IntToDecimal(secs) + " detik"];
    }
    assert result == DurationWords(total);
    text := Join(result, " ");
    if text == "" {
      text := ZeroDuration;
    }
  }

  /** The three parts recompose the duration, and the minutes and seconds stay below 60. */
  lemma Decomposition(seconds: nat)
    ensures Hours(seconds) * 3600 + Minutes(seconds) * 60 + Secs(seconds) == seconds
    ensures 0 <= Minutes(seconds) < 60 && 0 <= Secs(seconds) < 60 && Hours(seconds) >= 0
  {
    var r := seconds % 3600;
    assert GoRem(seconds, 3600) == r;
    assert GoRem(seconds, 60) == seconds % 60;
    assert seconds == Hours(seconds) * 3600 + r;
    assert r == (r / 60) * 60 + r % 60;
    assert seconds % 60 == r % 60;
  }

  /** Every positive duration has at least one word, and a negative one has none. */
  lemma WordsPresentIffPositive(seconds: int)
    ensures DurationWords(seconds) != [] <==> seconds > 0
  {
    if seconds > 0 {
      Decomposition(seconds);
    } else {
      assert GoQuo(seconds, 3600) == -((-seconds) / 3600);
      assert GoQuo(seconds, 60) == -((-seconds) / 60);
    }
  }

  /** From one hour on the seconds are not shown: durations that differ only in their seconds print the same. */
  lemma {:induction false} HoursHideSeconds(seconds: nat)
    requires seconds >= 3600
    ensures DurationWords(seconds) == DurationWords(seconds - Secs(seconds))
  {
    Decomposition(seconds);
    var t := seconds - Secs(seconds);
    Decomposition(t);
    assert Hours(t) == Hours(seconds) && Minutes(t) == Minutes(seconds);
  }

  /** A number followed by a unit word gives the number back. */
  lemma {:induction false} UnitWordInjective(x: int, y: int, unit: string)
    requires x >= 0 && y >= 0
    requires IntToDecimal(x) + unit == IntToDecimal(y) + unit
    ensures x == y
  {
    var a := NatToDecimal(x);
    var b := NatToDecimal(y);
    assert |a| == |b|;
    assert a == (a + unit)[..|a|];
    assert b == (b + unit)[..|b|];
    DecimalRoundTrip(x);
    DecimalRoundTrip(y);
  }

  /** Minutes and seconds words never look alike: they end in different letters. */
  lemma UnitsDiffer(x: int, y: int)
    ensures IntToDecimal(x) + " menit" != IntToDecimal(y) + " detik"
  {
    var a := IntToDecimal(x) + " menit";
    var b := IntToDecimal(y) + " detik";
    assert a[|a| - 1] == 't' && b[|b| - 1] == 'k';
  }

  /** The minutes and seconds words of a duration under an hour. */
  function MinuteWords(m: int): seq<string> { if m > 0 then [IntToDecimal(m) + " menit"] else [] }
  function SecondWords(s: int): seq<string> { if s > 0 then [IntToDecimal(s) + " detik"] else [] }

  /** The minutes and seconds words give back the minutes and the seconds. */
  lemma {:induction false} ShortWordsInjective(m1: int, s1: int, m2: int, s2: int)
    requires m1 >= 0 && s1 >= 0 && m2 >= 0 && s2 >= 0
    requires MinuteWords(m1) + SecondWords(s1) == MinuteWords(m2) + SecondWords(s2)
    ensures m1 == m2 && s1 == s2
  {
    var w := MinuteWords(m1) + SecondWords(s1);
    assert |w| == |MinuteWords(m1)| + |SecondWords(s1)| == |MinuteWords(m2)| + |SecondWords(s2)|;
    assert m1 > 0 ==> w[0] == IntToDecimal(m1) + " menit";
    assert m2 > 0 ==> w[0] == IntToDecimal(m2) + " menit";
    assert m1 == 0 && s1 > 0 ==> w[0] == IntToDecimal(s1) + " detik";
    assert m2 == 0 && s2 > 0 ==> w[0] == IntToDecimal(s2) + " detik";
    assert s1 > 0 ==> w[|w| - 1] == IntToDecimal(s1) + " detik";
    assert s2 > 0 ==> w[|w| - 1] == IntToDecimal(s2) + " detik";
    UnitsDiffer(m1, s2);
    UnitsDiffer(m2, s1);
    if m1 > 0 && m2 > 0 {
      UnitWordInjective(m1, m2, " menit");
    }
    if s1 > 0 && s2 > 0 {
      UnitWordInjective(s1, s2, " detik");
    }
  }

  /** Below an hour the text determines the duration: two different
      durations under an hour never print the same. */
  lemma {:induction false} BelowHourReadsBack(a: nat, b: nat)
    requires a < 3600 && b < 3600
    requires DurationWords(a) == DurationWords(b)
    ensures a == b
  {
    Decomposition(a);
    Decomposition(b);
    assert DurationWords(a) == MinuteWords(Minutes(a)) + SecondWords(Secs(a));
    assert DurationWords(b) == MinuteWords(Minutes(b)) + SecondWords(Secs(b));
    ShortWordsInjective(Minutes(a), Secs(a), Minutes(b), Secs(b));
  }

  // ---------------------------------------------------------------------------
  // The status badge.

  /** The label and colour classes the detail view shows for a ticket's
      status text; any other text is shown as it is, without colour. */
  function StatusBadge(status: string): (badge: (string, string))
    ensures badge.1 != "" <==> ParseTicketStatus(status).Some?
    ensures badge.1 == "" ==> badge.0 == status
  {
    if status == "waiting" then ("Menunggu", "bg-yellow-100 text-yellow-800")
    else if status == "serving" then ("Melayani", "bg-blue-100 text-blue-800")
    else if status == "completed" then ("Selesai", "bg-green-100 text-green-800")
    else if status == "no_show" then ("Tidak Hadir", "bg-orange-100 text-orange-800")
    else if status == "cancelled" then ("Dibatalkan", "bg-red-100 text-red-800")
    else (status, "")
  }

  /** Each of the five statuses has its fixed Indonesian label. */
  lemma StatusLabels()
    ensures StatusBadge(TicketStatusName(Waiting)).0 == "Menunggu"
    ensures StatusBadge(TicketStatusName(Serving)).0 == "Melayani"
    ensures StatusBadge(TicketStatusName(Completed)).0 == "Selesai"
    ensures StatusBadge(TicketStatusName(NoShow)).0 == "Tidak Hadir"
    ensures StatusBadge(TicketStatusName(Cancelled)).0 == "Dibatalkan"
  {
  }

  /** Different statuses get different labels and a colour, and a text that
      is no status is shown unchanged and uncoloured. */
  lemma StatusBadgesDistinct(a: TicketStatus, b: TicketStatus, other: string)
    requires ParseTicketStatus(other).None?
    ensures StatusBadge(TicketStatusName(a)).0 == StatusBadge(TicketStatusName(b)).0 ==> a == b
    ensures StatusBadge(TicketStatusName(a)).1 != ""
    ensures StatusBadge(other) == (other, "")
  {
  }

  // ---------------------------------------------------------------------------
  // The sort control.

  /** The (column, order) pair a click on `column` leaves: the same column
      flips the order (anything but "asc" becomes "asc"), a new column starts descending. */
  function NextSort(sortBy: string, sortOrder: string, column: string): (r: (string, string))
    ensures r.0 == column
    ensures r.1 == "asc" || r.1 == "desc"
    ensures sortBy != column ==> r.1 == "desc"
    ensures sortBy == column && (sortOrder == "asc" || sortOrder == "desc") ==> r.1 != sortOrder
  {
    if sortBy == column then (sortBy, if sortOrder == "asc" then "desc" else "asc")
    else (column, "desc")
  }

  /** The hidden sort inputs of the ticket filter form. */
  class SortInputs {
    var sortBy: string
    var sortOrder: string

    constructor (sortBy: string, sortOrder: string)
      ensures this.sortBy == sortBy && this.sortOrder == sortOrder
    {
      this.sortBy := sortBy;
      this.sortOrder := sortOrder;
    }

    /** sortBy(column): update the inputs (the form is then submitted). */
    method SortBy(column: string)
      modifies this
      ensures (sortBy, sortOrder) == NextSort(old(sortBy), old(sortOrder), column)
    {
      if sortBy == column {
        sortOrder := if sortOrder == "asc" then "desc" else "asc";
      } else {
        sortBy := column;
        sortOrder := "desc";
      }
    }
  }

  /** Clicking a column always sorts by it; a new column sorts descending,
      and two clicks on the same column restore an "asc" or "desc" order. */
  lemma SortClicks(sortBy: string, sortOrder: string, column: string)
    ensures NextSort(sortBy, sortOrder, column).0 == column
    ensures sortBy != column ==> NextSort(sortBy, sortOrder, column).1 == "desc"
    ensures sortOrder == "asc" || sortOrder == "desc" ==>
      var (col, order) := NextSort(sortBy, sortOrder, column);
      NextSort(col, order, column) == (column, if sortBy == column then sortOrder else "asc")
    ensures NextSort(sortBy, sortOrder, column).1 != sortOrder || sortBy != column
  {
  }
}
