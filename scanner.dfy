/** The null-value helpers of the row scanner: conversions between nullable
    column values and optional (`*T`) values. */
module Scanner {
  import opened Wrappers
  import opened Sql

  /** `PtrToInt`: nil exactly when the column was NULL. */
  function PtrToInt(n: NullInt64): (r: Option<int>)
    ensures r.None? <==> !n.valid
    ensures r.Some? ==> r.value == n.int64
  {
    if n.valid then Some(n.int64) else None
  }

  /** `PtrToString`: nil exactly when the column was NULL. */
  function PtrToString(n: NullString): (r: Option<string>)
    ensures r.None? <==> !n.valid
    ensures r.Some? ==> r.value == n.str
  {
    if n.valid then Some(n.str) else None
  }

  /** `PtrToBool`: nil exactly when the column was NULL. */
  function PtrToBool(n: NullBool): (r: Option<bool>)
    ensures r.None? <==> !n.valid
    ensures r.Some? ==> r.value == n.boolean
  {
    if n.valid then Some(n.boolean) else None
  }

  /** `NullString`: the empty string is stored as NULL. */
  function ToNullString(s: string): (r: NullString)
    ensures r.valid <==> s != ""
    ensures r.str == s
  {
    NullString(s, s != "")
  }

  /** `NullInt64`: a nil `*T` is stored as NULL. */
  function ToNullInt64(p: Option<int>): (r: NullInt64)
    ensures r.valid <==> p.Some?
    ensures p.Some? ==> r.int64 == p.value
    ensures p.None? ==> r.int64 == 0
  {
    match p
    case Some(i) => NullInt64(i, true)
    case None => NullInt64(0, false)
  }

  /** Storing an optional integer and reading it back gives it unchanged. */
  lemma IntRoundTrip(p: Option<int>)
    ensures PtrToInt(ToNullInt64(p)) == p
  {
  }

  /** Reading back a stored string gives nil exactly for the empty string. */
  lemma StringRoundTrip(s: string)
    ensures PtrToString(ToNullString(s)) == if s == "" then None else Some(s)
  {
  }
}
