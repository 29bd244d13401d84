/** The nullable column values of Go's `database/sql` package. A value read
    from a NULL column has `valid == false` and the zero value in the other field. */
module Sql {

  datatype NullString = NullString(str: string, valid: bool)

  datatype NullInt64 = NullInt64(int64: int, valid: bool)

  datatype NullBool = NullBool(boolean: bool, valid: bool)
}
