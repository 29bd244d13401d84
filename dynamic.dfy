/** Dynamically typed values (Go's `interface{}` / JSON values) as they reach
    filter maps, template helpers and request decoders. Floating-point numbers
    are not modelled. */
module Dynamic {

  datatype Value =
    | VInt(i: int)
    | VString(s: string)
    | VBool(b: bool)
    | VNull
}
