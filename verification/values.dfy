/**
 Loosely-typed values of the ClickHouse output sink.

 An incoming event maps field names to JSON-decoded values; `Value` is the
 closed tagged union of what such a field can hold. `Arg` is what the sink
 places in one positional argument of the insert statement: either an input
 value passed through unchanged, or a value the sink produced itself (a parsed
 integer, a default constant).
 */
module Values {

  /** A decoded event value. `Num` is a JSON number kept as its literal text
      (Go's `json.Number`); `Other` stands for every other dynamic kind, such as
      a number decoded as a float or a nested object, named by an opaque tag. */
  datatype Value =
    | Str(s: string)
    | Num(lit: string)
    | Bool(b: bool)
    | Null
    | Arr(items: seq<Value>)
    | Other(tag: string)

  /** One positional argument of the insert statement. */
  datatype Arg =
    | Passed(v: Value)                  // the event value, unchanged
    | IntArg(n: int)                    // an integer produced by the sink
    | FloatArg(width: nat, n: int)      // an integral float of the given bit width (0 or 1 here)
    | FloatText(width: nat, text: string) // the result of parsing `text` as a float (not modelled)
    | Text(s: string)                   // a string constant produced by the sink
    | Epoch                             // the Unix epoch instant
    | EmptyArray(elem: string)          // an empty array of the named element type

  /** An event: field name to value. */
  type Event = map<string, Value>

  datatype Option<+T> = None | Some(value: T)

  /** The outcome of a step that the source may end with a fatal log call,
      which terminates the process. */
  datatype Outcome<+T> = Ok(value: T) | Fatal

  /** The integer a Go `bool` becomes in an integer column. */
  function BoolInt(b: bool): (n: int)
    ensures 0 <= n <= 1
    ensures n == 1 <==> b
  {
    if b then 1 else 0
  }
}
