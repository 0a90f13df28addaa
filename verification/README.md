# ClickHouse output sink: a Dafny model of its deterministic core

This project models the deterministic logic of gohangout's ClickHouse output
(`output/clickhouse_output.go`), which writes a stream of events into a
ClickHouse table. It models:

- how an event value is coerced to the type of its column (`convertCkType`);
- how enum type names from `desc table` are normalised, and how each column's
  default value is chosen (`setTableDesc`, `setColumnDefault`);
- how the database name comes from the table identifier (`getDatabase`);
- how the field order and the `INSERT INTO … (…) VALUES (?,…)` statement are
  built, and how each event becomes a positional argument row (`innerFlush`);
- the event buffer: `Emit`, the periodic `flush`, a worker taking a batch
  from the channel, and the drain in `awaitclose`, as a sequential state machine.

All of this is written as pure functions over immutable datatypes. Three
methods carry loops: two iterate a Go map in unspecified order
(`SetColumnDefault`, `BuildInsert`), and `ScanDecimal` scans the digits of a
string left to right as `strconv` does.

Modules, leaf first:

| file | module | contents |
|---|---|---|
| values.dfy | `Values` | the tagged union `Value` of event values (string, JSON number literal, bool, null, array, other), the argument type `Arg`, `Option`, and `Outcome` (`Ok` or `Fatal`, where `Fatal` stands for a `glog.Fatal` call that ends the process) |
| strings.dfy | `Strings` | prefix test, character count, `strings.Split` with a one-character separator, `strings.Join` |
| decimal.dfy | `Decimal` | base-10 integer parsing with a bit-width range check (`strconv.ParseInt` / `ParseUint` with base 10), its inverse `FormatDecimal`, and a Go-style scanning parser proved equal to it |
| coercion.dfy | `Coercion` | `convertCkType` |
| schema.dfy | `Schema` | enum normalisation, default resolution, the default table, `getDatabase` |
| insert.dfy | `Insert` | field order, insert statement, argument rows |
| buffer.dfy | `Buffer` | the buffer state machine and its conservation invariant |

Nothing here is executed.

Four behaviours of the source that the model keeps as written:

- Int256 and UInt256 columns call `strconv.ParseInt` / `ParseUint` with bit
  size 256. Go's `strconv` rejects every bit size above 64. So a string or
  JSON number value in such a column always takes the fatal path; only the
  bool branch converts. `ConvertCkType` returns `Fatal` for these inputs.
- An integer column's default literal is parsed as a signed 64-bit integer
  whatever the column's width. "300" is accepted for a UInt8 column. A
  literal above 2^63-1 is fatal even for a UInt64 column.
- `Emit` sends the full batch to the channel after releasing the mutex.
  With several concurrent producers, two full batches can therefore enter
  the channel in either order. The model makes each call one atomic step,
  so it keeps the order in which batches were handed off.
- The drain writes the remaining buffer before the batches still queued in
  the channel, although those were submitted earlier. After shutdown,
  `ShutdownWritesAll` therefore promises that every event is written exactly
  once (multiset equality), not that batches keep submission order. Within
  each batch, order is kept.

## Model

| member | source | states |
|---|---|---|
| Strings.SplitOn | output/clickhouse_output.go:227 | `strings.Split` with a one-character separator gives one more piece than there are separators, no piece contains the separator, and joining the pieces with the separator rebuilds the input |
| Strings.SplitJoin | output/clickhouse_output.go:356 | splitting a comma-joined list at commas gives the list back, when no element contains a comma |
| Decimal.ParseDecimal | output/clickhouse_output.go:573-581 | a base-10 parse at a bit width yields only values inside that width's range, and the empty string never parses |
| Decimal.FormatParse | output/clickhouse_output.go:674-714 | every integer written in canonical decimal parses back to itself when it is in the family's range ([-2^(n-1), 2^(n-1)-1] signed, [0, 2^n-1] unsigned), and is rejected when it is outside |
| Decimal.UnsignedRejectsSign | output/clickhouse_output.go:590-602 | an unsigned parse rejects any leading `+` or `-` |
| Decimal.NonDigitRejected | output/clickhouse_output.go:674-686 | any character other than a digit after the optional sign makes the parse fail |
| Decimal.ScanDecimal | output/clickhouse_output.go:569-581 | Go's scanner strips the sign, accumulates digits from the left and stops at the first overflow of the width; it succeeds exactly when `ParseDecimal` does, with the same value |
| Coercion.ConvertCkType | output/clickhouse_output.go:567-825 | for the integer columns: a bool becomes 1 or 0, and a string or JSON number converts to its parsed value or is fatal when it does not parse in range; Int256/UInt256 text is always fatal; an unlisted type or a value that is not text or bool is returned unchanged; a returned conversion never carries an error |
| Coercion.CanonicalIntegerConverts | output/clickhouse_output.go:674-714 | for every integer column type and every integer n, the decimal text of n (as a string or as a JSON number) converts to n when n is in the column's range and is fatal otherwise |
| Coercion.IntegerTextNeverPassesThrough | output/clickhouse_output.go:819-824 | text in an integer column is never passed through unchanged: it is either fatal or an integer in the column's range |
| Coercion.Int8Examples | output/clickhouse_output.go:674-693 | "999" (out of range) and "abc" (not a number) are fatal for Int8 |
| Coercion.UInt8Examples | output/clickhouse_output.go:695-714 | "-1" (signed) and "256" (out of range) are fatal for UInt8 |
| Coercion.Int16Example | output/clickhouse_output.go:611-623 | the JSON number 123 converts to 123 in an Int16 column |
| Schema.EnumPrefixesDisjoint | output/clickhouse_output.go:105-109 | no type name starts with both "Enum8" and "Enum16", so the order of the two tests does not matter |
| Schema.NormalizeType | output/clickhouse_output.go:103-110 | a type starting with "Enum16" becomes "Enum16", one starting with "Enum8" becomes "Enum8", and every other type is unchanged |
| Schema.NormalizeIdempotent | output/clickhouse_output.go:103-110 | normalising a type a second time changes nothing |
| Schema.NormalizeRow | output/clickhouse_output.go:101-112 | a described row keeps its length and its column names; only the cell of the `type` column is normalised, and every other cell is unchanged |
| Schema.NormalizeRowIdempotent | output/clickhouse_output.go:101-112 | normalising a described row twice gives the same row as normalising it once |
| Schema.ResolveDefault | output/clickhouse_output.go:143-222 | any default kind other than DEFAULT or none is fatal whatever the type; String and LowCardinality(String) take the literal verbatim, or "" when there is none; integer types take 0, or the literal parsed as signed 64-bit, and a literal that fails that parse is fatal (and nothing else is); Date, DateTime and DateTime64 take the epoch, IPv4 "0.0.0.0", IPv6 "::", Array(T) an empty array of its element type, and Enum8/Enum16 ""; a float type takes float32 0 without a literal and the literal as float64 text with one; unlisted types get no entry; every listed type gets one |
| Schema.FixedDefaultIgnoresLiteral | output/clickhouse_output.go:163-218 | Date, DateTime, IPv4, IPv6, Array and Enum columns get the same default whether or not a literal is declared, and whatever the literal says |
| Schema.NormalizedEnumDefault | output/clickhouse_output.go:213-218 | a verbose Enum8 or Enum16 type, once normalised, defaults to the empty string |
| Schema.IntFamiliesAgree | output/clickhouse_output.go:165 | the integer types of the default table are exactly the integer types the coercion parses at their own width |
| Schema.SetColumnDefault | output/clickhouse_output.go:142-223 | visiting the columns in any order, start-up is fatal exactly when some column's default is fatal; otherwise the table has an entry for exactly the columns whose type has a default, holding that default |
| Schema.ComputedColumnIsFatal | output/clickhouse_output.go:146-153 | a single MATERIALIZED, ALIAS or other unsupported default kind makes the whole default table fatal |
| Schema.DefaultTableLocal | output/clickhouse_output.go:142-222 | changing one column's description leaves every other column's entry in the default table unchanged |
| Schema.GetDatabase | output/clickhouse_output.go:226-233 | a table identifier with exactly one dot gives the part before the dot; any other identifier gives "default" |
| Insert.BuildInsert | output/clickhouse_output.go:343-356 | the field order lists every schema column exactly once, so it has as many entries as the schema; the query is built from that order |
| Insert.ColumnListRoundTrip | output/clickhouse_output.go:347-356 | the query's column list, split at commas, gives each field's name in double quotes, in field order, when no name contains a comma |
| Insert.PlaceholderCount | output/clickhouse_output.go:352-356 | the placeholder list holds exactly one `?` per field, separated by one fewer commas |
| Insert.PlaceholderSplit | output/clickhouse_output.go:352-356 | the placeholder list, split at commas, is one "?" per field |
| Insert.BuildRow | output/clickhouse_output.go:436-458 | a row has one argument per field; a present, non-null field holds its converted value, and the conversion reports no error, so the raw-value fallback is never taken; an absent or null field holds the column's default, or "" without one; the row is fatal exactly when some present field's conversion is |
| Insert.RowIgnoresExtraKeys | output/clickhouse_output.go:437-438 | event keys outside the field order have no effect on the row |
| Insert.MissingFieldGetsDefault | output/clickhouse_output.go:451-457 | with the start-up default table, an absent field gets its column's declared default when the type has one, and "" otherwise |
| Insert.BatchRows | output/clickhouse_output.go:432-458 | a batch yields one row per event, in batch order, each as long as the field order; on the path where `Prepare` and every `Exec` succeed, the batch is fatal exactly when one of its rows is |
| Buffer.Emit | output/clickhouse_output.go:486-499 | emitting appends the event to what the sink holds; once the buffer reaches `bulk_actions`, the whole buffer is handed off as one batch and the buffer is emptied; with `bulk_actions` ≥ 1 the buffer stays below it, and a handed-off batch holds exactly `bulk_actions` events; with `bulk_actions` = 0 every event is handed off at once |
| Buffer.Flush | output/clickhouse_output.go:475-483 | the periodic flush changes nothing when the buffer is empty; otherwise it hands off the whole buffer as one batch; no event is lost or reordered |
| Buffer.Take | output/clickhouse_output.go:371-373 | a worker takes the oldest queued batch and writes it, without changing what the sink holds |
| Buffer.Drain | output/clickhouse_output.go:523-553 | the drain writes a non-empty buffer as one batch, then every queued batch in channel order; buffer and queue end up empty, and every event held is written exactly once |
| Buffer.RunInvariant | output/clickhouse_output.go:475-499 | after any sequence of emits, ticks and worker steps: written batches, then queued batches, then the buffer, laid end to end, equal the submitted events in order; no queued or written batch is empty; the buffer stays below `bulk_actions` (and is empty when `bulk_actions` = 0) |
| Buffer.EmitBatchSize | output/clickhouse_output.go:488-498 | a batch that `Emit` hands off during any run holds exactly `bulk_actions` events, or one event when `bulk_actions` = 0 |
| Buffer.ShutdownWritesAll | output/clickhouse_output.go:523-553 | shutdown after any run leaves buffer and queue empty and writes every submitted event exactly once |
| Buffer.CapacityScenario | output/clickhouse_output.go:475-499 | with capacity 2, two events make one batch of two; a third event waits in the buffer and the next tick hands it off alone |
| Buffer.ShutdownScenario | output/clickhouse_output.go:523-538 | with capacity 100 and five events buffered, the drain writes all five as a single batch |

## Left out

- Connection handling is left out: opening, ping, DSN formatting, config-map type assertions, and the connection lifetime (lines 239-337 and 359-393). These are configuration and I/O.
- The `desc table` query, row scanning and the JSON round trip into `rowDesc` (lines 60-132) are left out; only the enum normalisation is modelled. These are database I/O.
- Transactions in `innerFlush` are left out: Begin/Prepare/Exec/Commit, rollback, and moving on to the next host (lines 403-473). These are driver calls.
- The host selector (`NewRRHostSelector`) is not part of this model. Its implementation is not in the modelled file.
- Concurrency and timing are left out: goroutines, channel blocking and backpressure, the `WaitGroup`, `closeChan`, the ticker and the 30-second timeout (lines 367-380, 394-398, 501-520, 557-562). The channel is a plain FIFO queue, and each call is one atomic step.
- The `execution_id` counter and all logging are left out. They carry no semantics.
- Insert.BatchRows: models only the path on which `Prepare` and every `Exec` succeed. A `Prepare` error returns before any row is built (lines 425-429). An `Exec` error on one event returns before later events are converted (lines 459-461), so a fatal conversion in a later event is never reached and the batch is dropped instead.
- Coercion.ConvertCkType: for Float32, Float64, Decimal32 and Decimal64 columns, a string or JSON number becomes the opaque `FloatText(width, text)`. It is never `Fatal`, although the source is fatal when `strconv.ParseFloat` fails. The model does no floating-point parsing. Their bool branches are modelled (float 1 or 0).
- Buffer.Emit: `bulk_actions` is a natural number here. A negative setting is read from the configuration unchecked (line 383), and the source then panics in `make(…, 0, c.bulk_actions)` at the first hand-off (line 495, likewise 479 and 529); the model does not represent that panic.
- Decimal.ParseDecimal: bit widths are 2 to 64. At width 1, Go's `ParseInt("-2", 10, 1)` returns -1 without error because the saturated unsigned value passes the negative check; the sink never parses at width 1.
- Schema.ResolveDefault: a Float32/Float64 default literal becomes the opaque `FloatText(64, literal)` and is never fatal, although the source is fatal when `strconv.ParseFloat` fails. This is floating point.
- Decimal.ParseDecimal: syntax and range failures are one `None` outcome. The sink treats both the same way, as fatal.
- Error values and log messages are left out. They only feed `glog`.
