# Verified models of nexgo's stateful core

`nexgo` wraps ClickHouse, Kafka, PostgreSQL and a few smaller services for Go
programs. Six of its files do more than wrap: they batch and flush rows with
retries and a schema cache, coerce values to the types a driver demands, run a
dead-letter queue with a draining shutdown, print a connection string, commit
consumed offsets, and keep a synced value. This project models those files and
proves what they promise, for every input, every run and every interleaving of
the steps they take.

| files | what they model |
|---|---|
| `Flush.dfy`, `FlushProperties.dfy` | one flush of the batch writer: retries, schema refresh, sends, hook and callback |
| `CallLog.dfy`, `FlushOutcomes.dfy` | every call of a flush with the server's answer; what a flush tells of itself |
| `WriterLoop.dfy`, `WriterRuns.dfy` | the writer's event loop and its runs |
| `WriterShutdown.dfy`, `WriterFreshness.dfy` | what a Close can lose, how long a row can wait |
| `BatchWriter.dfy` | the writer object, whose methods do what those files say |
| `SchemaCache.dfy` | the schema cache under concurrent refreshes |
| `Columns.dfy`, `ColumnProperties.dfy`, `TypeModifiers.dfy` | parsed columns, modifier stripping, what reaches a column |
| `GoValues.dfy`, `Converter.dfy` | Go values and reflect types, the converters |
| `ConverterProperties.dfy`, `ConverterIdentity.dfy`, `ConverterInputs.dfy` | soundness, exact identity, idempotence, decimal round trip, inputs of other types |
| `Recorder.dfy`, `RecorderRuns.dfy`, `KafkaRecorder.dfy` | the dead-letter recorder as an interleaved protocol, and its object |
| `PostgresDsn.dfy` | the DSN printer against the documented grammar's reader |
| `Consumer.dfy` | the Kafka consume loop |
| `SyncableCache.dfy` | the synced cache |
| `InsertErrors.dfy`, `Backoff.dfy`, `Strconv.dfy`, `Common.dfy` | error classes, 64-bit back-off, decimal integers, options |

`dafny verify dfyconfig.toml` checks everything.

How the outside world enters: servers, brokers, handlers and sync functions are
functions from the number of the call to its answer, and every theorem holds for
all such functions. The scheduler, the order of map iteration, the choice among
ready `select` branches, the moment a queue looks empty and the clock are
parameters of the step that depends on them. What the converters take from Go's
libraries and is not modelled (floating point, times, decimals, addresses, JSON,
upper-casing, the driver's type resolution) is a record of functions, `GoLib` and
`ColumnLib`. Objects that the source updates in place are classes; each method is
tied to a function or an action of the protocol, and the theorems are about those.

## Results that differ from the documentation

- Closing the writer does not always flush. `Close` makes both the done signal and
  the closed ingress channel visible; a loop that sees the channel first leaves
  with its buffer unflushed, and a drain stops at the first momentarily empty read
  (`ch/README.md` and `docs/architecture/ch.md` promise a flush of all remaining
  data). A `Close` is sure to lose nothing exactly when nothing is buffered and
  nothing but nil rows is queued at that moment (`NothingLostExactlyWhen`,
  `CloseIsSafeExactlyWhen`); `ABufferCanBeAbandoned` and `ADrainCanStopEarly` are
  two runs that lose a row.
- The age of buffered rows is bounded exactly when `MaxWaitTime` is set or
  `MinFlushSize` is at most 1 (`BoundedExactlyWhen`).
- Container conversion changes some values that already have the target type: a
  nil pointer, slice or map; an unsigned number above 2^63-1; a scalar behind two
  pointers; an address (`net.IP`) or an opaque struct such as `big.Int` behind one
  pointer, which becomes zero. `ConvertElemIdentity` gives the exact set, and
  `ConvertTwice` the exact target types for which converting twice is converting
  once. A nil element of a Nullable container column becomes a pointer to zero,
  not NULL (`NilElementIsNotNull`).
- `pgEscape` quotes for a space, a quote or a backslash only, while the comment on
  `DSN` says whitespace; a value whose only blank is a tab or newline is lost.
  `PgEscapeExact` and `DsnRoundTrip` give the exact condition.
- A consumer with `MaxRetries` below 1, which validation allows, commits messages
  it never hands to the handler (`HandledExactlyWhen`); and there is no back-off
  between its retries, although `docs/architecture/kafka.md` mentions one.
- The recorder can leave payloads in its channel after `Close` returns: whatever
  happens, it leaves none exactly when no `Record` call is between its two selects
  at the moment done closes (`NothingStrandedExactlyWhen`). A `Close` that loses
  the swap can return before the drain ends (`ALosingCloseCanReturnEarly`).
- Overlapping refreshes of a table can leave an older schema in the cache. The
  cache ends with the latest one as long as no answer for the table arrives while
  a refresh of it is under way, and the first such answer can undo it
  (`CacheIsLatest`, `LatestExactlyWhen`).
- A DESCRIBE whose rows are cut off by an error counts as a success: the columns
  that arrived are cached until the next refresh (`ACutOffSchemaStays`,
  `WholeExactlyWhen`).
- An absent value in a Map or Array column with a default is written as text or as
  a time, not as a value of the driver's type (`ContainerColumnTyped`,
  `ContainerDefaultIsText`).
- The synced cache's `Stop` works once and reaches the latest `Start` only:
  periodic syncs keep running exactly when one was started by a `Start` that was
  not the last before the first `Stop` (`StoppedExactlyWhen`).
- The doubling back-off overflows 64-bit nanoseconds from exponent 34 on
  (`BackoffExact`), where the wait becomes shorter, never longer.

## Model

| member | source | states |
|---|---|---|
| `WriterRuns.RowsAreConserved` | ch/writer.go:147-218 | In every reachable state of the loop, whatever schema refreshes come between its events, for every table: rows flushed, then rows buffered, then rows still queued are exactly the accepted non-nil rows in arrival order; fewer than FlushSize rows wait while the loop runs |
| `WriterRuns.TotalRowsCountsBuffer` | ch/writer.go:172-177 | totalRows is the sum of the buffer's lengths, and the success and failed counts of a flush of it add up to it |
| `WriterRuns.TraceIsTheLog` | ch/writer.go:390-449 | In every run the trace is the log of all calls the writer made, numbered without a gap, each with the answer the server gave: DESCRIBE replies, every append, and a send acknowledged exactly when the server did |
| `WriterShutdown.DoneExitFlushesEverythingTaken` | ch/writer.go:202-216 | On the done exit every row ever taken, drained ones included, is in exactly one flushed batch, and with a callback every one was acknowledged or handed over exactly once, in order |
| `WriterShutdown.NothingLostExactlyWhen` | ch/writer.go:128-267 | From any reachable running state with both channels closed: every way the loop can leave has every accepted row in a flushed batch iff nothing is buffered and only nil rows are queued |
| `WriterShutdown.CloseIsSafeExactlyWhen` | ch/writer.go:128-145 | The same condition, asked of the state just before a Close |
| `WriterShutdown.ClosedChannelLosesTheBuffer` | ch/writer.go:139-161 | From any running state with buffered rows and an empty queue a Close can end with exactly the buffered rows lost |
| `WriterShutdown.ABufferCanBeAbandoned` | ch/writer.go:139-161 | A new writer can receive one row, be closed and leave with it buffered and in no batch |
| `WriterShutdown.ADrainCanStopEarly` | ch/writer.go:202-264 | A new writer can accept one row, be closed and leave by the done exit with it still queued and in no batch |
| `WriterShutdown.ReceivesAreBounded` | ch/writer.go:153-161 | Once both channels are closed the loop receives at most what is queued, however long the run |
| `WriterShutdown.LoopCanAlwaysLeave` | ch/writer.go:202-264 | Once done is closed the loop can leave at every moment, with whatever part of the queue its drain finds |
| `WriterFreshness.NoRowWaitsTooLong` | ch/writer.go:167-245 | With MaxWaitTime set or MinFlushSize at most 1, and ticks handled at most d apart, no buffered row is ever older than MaxWaitTime + d, or d when one row is enough to flush |
| `WriterFreshness.TickLeavesAFreshBuffer` | ch/writer.go:221-245 | Right after any tick a non-empty buffer is short of MinFlushSize and younger than MaxWaitTime |
| `WriterFreshness.TickFlushesExactlyWhen` | ch/writer.go:181-245 | In every reachable state a tick flushes a non-empty buffer iff MinFlushSize is 0 or reached or the oldest row has waited MaxWaitTime, and changes nothing otherwise |
| `WriterFreshness.RowFlushesExactlyWhen` | ch/writer.go:153-179 | In every reachable state a received row flushes iff it is non-nil and the FlushSize-th |
| `WriterFreshness.NoMaximumWaitNoBound` | ch/writer.go:221-245 | Otherwise some paced run of a new writer keeps a row buffered for any given time |
| `WriterFreshness.BoundedExactlyWhen` | ch/writer.go:221-245 | For ticks at most d apart the age of buffered rows has a bound iff MaxWaitTime is set or MinFlushSize is at most 1 |
| `WriterLoop.DrainBalances` | ch/writer.go:248-267 | Draining any number of queued rows keeps every table's books balanced: flushed plus buffered equals taken |
| `WriterLoop.FlushBalances` | ch/writer.go:270-332 | A flush of the loop's buffer moves every table's buffered rows to the flushed ones, and settles them when a callback is set |
| `FlushProperties.FlushTableShape` | ch/writer.go:277-325 | Whatever other goroutines do to the schema cache meanwhile, a table's flush ends with its first decisive result or the (MaxRetries+1)-th; at most two sends an attempt, each the whole batch with one value per column; exactly one acknowledged send iff it succeeds; waits below 2^MaxRetries seconds; hook once; callback once iff it failed; its effects are the log of its calls with the server's answers |
| `FlushProperties.AttemptsShape` | ch/writer.go:284-303 | From any attempt on, the remaining retries refine "take the first decisive result" and their waits are bounded by the powers of two left |
| `FlushProperties.FlushTableSettles` | ch/writer.go:310-324 | A table's batch settles exactly once, as one acknowledged send or one hand-over, unless it failed and no callback is set |
| `FlushProperties.FlushTablesSplits` | ch/writer.go:277-277 | For any iteration order of the buffer, what a flush does for one table is exactly that table's own flush |
| `FlushProperties.FlushCounts` | ch/writer.go:271-278 | success + failed = total = rows of the flush |
| `CallLog.FlushLogged` | ch/writer.go:270-332 | A flush of any tables leaves the log of all its calls, in order and without a gap, each with the server's answer |
| `FlushOutcomes.FlushCountsWhatHappened` | ch/writer.go:271-331 | Success counts exactly the rows of acknowledged sends, failed exactly the rows handed to the callback when there is one |
| `FlushOutcomes.OutcomeIsTold` | ch/writer.go:305-324 | The hook hears the row count and final error of every table; after it the callback gets the whole batch and the final error of a failed one |
| `FlushOutcomes.RefreshesExactlyWhen` | ch/writer.go:390-408 | A batch insert refreshes and inserts again iff its first insert failed on the schema; when the refresh gets no answer the first error stands |
| `FlushOutcomes.CachedIsNotAsked` | ch/writer.go:547-577 | An insert asks for the schema iff it is not cached |
| `FlushOutcomes.FlushErrorIsTheServers` | ch/writer.go:411-447 | A failed table's final error is an error the server gave to one of its calls, wrapped for the table |
| `FlushOutcomes.FlushWaits` | ch/writer.go:284-303 | A table's flush waits between two attempts and nowhere else: its waits are the back-offs of the retried attempts |
| `FlushOutcomes.WaitsInSeconds` | ch/writer.go:294-302 | Up to 34 retries the waits of n of them are 2^n - 1 seconds |
| `FlushOutcomes.SentValue` | ch/writer.go:425-441 | In every batch sent the value at row i and column j is what row i gives for column j |
| `FlushOutcomes.RefreshCounts` | ch/writer.go:629-662 | The periodic refresh's success count is the number of answered DESCRIBEs |
| `InsertErrors.RetriedByCode` | ch/writer.go:463-488 | With a server exception in the chain an error is retried iff the outermost one's code is one of seven |
| `InsertErrors.RetriedByCause` | ch/writer.go:489-503 | Without one it is retried iff a network error, an end of file or an exceeded deadline is in the chain |
| `InsertErrors.RefreshedByOp` | ch/writer.go:456-461 | A schema is refreshed iff the outermost block error is one of appending |
| `FlushProperties.BatchInsertShape` | ch/writer.go:390-408 | A batch insert sends at most twice, the whole batch, with one acknowledged send iff it succeeds, whatever other goroutines do to the schema cache meanwhile; its effects are the log of its calls with the server's answers |
| `FlushProperties.SecondInsertUsesRefreshedSchema` | ch/writer.go:395-405 | When no other goroutine touches the cache: after a schema mismatch the second insert is built with the schema its own refresh fetched, which is then cached |
| `FlushProperties.BatchInsertCache` | ch/writer.go:390-449 | When no other goroutine touches the cache: an insert changes the cached schema of its own table only, forgets none, and caches only parses of answers it received |
| `FlushProperties.DoInsertShape` | ch/writer.go:411-449 | One insert sends at most once; the send carries one vector per row, one value per column of the cached schema, and was acknowledged iff the insert succeeds; every call is logged with the server's answer, a send as acknowledged iff the server acknowledged it |
| `FlushProperties.InsertErrorWrapsTheServers` | ch/writer.go:414-446 | A failed insert's error wraps an error the server gave to one of its calls and is classified as that error is |
| `FlushProperties.RefreshAllShape` | ch/writer.go:629-662 | The periodic refresh asks once about each table, replaces a schema exactly when its DESCRIBE succeeds and leaves other tables alone |
| `SchemaCache.CacheAgrees` | ch/writer.go:506-577 | In every interleaving of lookups and refreshes each cached entry is the order-preserving filter and parse of the rows of an earlier answered DESCRIBE of that table (all its rows unless it was cut off), and entries are never removed |
| `SchemaCache.CacheIsLatest` | ch/writer.go:547-676 | In every run in which no answer for a table arrives while a refresh of it is under way, the cache holds the parse of the latest answer whenever no refresh is under way |
| `SchemaCache.LatestExactlyWhen` | ch/writer.go:547-676 | Up to the first overlap, the next step leaves every continuation without further overlaps with the latest schema iff it is not an overlap itself |
| `SchemaCache.ACutOffSchemaStays` | ch/writer.go:515-573 | The rows of a DESCRIBE cut off by an error become the cached schema, and no later lookup asks again |
| `SchemaCache.WholeExactlyWhen` | ch/writer.go:515-676 | In runs without overlaps, with no refresh of a table under way, its cached schema is that of an answer received whole iff the latest answer for it was not cut off |
| `SchemaCache.OverlappingRefreshesCanGoBack` | ch/writer.go:665-676 | Of two overlapping refreshes the one answered first can store last and bring the older schema back |
| `BatchWriter.BatchWriter.Write` | ch/writer.go:101-126 | A closed writer takes no row; success queues all rows in order; an error leaves exactly the rows before the first refused one queued |
| `BatchWriter.BatchWriter.Close` | ch/writer.go:128-145 | Only the first Close does anything: it closes done and then the ingress channel |
| `BatchWriter.BatchWriter.ProcessLoop` | ch/writer.go:147-218 | The loop object, fed any possible sequence of events with schema refreshes between them, is in the state the state machine gives |
| `BatchWriter.BatchWriter.DrainChannel` | ch/writer.go:248-267 | The drain loop moves the queued rows it finds into the buffer, in order, without touching the first-row time |
| `BatchWriter.BatchWriter.FlushAll` | ch/writer.go:270-332 | The loop over the tables leaves exactly the effects, cache and counts of the specified flush |
| `BatchWriter.BatchWriter.InsertWithRetries` | ch/writer.go:284-303 | The retry loop leaves exactly the effects, cache and error of the specified attempts |
| `BatchWriter.BatchWriter.BatchInsertRows` | ch/writer.go:390-408 | Insert, and on a schema error refresh and insert once more, as specified |
| `BatchWriter.BatchWriter.SendRows` | ch/writer.go:418-448 | Prepare, append and send as specified, stopping at the first refusal |
| `BatchWriter.BatchWriter.AppendAll` | ch/writer.go:425-441 | The append loop builds the specified vectors, one value per column, up to the first refusal |
| `BatchWriter.BatchWriter.FetchTableColumns` | ch/writer.go:506-544 | The loop over the DESCRIBE rows gives the filter and parse of the rows that arrived, cut off or not |
| `BatchWriter.BatchWriter.RefreshTableSchema` | ch/writer.go:665-685 | A refresh from outside the loop is a step of the state machine |
| `BatchWriter.BatchWriter.RefreshAllTableSchemas` | ch/writer.go:629-662 | The refresh loop is those steps one by one, and counts the successful ones |
| `Backoff.BackoffExact` | ch/writer.go:294-294 | The wait is 2^attempt seconds in 64-bit nanoseconds exactly while the exponent is at most 33 |
| `Backoff.BackoffBounded` | ch/writer.go:294-302 | Overflow never makes a wait longer than 2^attempt seconds |
| `Columns.ModifiersOnlySetNullable` | ch/converter.go:121-181 | Any string under any stack of LowCardinality and Nullable parses to the same base type, kind, default, enum label and scan type; only the original text and the nullable flag differ |
| `Columns.MapsAreNotMistaken` | ch/converter.go:143-148 | A Map column under any modifiers is classified as a map whatever its inner types are called |
| `Columns.ArraysAreNotMistaken` | ch/converter.go:149-151 | An Array column under any modifiers is classified as an array whatever its inner types are called |
| `Columns.ContainerColumnTyped` | ch/writer.go:580-611 | A Map or Array column gets a value of exactly the driver's type iff the row has one, whatever it is, or the column has no default and is not nullable |
| `Columns.ContainerDefaultIsText` | ch/converter.go:263-318 | An unquoted default of a Map or Array column that is no call of a supported function is written as its own text |
| `Columns.AbsentIsNull` | ch/converter.go:324-328 | An absent value is NULL in a nullable column under any stack of modifiers |
| `ColumnProperties.SchemaOfConcat` | ch/writer.go:515-543 | The schema follows the server's order: parsing two parts of an answer gives the two schemas one after the other |
| `ColumnProperties.SchemaOfOne` | ch/writer.go:529-541 | A DESCRIBE row gives no column iff its default type is MATERIALIZED, ALIAS or EPHEMERAL, else one column with its name, type and default |
| `ColumnProperties.ColumnOfType` | ch/converter.go:121-181 | Under any modifiers base type, nullability, the driver's container type and the first enum label come from the base type |
| `ColumnProperties.OwnTypeArrives` | ch/writer.go:580-611 | A value of a scalar column's own Go type, plain or behind one pointer, arrives unchanged |
| `ColumnProperties.IntegerArrives` | ch/converter.go:449-490 | Any Go integer arrives in an integer column as itself cut at 2^63-1 |
| `ColumnProperties.EnumArrives` | ch/converter.go:931-942 | An enum column takes any value as it is, and the empty string as its first label |
| `ColumnProperties.KeptContainerArrives` | ch/writer.go:594-611 | A Map or Array column keeps a value of the driver's type that conversion leaves alone |
| `ColumnProperties.OtherKeysDoNotMatter` | ch/writer.go:580-596 | A column's value depends on the row's value under its own name only |
| `ColumnProperties.AbsentIsZero` | ch/converter.go:322-373 | An absent value without default is the zero value of a non-nullable column's Go type, the start of 1970 for a time and :: for an address |
| `ColumnProperties.IntegerDefault` | ch/converter.go:263-318 | A default that prints an integer is that integer |
| `ColumnProperties.QuotedDefault` | ch/converter.go:263-273 | A quoted default is its text without the quotes |
| `ColumnProperties.ClockDefault` | ch/converter.go:52-75 | A default that calls a clock function or asks for an identifier is evaluated at the insert |
| `TypeModifiers.UnwrapTypeModifiers` | ch/converter.go:192-204 | The stripping loop ends on every string, computes the specified result and leaves no modifier in front |
| `TypeModifiers.UnwrapOfWrap` | ch/converter.go:183-204 | Unwrapping any stack of modifiers around any string is unwrapping the string, with the flag set iff the stack has a Nullable |
| `TypeModifiers.UnwrapRefinesStrip` | ch/converter.go:183-204 | On the text of any type tree the algorithm is stripping the tree's outer modifiers |
| `TypeModifiers.UnwrapIdempotent` | ch/converter.go:192-204 | The result of unwrapping unwraps to itself |
| `ConverterProperties.ConvertElemSound` | ch/converter.go:1225-1271 | For every input and every target nested to any depth, conversion gives a valid value of exactly the target type with nothing nil inside, so the skip and zero-fill branches are never taken |
| `ConverterProperties.SliceShape` | ch/converter.go:1140-1156 | A converted slice keeps length and positions |
| `ConverterProperties.MapShape` | ch/converter.go:1118-1135 | A converted map's keys are exactly the conversions of the source keys, each holding the conversion of the value last seen with such a key |
| `ConverterProperties.NilElementIsNotNull` | ch/converter.go:1140-1156 | A nil element of a slice with pointer elements becomes a pointer to what nil converts to, never a nil pointer |
| `ConverterProperties.NilBehindPointer` | ch/converter.go:1227-1235 | A nil converts to a pointer, to zero for strings, numbers and booleans |
| `ConverterIdentity.ConvertElemIdentity` | ch/converter.go:1225-1271 | A value of the target type comes back unchanged iff it has no nil inside, no unsigned number above 2^63-1, no scalar behind two pointers and no address or opaque value behind one (beyond what conversion would put there) |
| `ConverterIdentity.ConvertTwice` | ch/converter.go:1225-1271 | Converting twice is converting once for every input iff the target has no 64-bit unsigned integer, no scalar behind two pointers and no address or opaque value behind one |
| `ConverterIdentity.ConvertTwiceCutsUnsigned` | ch/converter.go:486-490 | For uint64 it is not: -1 becomes 2^64-1 and then 2^63-1 |
| `ConverterIdentity.ConvertTwiceEmptiesDoublePointer` | ch/converter.go:1227-1235 | Nor for a string behind two pointers, which the second conversion empties |
| `ConverterIdentity.IntegerCoercion` | ch/converter.go:449-532 | Any Go integer becomes the target's residue of its value cut at 2^63-1, and keeps its value iff the target holds it and it is at most 2^63-1 |
| `ConverterIdentity.IntThroughString` | ch/converter.go:392-415 | Printing an integer and reading it back gives its value for the kinds the printer knows up to 2^63-1, and zero otherwise |
| `ConverterInputs.BoolThroughTextAndInt` | ch/converter.go:383-447 | A truth value survives text and integers both ways |
| `ConverterInputs.TrueTexts` | ch/converter.go:766-826 | A text is true iff it is "true", "1" or "TRUE" |
| `ConverterInputs.JsonMap` | ch/converter.go:1118-1193 | A JSON object given as text or bytes converts as the map it decodes to, anything else in text or bytes to an empty map |
| `ConverterInputs.JsonSlice` | ch/converter.go:1140-1193 | A JSON array given as text converts as the slice it decodes to |
| `ConverterInputs.ArrayLikeSlice` | ch/converter.go:1140-1156 | An array converts as a slice of the same elements |
| `ConverterIdentity.TextRoundTrip` | ch/converter.go:556-563 | Converting any nesting of slices and maps of int64, int and int32 to text and back restores every number, key and element |
| `Converter.RunBuildMap` | ch/converter.go:1118-1135 | The loop over the map's entries builds the specified map |
| `Converter.RunBuildSlice` | ch/converter.go:1140-1156 | The loop over the elements builds the specified slice |
| `Converter.DerefValue` | ch/converter.go:1195-1203 | The loop looks through every pointer and gives nothing for a nil on the way |
| `GoValues.WrapIsTheResidue` | ch/converter.go:1267-1269 | Converting between integer types gives the one value of the target that differs by a multiple of its size |
| `Strconv.ParseOfFormat` | ch/converter.go:393-393 | Parsing a printed integer gives it back exactly when it fits 64 bits, and an error otherwise |
| `Strconv.ParseNeedsDigits` | ch/converter.go:556-563 | What parses is digits behind at most one sign |
| `RecorderRuns.AcceptedInOrder` | dlq/recorder.go:77-132 | In every interleaving: processed, in hand, buffered are the accepted payloads in order, and the buffer never exceeds its capacity |
| `RecorderRuns.EveryRecordAccountedFor` | dlq/recorder.go:77-171 | Every Record call with a payload is in exactly one place: ignored, dropped, running, in hand, buffered, delivered, over the cap, marshal failure or produce failure |
| `RecorderRuns.CountersCountTheirClasses` | dlq/recorder.go:92-166 | dropped counts full-buffer and over-cap drops, produceErrors marshal and produce failures, nothing else |
| `RecorderRuns.FateExactly` | dlq/recorder.go:136-171 | A processed payload is delivered iff it marshals, is within the cap and the producer takes it; and so for each of the other three fates |
| `RecorderRuns.FatesAreTheProducers` | dlq/recorder.go:136-171 | In every run as many payloads count as delivered as the producer took, and as produce failures as it did not |
| `RecorderRuns.ClosedOnceAndLast` | dlq/recorder.go:174-185 | done and the producer are closed at most once, and nothing can be produced once the producer is closed |
| `RecorderRuns.JoinedMeansDrained` | dlq/recorder.go:115-179 | Past the winning Close's wait everything accepted before done closed is processed; what is left was accepted after the loop's exit, at most one payload for each call already past its first look |
| `RecorderRuns.NothingStrandedExactlyWhen` | dlq/recorder.go:77-184 | Whatever happens after done closes, the winning Close leaves the channel empty iff no Record call is between its two selects at that moment |
| `RecorderRuns.APayloadCanBeStranded` | dlq/recorder.go:81-99 | Some run leaves a payload in the channel for good |
| `RecorderRuns.ALosingCloseCanReturnEarly` | dlq/recorder.go:174-179 | In some reachable state a Close returns while an accepted payload still waits for the loop |
| `RecorderRuns.DrainIsBounded` | dlq/recorder.go:115-132 | Once done is closed the loop takes at most a fixed number of further steps, counted from the buffered payloads and the calls about to send |
| `RecorderRuns.LoopNeverBlocksAfterDone` | dlq/recorder.go:117-131 | Once done is closed some step of the loop is always possible until it exits |
| `RecorderRuns.NoDropsAfterDone` | dlq/recorder.go:87-92 | Once done is closed no Record meets a full buffer; only drops already decided are still counted |
| `Recorder.RunKeepsInv` | dlq/recorder.go:77-185 | Every interleaving keeps order, accounts and phases |
| `KafkaRecorder.KafkaRecorder.RecordSelect` | dlq/recorder.go:87-98 | The second select sends, gives way to done, or finds the buffer full only when neither is possible |
| `KafkaRecorder.KafkaRecorder.Produce` | dlq/recorder.go:136-171 | The producer is asked iff the payload marshals and is within the cap; produceErrors rises iff marshalling or the producer failed, dropped iff the payload is over the cap |
| `KafkaRecorder.KafkaRecorder.CloseFinish` | dlq/recorder.go:178-184 | After the wait, closing the producer leaves nothing accepted before done unprocessed |
| `PostgresDsn.DsnRoundTrip` | db/postgres_config.go:90-105 | The grammar's reader gives back exactly the settings of a configuration from its DSN iff no field has a tab, newline or other blank without a space, quote or backslash |
| `PostgresDsn.FieldsUnderTheirKeys` | db/postgres_config.go:90-105 | A reader of a printable configuration's DSN finds each field under its own keyword, the application name iff there is one, and nothing else |
| `PostgresDsn.DsnInjective` | db/postgres_config.go:86-105 | Printable configurations with equal DSNs are equal |
| `PostgresDsn.PgEscapeExact` | db/postgres_config.go:116-125 | One escaped value is read back iff it is carried |
| `PostgresDsn.ParseOfPrint` | db/postgres_config.go:90-125 | The same for any list of settings with well-formed keywords |
| `PostgresDsn.TabIsLost` | db/postgres_config.go:120-122 | A password with a tab is lost, and survives with a space beside it |
| `PostgresDsn.Dsn` | db/postgres_config.go:90-105 | The built and joined parts are the printed settings, with application_name iff it is set |
| `Consumer.EffectsAreTheCalls` | kafka/consume.go:169-213 | In every run the recorded calls are exactly the calls made, in order, each with the handler's or the broker's answer |
| `Consumer.CommitFollowsSuccess` | kafka/consume.go:188-204 | In every run the position is set only by a commit the broker took, right after a call on that message to which the handler answered success |
| `Consumer.StopsExactlyWhen` | kafka/consume.go:81-133 | The loop runs on iff it meets neither a cancelled context nor all brokers down |
| `Consumer.StopsAtTheFirst` | kafka/consume.go:81-133 | It stops at the first of these, having handled exactly the messages polled before |
| `Consumer.PositionIsMonotone` | kafka/consume.go:81-133 | On every partition the committed position only moves forward, whatever other partitions bring in between |
| `Consumer.BelowThePosition` | kafka/consume.go:81-213 | Every message polled from a partition up to a committed one of it was handed to the handler until it succeeded or MaxRetries calls failed, with the hook told once |
| `Consumer.HandledInOrder` | kafka/consume.go:82-106 | The messages handled are those polled before the loop stopped, in order, each once |
| `Consumer.HandledExactlyWhen` | kafka/consume.go:188-204 | A message reaches the handler iff MaxRetries is at least 1, and is committed all the same if it is not |
| `Consumer.RetryAnswers` | kafka/consume.go:188-196 | The k-th handler call of a message is the handler's k-th answer, and no answer is skipped |
| `Consumer.HandleMessageBlock` | kafka/consume.go:169-213 | One message: failed calls, a last call, one commit attempt iff it succeeded and commits are manual, the hook once with the last handler error, the commit's error or success |
| `Consumer.ConsumeInstance.HandlerMessage` | kafka/consume.go:169-213 | The handler method does exactly the specified calls, commit and hook |
| `Consumer.ConsumeInstance.ConsumeLoop` | kafka/consume.go:81-133 | The poll loop over any iterations gives the specified run |
| `SyncableCache.CacheIsARegister` | cache/syncable_cache.go:84-205 | In every interleaving of syncs and reads of a new cache: each read returns the latest store in lock order or the initial value; what is stored is exactly the data that the successful syncs were answered last, in order; every ended sync got 1 to maxRetries answers, all before the last retryable errors, the last final or the maxRetries-th |
| `SyncableCache.EndedIsASync` | cache/syncable_cache.go:154-205 | Each of those syncs is a run of the retry loop: given the same answers the loop makes as many calls and ends with the same result |
| `SyncableCache.SyncShape` | cache/syncable_cache.go:154-205 | A sync stops at the first success or non-retryable error or after maxRetries calls, and returns that answer |
| `SyncableCache.SyncPauses` | cache/syncable_cache.go:158-167 | A sync's pauses add up to at most 2^(maxRetries-1) - 1 seconds |
| `SyncableCache.SyncPausesExactly` | cache/syncable_cache.go:158-167 | A sync pauses between two calls and nowhere else, and as long as the retried calls ask |
| `SyncableCache.PausesInSeconds` | cache/syncable_cache.go:158-167 | Up to 35 calls the pauses of a sync are 2^(calls-1) - 1 seconds |
| `SyncableCache.RetriedExactlyWhen` | cache/syncable_cache.go:208-232 | An error is retried iff the deadline was exceeded or its text contains one of seven phrases |
| `SyncableCache.SyncableCache.SyncWithRetry` | cache/syncable_cache.go:154-205 | The retry loop stores the data of a success and changes nothing on failure |
| `SyncableCache.StoppedExactlyWhen` | cache/syncable_cache.go:84-125 | For all Starts before a first Stop and all calls after it: no periodic sync is left running iff none was started by any of them but the last Start before that Stop |
| `SyncableCache.SyncableCache.Start` | cache/syncable_cache.go:84-115 | Each Start makes a new context that replaces the one Stop can reach, and starts periodic syncing iff its first sync succeeds |
| `SyncableCache.SyncableCache.Stop` | cache/syncable_cache.go:119-125 | Only the first Stop counts, and cancels the latest context only |

## Left out

- The ClickHouse, Kafka and PostgreSQL clients and servers are not part of this model beyond their answers; nothing is said about what a server did on an unacknowledged send.
- The ingress channel's internals: it is a first-in first-out queue, and `Write` is taken as atomic with respect to `Close` (a send racing with the close of the channel would panic).
- Floating point, time formats, decimals, addresses, UUIDs, JSON decoding, enum labels, the syntax of function calls in default expressions and upper-casing are functions of the library records; of `float32` only that widening and narrowing loses nothing is used, and only where identity needs it.
- Fixed-size array targets, interface targets, cyclic pointers, and map keys of pointer, float, decimal or address type, whose Go equality is not equality of the modelled values.
- Map results are lists of entries in insertion order; the order in which a later reader visits them is not modelled.
- `Converter.DerefValue`: a pointer to an interface and the interface inside it are one step here.
- Which column kind a scalar type name has: the substring tests are modelled as they are, and no general claim is made about names they misread.
- `reportFlush` and `safeOnPermanentFailure` recover panics of the hook and the callback; the model has the calls and their order, not panics.
- The recorder's counter increments inside `produce` are one step with the producer's answer; logging, `BufferLen` and `BufferCap` have no counterpart.
- What other goroutines do to the schema cache during a flush is a function that may change it before each insert and refresh of a batch; that they only store parsed answers is shown in `SchemaCache.dfy`, which interleaves refreshes and lookups.
- Kafka rebalances, seeks and lag statistics; each partition's messages are polled in offset order.
- Timeouts of a single sync call and the ticker of the periodic sync; when syncs begin is left to the interleaving.
- Configuration defaults and validation (including `MergeDefaults`), MySQL, Redis, cron, routine, logger, metrics and health: plumbing with only easy properties.
- `kafka/producer.go`: its shutdown closes a channel that an earlier failure may have closed, so it has no clean lifecycle theorem.
