// One flush of the batch writer (ch/writer.go): for every buffered table an
// insert with bounded retries, each of which may refresh the cached schema and
// insert a second time. These functions say what a flush does to the outside
// world, as a list of effects; the class BatchWriter performs it.
module Flush {
  import opened Common
  import opened GoValues
  import opened Columns
  import opened InsertErrors
  import opened Backoff

  datatype Row = Row(table: string, values: map<string, Val>)

  datatype WriterConfig = WriterConfig(
    flushSize: int, minFlushSize: int, maxWaitTime: int, maxRetries: int,
    hasHook: bool, hasCallback: bool)

  // Config.Validate's demands on the writer section.
  predicate ValidConfig(c: WriterConfig) {
    c.flushSize > 0 && 0 <= c.minFlushSize <= c.flushSize && c.maxWaitTime >= 0 && c.maxRetries >= 0
  }

  // A DESCRIBE fails, or its rows arrive, all of them or up to the error that
  // cuts them off. The writer never asks for that error.
  datatype DescribeReply = DescribeFailed(err: Error) | Described(rows: seq<DescribeRow>, cutOff: Option<Error>)

  // The server, as the answers it gives to the calls the writer makes, numbered
  // in order. An insert's send is acknowledged (None) or not.
  datatype Server = Server(
    describe: (nat, string) -> DescribeReply,
    prepare: nat -> Option<Error>,
    append: nat -> Option<Error>,
    send: nat -> Option<Error>)

  type Cache = map<string, seq<TableColumn>>

  // `others` is what other goroutines make of the schema cache while a flush is
  // about to make its call of that number.
  datatype Env = Env(lib: ColumnLib, server: Server, config: WriterConfig, others: (nat, Cache) -> Cache)

  // What a flush leaves behind. A DESCRIBE, a batch sent and a batch that the
  // server refused before it could be sent carry the number of their first call;
  // a refused batch took `calls` calls.
  datatype Effect =
    | Asked(table: string, clock: nat, reply: DescribeReply)
    | Sent(table: string, rows: seq<Row>, columns: seq<TableColumn>, vectors: seq<seq<Val>>, clock: nat, acked: bool)
    | Refused(table: string, clock: nat, calls: nat, cause: Error)
    | Tried(table: string, err: Option<Error>)
    | Slept(table: string, ns: int)
    | Reported(table: string, count: nat, err: Option<Error>)
    | HandedOff(table: string, rows: seq<Row>, cause: Error)

  // The schema cache and the number of calls made so far.
  datatype Sink = Sink(cache: Cache, clock: nat)

  datatype Outcome = Outcome(sink: Sink, effects: seq<Effect>, err: Option<Error>)

  datatype Fetched = Fetched(sink: Sink, effects: seq<Effect>, columns: Result<seq<TableColumn>, Error>)

  // ----- What the writer does -----------------------------------------------

  function FetchColumns(env: Env, sink: Sink, t: string): Fetched {
    var reply := env.server.describe(sink.clock, t);
    Fetched(sink.(clock := sink.clock + 1), [Asked(t, sink.clock, reply)],
      match reply
      case DescribeFailed(e) => Err(e)
      case Described(rows, _) => Ok(ParseSchema(env.lib, rows)))
  }

  function Store(sink: Sink, t: string, columns: seq<TableColumn>): Sink {
    sink.(cache := sink.cache[t := columns])
  }

  function GetColumns(env: Env, sink: Sink, t: string): Fetched {
    if t in sink.cache then Fetched(sink, [], Ok(sink.cache[t]))
    else
      var f := FetchColumns(env, sink, t);
      match f.columns
      case Err(_) => f
      case Ok(columns) => f.(sink := Store(f.sink, t, columns))
  }

  function RefreshSchema(env: Env, sink: Sink, t: string): Outcome {
    var f := FetchColumns(env, sink, t);
    match f.columns
    case Err(e) => Outcome(f.sink, f.effects, Some(e))
    case Ok(columns) => Outcome(Store(f.sink, t, columns), f.effects, None)
  }

  // The periodic refresh of every table in the list, failures and all.
  datatype Refreshed = Refreshed(sink: Sink, effects: seq<Effect>, success: nat)

  function RefreshAll(env: Env, sink: Sink, tables: seq<string>): Refreshed
    decreases |tables|
  {
    if tables == [] then Refreshed(sink, [], 0)
    else
      var o := RefreshSchema(env, sink, tables[0]);
      var rest := RefreshAll(env, o.sink, tables[1..]);
      Refreshed(rest.sink, o.effects + rest.effects, rest.success + (if o.err.None? then 1 else 0))
  }

  // One value per column, at the column's index.
  function Vector(lib: ColumnLib, row: Row, columns: seq<TableColumn>, clock: nat): (v: seq<Val>)
    ensures |v| == |columns|
    ensures forall j :: 0 <= j < |columns| ==> v[j] == ColumnValue(lib, row.values, columns[j], clock)
  {
    seq(|columns|, j requires 0 <= j < |columns| => ColumnValue(lib, row.values, columns[j], clock))
  }

  datatype Appended = Appended(vectors: seq<seq<Val>>, clock: nat, err: Option<Error>)

  function AppendRows(env: Env, clock: nat, rows: seq<Row>, columns: seq<TableColumn>, before: seq<seq<Val>>): Appended
    decreases |rows|
  {
    if rows == [] then Appended(before, clock, None)
    else
      var v := Vector(env.lib, rows[0], columns, clock);
      match env.server.append(clock)
      case Some(e) => Appended(before, clock + 1, Some(e))
      case None => AppendRows(env, clock + 1, rows[1..], columns, before + [v])
  }

  // Prepare the batch, append every row, send.
  function SendBatch(env: Env, sink: Sink, t: string, rows: seq<Row>, columns: seq<TableColumn>): Outcome {
    var start := sink.clock + 1;
    match env.server.prepare(sink.clock)
    case Some(e) => Outcome(sink.(clock := start), [Refused(t, sink.clock, 1, e)], Some(ErrInsert(t, e)))
    case None =>
      var a := AppendRows(env, start, rows, columns, []);
      if a.err.Some? then
        Outcome(sink.(clock := a.clock), [Refused(t, sink.clock, |a.vectors| + 2, a.err.value)],
          Some(ErrInsert(t, a.err.value)))
      else
        var reply := env.server.send(a.clock);
        Outcome(sink.(clock := a.clock + 1), [Sent(t, rows, columns, a.vectors, sink.clock, reply.None?)],
          match reply case None => None case Some(e) => Some(ErrInsert(t, e)))
  }

  function DoInsert(env: Env, sink: Sink, t: string, rows: seq<Row>): Outcome {
    var g := GetColumns(env, sink, t);
    match g.columns
    case Err(e) => Outcome(g.sink, g.effects, Some(ErrInsert(t, e)))
    case Ok(columns) =>
      var s := SendBatch(env, g.sink, t, rows, columns);
      Outcome(s.sink, g.effects + s.effects, s.err)
  }

  function Meanwhile(env: Env, sink: Sink): Sink {
    sink.(cache := env.others(sink.clock, sink.cache))
  }

  // After a schema mismatch: refresh, then insert once more.
  function RefreshAndInsert(env: Env, sink: Sink, t: string, rows: seq<Row>, err: Error): Outcome {
    var refresh := RefreshSchema(env, Meanwhile(env, sink), t);
    if refresh.err.Some? then Outcome(refresh.sink, refresh.effects, Some(err))
    else
      var second := DoInsert(env, Meanwhile(env, refresh.sink), t, rows);
      Outcome(second.sink, refresh.effects + second.effects, second.err)
  }

  function BatchInsert(env: Env, sink: Sink, t: string, rows: seq<Row>): Outcome {
    if rows == [] then Outcome(sink, [], None)
    else
      var first := DoInsert(env, Meanwhile(env, sink), t, rows);
      if first.err.Some? && IsSchemaRelated(first.err.value) then
        var again := RefreshAndInsert(env, first.sink, t, rows, first.err.value);
        Outcome(again.sink, first.effects + again.effects, again.err)
      else first
  }

  // The retry loop around an insert of table t, from this attempt on. With a
  // negative bound it would not run at all.
  function Attempts(maxRetries: int, t: string, insert: Sink -> Outcome, sink: Sink, attempt: nat): Outcome
    decreases maxRetries - attempt
  {
    if attempt > maxRetries then Outcome(sink, [], None)
    else
      var b := insert(sink);
      var es := b.effects + [Tried(t, b.err)];
      if b.err.None? || !IsRetryable(b.err.value) || attempt == maxRetries then Outcome(b.sink, es, b.err)
      else
        var rest := Attempts(maxRetries, t, insert, b.sink, attempt + 1);
        Outcome(rest.sink, es + [Slept(t, BackoffNs(attempt))] + rest.effects, rest.err)
  }

  function Inserter(env: Env, t: string, rows: seq<Row>): Sink -> Outcome {
    (sink: Sink) => BatchInsert(env, sink, t, rows)
  }

  // The metrics hook hears of every table; the failure callback, after it, of a
  // failed one.
  function Aftermath(config: WriterConfig, t: string, rows: seq<Row>, err: Option<Error>): seq<Effect> {
    (if config.hasHook then [Reported(t, |rows|, err)] else [])
    + (if err.Some? && config.hasCallback then [HandedOff(t, rows, err.value)] else [])
  }

  function FlushTable(env: Env, sink: Sink, t: string, rows: seq<Row>): Outcome {
    var a := Attempts(env.config.maxRetries, t, Inserter(env, t, rows), sink, 0);
    Outcome(a.sink, a.effects + Aftermath(env.config, t, rows, a.err), a.err)
  }

  type Flusher = (Sink, string, seq<Row>) -> Outcome

  function TableFlusher(env: Env): Flusher {
    (sink: Sink, t: string, rows: seq<Row>) => FlushTable(env, sink, t, rows)
  }

  type Buffer = map<string, seq<Row>>

  datatype Flushed = Flushed(sink: Sink, effects: seq<Effect>, success: nat, failed: nat, total: nat)

  // Every table in the order in which the runtime's map iteration visits them.
  function FlushTables(flush: Flusher, sink: Sink, buffer: Buffer, order: seq<string>): Flushed
    requires forall t :: t in order ==> t in buffer
    decreases |order|
  {
    if order == [] then Flushed(sink, [], 0, 0, 0)
    else
      var n := |buffer[order[0]]|;
      var f := flush(sink, order[0], buffer[order[0]]);
      var rest := FlushTables(flush, f.sink, buffer, order[1..]);
      Flushed(rest.sink, f.effects + rest.effects,
        rest.success + (if f.err.None? then n else 0), rest.failed + (if f.err.Some? then n else 0), rest.total + n)
  }

  // An order visits every table of the buffer once.
  predicate IsOrder(order: seq<string>, buffer: Buffer) {
    (forall t :: t in order ==> t in buffer)
    && (forall t :: t in buffer ==> t in order)
    && forall i, j :: 0 <= i < j < |order| ==> order[i] != order[j]
  }
}
