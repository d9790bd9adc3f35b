// The batch writer of ch/writer.go: its fields, and its methods proved to do
// what WriterLoop and Flush say.
module BatchWriter {
  import opened Common
  import opened GoValues
  import opened Columns
  import opened InsertErrors
  import opened Backoff
  import opened Flush
  import opened WriterLoop
  import WriterRuns

  // What the non-blocking send of one row meets: room, a cancelled context or a
  // full channel.
  datatype Admission = Admitted | ContextDone | ChannelFull

  datatype WriteError = WriterClosed | ContextError | BufferFull

  // An outcome after more effects.
  function After(done: seq<Effect>, o: Outcome): Outcome {
    Outcome(o.sink, done + o.effects, o.err)
  }

  function RefreshedAfter(done: seq<Effect>, success: nat, r: Refreshed): Refreshed {
    Refreshed(r.sink, done + r.effects, success + r.success)
  }

  lemma RefreshedAfterTable(env: Env, sink: Sink, tables: seq<string>, done: seq<Effect>, success: nat)
    requires tables != []
    ensures var o := RefreshSchema(env, sink, tables[0]);
            RefreshedAfter(done, success, RefreshAll(env, sink, tables))
            == RefreshedAfter(done + o.effects, success + (if o.err.None? then 1 else 0),
                 RefreshAll(env, o.sink, tables[1..]))
  {
    var o := RefreshSchema(env, sink, tables[0]);
    var rest := RefreshAll(env, o.sink, tables[1..]);
    assert done + (o.effects + rest.effects) == (done + o.effects) + rest.effects;
  }

  // What is left of a retry loop that began as `all` is the attempts from this
  // one on.
  ghost predicate AttemptsLeft(maxRetries: int, t: string, insert: Sink -> Outcome, sink: Sink, attempt: nat,
                               done: seq<Effect>, all: Outcome)
  {
    attempt <= maxRetries && all == After(done, Attempts(maxRetries, t, insert, sink, attempt))
  }

  // insert and flush are what the writer's own steps do. (The triggers keep the
  // definitions of those steps folded where the loops need only insert or flush.)
  ghost predicate IsInserter(env: Env, t: string, rows: seq<Row>, insert: Sink -> Outcome) {
    forall s {:trigger BatchInsert(env, s, t, rows)} :: insert(s) == BatchInsert(env, s, t, rows)
  }

  ghost predicate IsTableFlusher(env: Env, flush: Flusher) {
    forall s, t, rows {:trigger FlushTable(env, s, t, rows)} :: flush(s, t, rows) == FlushTable(env, s, t, rows)
  }

  lemma AfterRound(maxRetries: int, t: string, insert: Sink -> Outcome, sink: Sink, attempt: nat, done: seq<Effect>)
    requires attempt < maxRetries
    requires insert(sink).err.Some? && IsRetryable(insert(sink).err.value)
    ensures var b := insert(sink);
            After(done, Attempts(maxRetries, t, insert, sink, attempt))
            == After(done + (b.effects + [Tried(t, b.err)] + [Slept(t, BackoffNs(attempt))]),
                     Attempts(maxRetries, t, insert, b.sink, attempt + 1))
  {
    var b := insert(sink);
    var round := b.effects + [Tried(t, b.err)] + [Slept(t, BackoffNs(attempt))];
    var rest := Attempts(maxRetries, t, insert, b.sink, attempt + 1);
    assert Attempts(maxRetries, t, insert, sink, attempt).effects == round + rest.effects;
    assert done + (round + rest.effects) == (done + round) + rest.effects;
  }

  function FlushedAfter(done: seq<Effect>, success: nat, failed: nat, total: nat, f: Flushed): Flushed {
    Flushed(f.sink, done + f.effects, success + f.success, failed + f.failed, total + f.total)
  }

  // What is left of a flush that began as `all` is the tables from this one on.
  ghost predicate TablesLeft(flush: Flusher, batch: Buffer, order: seq<string>, i: nat, sofar: Flushed, all: Flushed) {
    i <= |order| && (forall t :: t in order ==> t in batch)
    && all == FlushedAfter(sofar.effects, sofar.success, sofar.failed, sofar.total,
                FlushTables(flush, sofar.sink, batch, order[i..]))
  }

  lemma AllTablesLeft(flush: Flusher, sink: Sink, batch: Buffer, order: seq<string>)
    requires forall t :: t in order ==> t in batch
    ensures TablesLeft(flush, batch, order, 0, Flushed(sink, [], 0, 0, 0), FlushTables(flush, sink, batch, order))
  {
    assert order[0..] == order;
    assert [] + FlushTables(flush, sink, batch, order).effects == FlushTables(flush, sink, batch, order).effects;
  }

  // The flush so far and one more table.
  function WithTable(sofar: Flushed, o: Outcome, n: nat): Flushed {
    Flushed(o.sink, sofar.effects + o.effects, sofar.success + (if o.err.None? then n else 0),
      sofar.failed + (if o.err.Some? then n else 0), sofar.total + n)
  }

  lemma OneTableLess(flush: Flusher, batch: Buffer, order: seq<string>, i: nat, sofar: Flushed, all: Flushed)
    requires i < |order| && TablesLeft(flush, batch, order, i, sofar, all)
    ensures var o := flush(sofar.sink, order[i], batch[order[i]]);
            TablesLeft(flush, batch, order, i + 1, WithTable(sofar, o, |batch[order[i]]|), all)
  {
    var o := flush(sofar.sink, order[i], batch[order[i]]);
    var rest := FlushTables(flush, o.sink, batch, order[i + 1..]);
    assert order[i..][1..] == order[i + 1..];
    assert sofar.effects + (o.effects + rest.effects) == (sofar.effects + o.effects) + rest.effects;
  }

  lemma NoTablesLeft(flush: Flusher, batch: Buffer, order: seq<string>, sofar: Flushed, all: Flushed)
    requires TablesLeft(flush, batch, order, |order|, sofar, all)
    ensures all == sofar
  {
    assert order[|order|..] == [];
  }

  class BatchWriter {
    const env: Env

    var queue: seq<Option<Row>>
    var closed: bool
    var doneClosed: bool
    var inClosed: bool
    var buffer: Buffer
    var totalRows: nat
    var firstData: int
    var exit: Exit
    var tableColumns: map<string, seq<TableColumn>>
    var calls: nat

    ghost var accepted: seq<Option<Row>>
    ghost var taken: seq<Option<Row>>
    ghost var batches: seq<Buffer>
    ghost var trace: seq<Effect>
    ghost var pending: seq<Row>
    ghost var stamps: seq<int>

    ghost function Outside(): Sink
      reads this
    {
      Sink(tableColumns, calls)
    }

    ghost function View(): WriterState
      reads this
    {
      WriterState(queue, doneClosed, inClosed, buffer, totalRows, firstData, exit, Outside(),
        accepted, taken, batches, trace, pending, stamps)
    }

    // Some run leads to the writer's state, and it is closed before its channels.
    ghost predicate Valid()
      reads this
    {
      ValidConfig(env.config) && WriterRuns.Reachable(env, View()) && (doneClosed ==> closed)
    }

    constructor (env: Env)
      requires ValidConfig(env.config)
      ensures Valid() && this.env == env && Initial(View()) && Outside() == Sink(map[], 0) && !closed
    {
      this.env := env;
      queue, closed, doneClosed, inClosed := [], false, false, false;
      buffer, totalRows, firstData, exit := map[], 0, 0, Running;
      tableColumns, calls := map[], 0;
      accepted, taken, batches, trace, pending, stamps := [], [], [], [], [], [];
      new;
      WriterRuns.InitialReachable(env, View());
    }

    static predicate AllAdmitted(admissions: seq<Admission>, k: int) {
      k <= |admissions| && forall i :: 0 <= i < k ==> admissions[i] == Admitted
    }

    static predicate StoppedAt(admissions: seq<Admission>, err: Option<WriteError>, k: int) {
      0 <= k < |admissions| && AllAdmitted(admissions, k)
      && admissions[k] == (if err == Some(ContextError) then ContextDone else ChannelFull)
    }

    // ----- Callers ------------------------------------------------------------

    // Send the rows one by one, up to the first that is refused.
    method SendAll(rows: seq<Option<Row>>, admissions: seq<Admission>) returns (n: nat, err: Option<WriteError>)
      requires |admissions| == |rows|
      modifies this`queue, this`accepted
      ensures n <= |rows| && queue == old(queue) + rows[..n] && accepted == old(accepted) + rows[..n]
      ensures err.None? ==> n == |rows|
      ensures err.Some? ==> StoppedAt(admissions, err, n)
    {
      n, err := 0, None;
      while n < |rows|
        invariant n <= |rows| && AllAdmitted(admissions, n)
        invariant queue == old(queue) + rows[..n] && accepted == old(accepted) + rows[..n]
      {
        if admissions[n] != Admitted {
          err := Some(if admissions[n] == ContextDone then ContextError else BufferFull);
          return;
        }
        assert rows[..n + 1] == rows[..n] + [rows[n]];
        queue := queue + [rows[n]];
        accepted := accepted + [rows[n]];
        n := n + 1;
      }
    }

    // Rows enter the queue one by one; a closed writer takes none, and a full
    // channel or a cancelled context leaves the rows before it in the queue.
    method Write(rows: seq<Option<Row>>, admissions: seq<Admission>) returns (err: Option<WriteError>)
      requires Valid() && |admissions| == |rows|
      modifies this`queue, this`accepted
      ensures Valid()
      ensures closed && rows != [] ==> err == Some(WriterClosed) && View() == old(View())
      ensures err.None? ==> View() == WriterRuns.WithRows(old(View()), rows)
      ensures err.Some? && !closed ==>
                exists k :: 0 <= k < |rows| && StoppedAt(admissions, err, k)
                  && View() == WriterRuns.WithRows(old(View()), rows[..k])
    {
      if rows == [] {
        return None;
      }
      if closed {
        return Some(WriterClosed);
      }
      var n;
      n, err := SendAll(rows, admissions);
      assert rows[..|rows|] == rows;
      WriterRuns.DoneClosesFirst(env, old(View()));
      WriterRuns.ReachableWithRows(env, old(View()), rows[..n]);
    }

    // Only the first Close does anything.
    method Close()
      requires Valid()
      modifies this`closed, this`doneClosed, this`inClosed
      ensures Valid() && closed
      ensures old(closed) ==> View() == old(View())
      ensures !old(closed) ==> Exec(env, old(View()), [CloseDone, CloseIngress]) == Some(View())
    {
      if closed {
        return;
      }
      WriterRuns.DoneClosesFirst(env, View());
      closed := true;
      WriterRuns.ReachableStep(env, View(), CloseDone);
      assert Exec(env, old(View()), [CloseDone]) == Step(env, old(View()), CloseDone) by {
        assert [CloseDone][..0] == [];
      }
      doneClosed := true;
      WriterRuns.ReachableStep(env, View(), CloseIngress);
      assert [CloseDone, CloseIngress][..1] == [CloseDone];
      inClosed := true;
    }

    // ----- Schemas ------------------------------------------------------------

    method FetchTableColumns(t: string) returns (columns: Result<seq<TableColumn>, Error>)
      modifies this`calls, this`trace
      ensures var f := FetchColumns(env, old(Outside()), t);
              Outside() == f.sink && trace == old(trace) + f.effects && columns == f.columns
    {
      var reply := env.server.describe(calls, t);
      trace := trace + [Asked(t, calls, reply)];
      calls := calls + 1;
      if reply.DescribeFailed? {
        return Err(reply.err);
      }
      var cols := [];
      for i := 0 to |reply.rows|
        invariant cols == ParseSchema(env.lib, reply.rows[..i])
      {
        assert reply.rows[..i + 1][..i] == reply.rows[..i];
        var r := reply.rows[i];
        if r.defaultType == "MATERIALIZED" || r.defaultType == "ALIAS" || r.defaultType == "EPHEMERAL" {
          continue;
        }
        cols := cols + [ParseColumn(env.lib, r.name, r.typeStr, r.defaultExpr)];
      }
      assert reply.rows[..|reply.rows|] == reply.rows;
      return Ok(cols);
    }

    method GetTableColumns(t: string) returns (columns: Result<seq<TableColumn>, Error>)
      modifies this`tableColumns, this`calls, this`trace
      ensures var f := GetColumns(env, old(Outside()), t);
              Outside() == f.sink && trace == old(trace) + f.effects && columns == f.columns
    {
      if t in tableColumns {
        return Ok(tableColumns[t]);
      }
      columns := FetchTableColumns(t);
      if columns.Ok? {
        tableColumns := tableColumns[t := columns.value];
      }
    }

    // Ask the server for a table's schema, whatever the cache holds, and store it.
    method FetchAndStore(t: string) returns (err: Option<Error>)
      modifies this`tableColumns, this`calls, this`trace
      ensures var o := RefreshSchema(env, old(Outside()), t);
              Outside() == o.sink && trace == old(trace) + o.effects && err == o.err
    {
      var columns := FetchTableColumns(t);
      if columns.Err? {
        return Some(columns.error);
      }
      tableColumns := tableColumns[t := columns.value];
      return None;
    }

    // A refresh from outside the loop; the loop's insert does the same inside a
    // flush.
    method RefreshTableSchema(t: string) returns (err: Option<Error>)
      requires Valid()
      modifies this`tableColumns, this`calls, this`trace
      ensures Valid() && Step(env, old(View()), Refresh(t)) == Some(View())
      ensures err == RefreshSchema(env, old(Outside()), t).err
    {
      WriterRuns.ReachableStep(env, View(), Refresh(t));
      err := FetchAndStore(t);
    }

    // Refresh every cached table, in the order in which the map lists them.
    method RefreshAllTableSchemas(tables: seq<string>) returns (success: nat)
      requires Valid()
      modifies this`tableColumns, this`calls, this`trace
      ensures Valid() && View() == WriterRuns.WithRefreshes(env, old(View()), tables)
      ensures success == RefreshAll(env, old(Outside()), tables).success
    {
      WriterRuns.ReachableWithRefreshes(env, View(), tables);
      success := FetchAndStoreAll(tables);
    }

    method FetchAndStoreAll(tables: seq<string>) returns (success: nat)
      modifies this`tableColumns, this`calls, this`trace
      ensures var r := RefreshAll(env, old(Outside()), tables);
              Outside() == r.sink && trace == old(trace) + r.effects && success == r.success
    {
      success := 0;
      ghost var all := RefreshAll(env, Outside(), tables);
      ghost var done: seq<Effect> := [];
      assert tables[0..] == tables && [] + all.effects == all.effects;
      for i := 0 to |tables|
        invariant trace == old(trace) + done
        invariant all == RefreshedAfter(done, success, RefreshAll(env, Outside(), tables[i..]))
      {
        ghost var o := RefreshSchema(env, Outside(), tables[i]);
        RefreshedAfterTable(env, Outside(), tables[i..], done, success);
        assert tables[i..][1..] == tables[i + 1..];
        var err := FetchAndStore(tables[i]);
        if err.None? {
          success := success + 1;
        }
        assert trace == old(trace) + (done + o.effects);
        done := done + o.effects;
      }
    }

    // ----- Inserting ----------------------------------------------------------

    method DoBatchInsert(t: string, rows: seq<Row>) returns (err: Option<Error>)
      modifies this`tableColumns, this`calls, this`trace
      ensures var o := DoInsert(env, old(Outside()), t, rows);
              Outside() == o.sink && trace == old(trace) + o.effects && err == o.err
    {
      var columns := GetTableColumns(t);
      if columns.Err? {
        return Some(ErrInsert(t, columns.error));
      }
      err := SendRows(t, rows, columns.value);
    }

    method AppendAll(rows: seq<Row>, columns: seq<TableColumn>)
      returns (vectors: seq<seq<Val>>, refused: Option<Error>)
      modifies this`calls
      ensures var a := AppendRows(env, old(calls), rows, columns, []);
              calls == a.clock && vectors == a.vectors && refused == a.err
    {
      ghost var all := AppendRows(env, calls, rows, columns, []);
      vectors := [];
      for i := 0 to |rows|
        invariant AppendRows(env, calls, rows[i..], columns, vectors) == all
      {
        var values := [];
        for j := 0 to |columns|
          invariant |values| == j
          invariant forall k :: 0 <= k < j ==> values[k] == ColumnValue(env.lib, rows[i].values, columns[k], calls)
        {
          values := values + [ColumnValue(env.lib, rows[i].values, columns[j], calls)];
        }
        assert values == Vector(env.lib, rows[i], columns, calls);
        assert rows[i..][1..] == rows[i + 1..];
        refused := env.server.append(calls);
        calls := calls + 1;
        if refused.Some? {
          return;
        }
        vectors := vectors + [values];
      }
      refused := None;
    }

    method SendRows(t: string, rows: seq<Row>, columns: seq<TableColumn>) returns (err: Option<Error>)
      modifies this`calls, this`trace
      ensures var o := SendBatch(env, old(Outside()), t, rows, columns);
              Outside() == o.sink && trace == old(trace) + o.effects && err == o.err
    {
      ghost var start := calls;
      var prepared := env.server.prepare(calls);
      calls := calls + 1;
      if prepared.Some? {
        trace := trace + [Refused(t, start, 1, prepared.value)];
        return Some(ErrInsert(t, prepared.value));
      }
      var vectors, refused := AppendAll(rows, columns);
      if refused.Some? {
        trace := trace + [Refused(t, start, |vectors| + 2, refused.value)];
        return Some(ErrInsert(t, refused.value));
      }
      var reply := env.server.send(calls);
      calls := calls + 1;
      trace := trace + [Sent(t, rows, columns, vectors, start, reply.None?)];
      if reply.Some? {
        return Some(ErrInsert(t, reply.value));
      }
      return None;
    }

    // What other goroutines do to the cache meanwhile.
    method OthersRun()
      modifies this`tableColumns
      ensures Outside() == Meanwhile(env, old(Outside()))
    {
      tableColumns := env.others(calls, tableColumns);
    }

    method InsertNow(t: string, rows: seq<Row>) returns (err: Option<Error>)
      modifies this`tableColumns, this`calls, this`trace
      ensures var o := DoInsert(env, Meanwhile(env, old(Outside())), t, rows);
              Outside() == o.sink && trace == old(trace) + o.effects && err == o.err
    {
      OthersRun();
      err := DoBatchInsert(t, rows);
    }

    method RefreshAndInsertRows(t: string, rows: seq<Row>, first: Error) returns (err: Option<Error>)
      modifies this`tableColumns, this`calls, this`trace
      ensures var o := RefreshAndInsert(env, old(Outside()), t, rows, first);
              Outside() == o.sink && trace == old(trace) + o.effects && err == o.err
    {
      OthersRun();
      var refreshErr := FetchAndStore(t);
      if refreshErr.Some? {
        return Some(first);
      }
      err := InsertNow(t, rows);
    }

    method BatchInsertRows(t: string, rows: seq<Row>) returns (err: Option<Error>)
      modifies this`tableColumns, this`calls, this`trace
      ensures var o := BatchInsert(env, old(Outside()), t, rows);
              Outside() == o.sink && trace == old(trace) + o.effects && err == o.err
    {
      if rows == [] {
        return None;
      }
      err := InsertNow(t, rows);
      if err.Some? && IsSchemaRelated(err.value) {
        err := RefreshAndInsertRows(t, rows, err.value);
      }
    }

    // ----- Flushing -----------------------------------------------------------

    // One round of the retry loop, as it continues a run that began as `all`.
    method TryOnce(t: string, rows: seq<Row>, attempt: nat, ghost insert: Sink -> Outcome, ghost done: seq<Effect>,
                   ghost all: Outcome)
      returns (lastErr: Option<Error>, again: bool, ghost more: seq<Effect>)
      requires IsInserter(env, t, rows, insert)
      requires AttemptsLeft(env.config.maxRetries, t, insert, Outside(), attempt, done, all)
      modifies this`tableColumns, this`calls, this`trace
      ensures trace == old(trace) + more
      ensures again ==> AttemptsLeft(env.config.maxRetries, t, insert, Outside(), attempt + 1, done + more, all)
      ensures !again ==> all == Outcome(Outside(), done + more, lastErr)
    {
      ghost var b := BatchInsert(env, Outside(), t, rows);
      assert b == insert(Outside());
      lastErr := BatchInsertRows(t, rows);
      trace := trace + [Tried(t, lastErr)];
      more := b.effects + [Tried(t, lastErr)];
      again := lastErr.Some? && IsRetryable(lastErr.value) && attempt != env.config.maxRetries;
      if again {
        AfterRound(env.config.maxRetries, t, insert, old(Outside()), attempt, done);
        trace := trace + [Slept(t, BackoffNs(attempt))];
        more := more + [Slept(t, BackoffNs(attempt))];
      }
    }

    method InsertWithRetries(t: string, rows: seq<Row>, ghost insert: Sink -> Outcome, ghost all: Outcome)
      returns (lastErr: Option<Error>, ghost done: seq<Effect>)
      requires IsInserter(env, t, rows, insert)
      requires AttemptsLeft(env.config.maxRetries, t, insert, Outside(), 0, [], all)
      modifies this`tableColumns, this`calls, this`trace
      ensures trace == old(trace) + done
      ensures all == Outcome(Outside(), done, lastErr)
    {
      done := [];
      for attempt := 0 to env.config.maxRetries + 1
        invariant trace == old(trace) + done
        invariant AttemptsLeft(env.config.maxRetries, t, insert, Outside(), attempt, done, all)
      {
        var again;
        ghost var more;
        lastErr, again, more := TryOnce(t, rows, attempt, insert, done, all);
        assert trace == old(trace) + (done + more);
        done := done + more;
        if !again {
          return;
        }
      }
      assert false;
    }

    // The insert with its retries, then the hook, then the failure callback.
    method FlushOneTable(t: string, rows: seq<Row>, ghost flush: Flusher) returns (lastErr: Option<Error>)
      requires env.config.maxRetries >= 0 && IsTableFlusher(env, flush)
      modifies this`tableColumns, this`calls, this`trace
      ensures var o := flush(old(Outside()), t, rows);
              Outside() == o.sink && trace == old(trace) + o.effects && lastErr == o.err
    {
      assert flush(Outside(), t, rows) == FlushTable(env, Outside(), t, rows);
      ghost var insert := Inserter(env, t, rows);
      ghost var done;
      ghost var all := Attempts(env.config.maxRetries, t, insert, Outside(), 0);
      lastErr, done := InsertWithRetries(t, rows, insert, all);
      ghost var a := trace;
      if env.config.hasHook {
        trace := trace + [Reported(t, |rows|, lastErr)];
      }
      if lastErr.Some? && env.config.hasCallback {
        trace := trace + [HandedOff(t, rows, lastErr.value)];
      }
      assert trace == a + Aftermath(env.config, t, rows, lastErr);
    }

    // Every table of the batch in the order given, with the counts of rows that
    // were written and that failed. The flush as a whole is `all`.
    method FlushAll(batch: Buffer, order: seq<string>, ghost flush: Flusher, ghost all: Flushed)
      returns (success: nat, failed: nat, total: nat)
      requires env.config.maxRetries >= 0 && IsTableFlusher(env, flush)
      requires TablesLeft(flush, batch, order, 0, Flushed(Outside(), [], 0, 0, 0), all)
      modifies this`tableColumns, this`calls, this`trace
      ensures Outside() == all.sink && trace == old(trace) + all.effects
      ensures success == all.success && failed == all.failed && total == all.total
    {
      success, failed, total := 0, 0, 0;
      ghost var sofar := Flushed(Outside(), [], 0, 0, 0);
      for i := 0 to |order|
        invariant TablesLeft(flush, batch, order, i, sofar, all)
        invariant Outside() == sofar.sink && trace == old(trace) + sofar.effects
        invariant success == sofar.success && failed == sofar.failed && total == sofar.total
      {
        var t := order[i];
        OneTableLess(flush, batch, order, i, sofar, all);
        sofar := WithTable(sofar, flush(Outside(), t, batch[t]), |batch[t]|);
        var lastErr := FlushOneTable(t, batch[t], flush);
        total := total + |batch[t]|;
        if lastErr.None? {
          success := success + |batch[t]|;
        } else {
          failed := failed + |batch[t]|;
        }
      }
      NoTablesLeft(flush, batch, order, sofar, all);
    }

    // ----- The event loop -----------------------------------------------------

    // Flush the local buffer, which does `all`, and start an empty one.
    method FlushLocal(order: seq<string>, ghost flush: Flusher, ghost all: Flushed)
      requires env.config.maxRetries >= 0 && IsTableFlusher(env, flush)
      requires TablesLeft(flush, buffer, order, 0, Flushed(Outside(), [], 0, 0, 0), all)
      modifies this`tableColumns, this`calls, this`trace, this`batches, this`buffer, this`totalRows, this`firstData,
               this`pending, this`stamps
      ensures View() == Emptied(old(View()), all)
    {
      var success, failed, total := FlushAll(buffer, order, flush, all);
      Reset();
    }

    method Reset()
      modifies this`batches, this`buffer, this`totalRows, this`firstData, this`pending, this`stamps
      ensures batches == old(batches) + [old(buffer)]
      ensures buffer == map[] && totalRows == 0 && firstData == 0 && pending == [] && stamps == []
    {
      batches := batches + [buffer];
      buffer, totalRows, firstData := map[], 0, 0;
      pending, stamps := [], [];
    }

    method Pop() returns (row: Option<Row>)
      requires queue != []
      modifies this`queue, this`taken
      ensures row == old(queue)[0] && queue == old(queue)[1..] && taken == old(taken) + [row]
    {
      row := queue[0];
      queue := queue[1..];
      taken := taken + [row];
    }

    method Append(row: Row, now: int)
      modifies this`buffer, this`totalRows, this`firstData, this`pending, this`stamps
      ensures buffer == Add(old(buffer), row) && totalRows == old(totalRows) + 1
      ensures firstData == if old(totalRows) == 0 then now else old(firstData)
      ensures pending == old(pending) + [row] && stamps == old(stamps) + [now]
    {
      if totalRows == 0 {
        firstData := now;
      }
      buffer := buffer[row.table := (if row.table in buffer then buffer[row.table] else []) + [row]];
      totalRows := totalRows + 1;
      pending, stamps := pending + [row], stamps + [now];
    }

    // Take the row at the head of the queue into the buffer; a nil row vanishes.
    method TakeRow(now: int) returns (isRow: bool)
      requires queue != []
      modifies this`queue, this`taken, this`buffer, this`totalRows, this`firstData, this`pending, this`stamps
      ensures View() == Take(old(View()), now)
      ensures isRow == old(queue)[0].Some?
    {
      var row := Pop();
      if row.None? {
        return false;
      }
      Append(row.value, now);
      return true;
    }

    method OnRow(now: int, order: seq<string>)
      requires Valid() && Step(env, View(), Receive(now, order)).Some?
      modifies this
      ensures Valid() && Step(env, old(View()), Receive(now, order)) == Some(View())
      ensures closed == old(closed)
    {
      WriterRuns.ReachableStep(env, View(), Receive(now, order));
      var isRow := TakeRow(now);
      if isRow && totalRows >= env.config.flushSize {
        AllTablesLeft(TableFlusher(env), Outside(), buffer, order);
        FlushLocal(order, TableFlusher(env), FlushTables(TableFlusher(env), Outside(), buffer, order));
      }
    }

    method OnTick(now: int, order: seq<string>)
      requires Valid() && Step(env, View(), Tick(now, order)).Some?
      modifies this
      ensures Valid() && Step(env, old(View()), Tick(now, order)) == Some(View())
      ensures closed == old(closed)
    {
      WriterRuns.ReachableStep(env, View(), Tick(now, order));
      if totalRows > 0 {
        if ShouldFlush(env.config, totalRows, firstData, now) {
          AllTablesLeft(TableFlusher(env), Outside(), buffer, order);
          FlushLocal(order, TableFlusher(env), FlushTables(TableFlusher(env), Outside(), buffer, order));
        }
      }
    }

    // Read until the queue looks empty, which it does after `found` rows.
    method DrainChannel(now: int, found: nat)
      requires found <= |queue|
      modifies this`queue, this`taken, this`buffer, this`totalRows, this`firstData, this`pending, this`stamps
      ensures View() == Drain(old(View()), found, now)
    {
      for i := 0 to found
        invariant View() == Drain(old(View()), i, now)
      {
        DrainRow(now);
      }
    }

    // As TakeRow, but the drain leaves the time of the first row alone.
    method DrainRow(now: int)
      requires queue != []
      modifies this`queue, this`taken, this`buffer, this`totalRows, this`firstData, this`pending, this`stamps
      ensures View() == Take(old(View()), now).(firstData := old(firstData))
    {
      var keep := firstData;
      var isRow := TakeRow(now);
      firstData := keep;
    }

    method OnDone(now: int, found: nat, order: seq<string>)
      requires Valid() && Step(env, View(), SeeDone(now, found, order)).Some?
      modifies this
      ensures Valid() && Step(env, old(View()), SeeDone(now, found, order)) == Some(View())
      ensures closed == old(closed)
    {
      WriterRuns.ReachableStep(env, View(), SeeDone(now, found, order));
      DrainAndFlush(now, found, order);
    }

    method DrainAndFlush(now: int, found: nat, order: seq<string>)
      requires ValidConfig(env.config) && Step(env, View(), SeeDone(now, found, order)).Some?
      modifies this
      ensures Step(env, old(View()), SeeDone(now, found, order)) == Some(View())
      ensures closed == old(closed)
    {
      DrainChannel(now, found);
      if totalRows > 0 {
        AllTablesLeft(TableFlusher(env), Outside(), buffer, order);
        FlushLocal(order, TableFlusher(env), FlushTables(TableFlusher(env), Outside(), buffer, order));
      }
      exit := Drained;
    }

    // One thing that happens: an event of the loop, or a step of another
    // goroutine.
    method Handle(e: Event)
      requires Valid() && Step(env, View(), e).Some?
      modifies this
      ensures Valid() && Step(env, old(View()), e) == Some(View())
    {
      match e
      case Receive(now, order) => OnRow(now, order);
      case Tick(now, order) => OnTick(now, order);
      case SeeDone(now, found, order) => OnDone(now, found, order);
      case Refresh(t) => var err := RefreshTableSchema(t);
      case _ => OnChannel(e);
    }

    // What happens to the channels alone.
    method OnChannel(e: Event)
      requires Valid() && Step(env, View(), e).Some?
      requires e.Enqueue? || e.CloseDone? || e.CloseIngress? || e.SeeIngressClosed?
      modifies this
      ensures Valid() && Step(env, old(View()), e) == Some(View())
    {
      WriterRuns.ReachableStep(env, View(), e);
      match e
      case Enqueue(row) => queue, accepted := queue + [row], accepted + [row];
      case CloseDone => closed, doneClosed := true, true;
      case CloseIngress => inClosed := true;
      case SeeIngressClosed => exit := Abandoned;
    }

    // The loop over a whole run, with the events in the order in which they
    // happen.
    method ProcessLoop(events: seq<Event>)
      requires Valid() && Exec(env, View(), events).Some?
      modifies this
      ensures Valid() && Exec(env, old(View()), events) == Some(View())
    {
      for i := 0 to |events|
        invariant Valid()
        invariant Exec(env, old(View()), events[..i]) == Some(View())
      {
        assert events[..i + 1][..i] == events[..i];
        RunsHavePrefixes(env, old(View()), events, i + 1);
        Handle(events[i]);
      }
      assert events[..|events|] == events;
    }
  }

  lemma {:induction false} RunsHavePrefixes(env: Env, s: WriterState, events: seq<Event>, n: nat)
    requires ValidConfig(env.config) && n <= |events| && Exec(env, s, events).Some?
    ensures Exec(env, s, events[..n]).Some?
    decreases |events|
  {
    if n == |events| {
      assert events[..n] == events;
    } else {
      var before := events[..|events| - 1];
      RunsHavePrefixes(env, s, before, n);
      assert before[..n] == events[..n];
    }
  }
}
