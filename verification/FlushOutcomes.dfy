// What a flush tells of itself: the hook, the callback, the counts, the errors,
// the waits and the vectors it sends.
module FlushOutcomes {
  import opened Common
  import opened Columns
  import opened InsertErrors
  import opened Backoff
  import opened Flush
  import opened FlushProperties

  // The hook hears the number of rows and the final error of every table, failed
  // or not; the callback comes last, after the hook, with the whole batch and the
  // final error of a failed table.
  lemma OutcomeIsTold(env: Env, sink: Sink, t: string, rows: seq<Row>)
    ensures var o := FlushTable(env, sink, t, rows);
            var n, handed := |o.effects|, o.err.Some? && env.config.hasCallback;
            (handed ==> n >= 1 && o.effects[n - 1] == HandedOff(t, rows, o.err.value))
            && (env.config.hasHook && handed ==> n >= 2 && o.effects[n - 2] == Reported(t, |rows|, o.err))
            && (env.config.hasHook && !handed ==> n >= 1 && o.effects[n - 1] == Reported(t, |rows|, o.err))
  {
    var a := Attempts(env.config.maxRetries, t, Inserter(env, t, rows), sink, 0);
    var after := Aftermath(env.config, t, rows, a.err);
    assert FlushTable(env, sink, t, rows).effects == a.effects + after;
  }

  // ----- The refresh ---------------------------------------------------------

  // A batch insert refreshes the schema and inserts again exactly when the first
  // insert fails on the schema; every other outcome of the first insert stands,
  // and so does its error when the refresh gets no answer.
  lemma RefreshesExactlyWhen(env: Env, sink: Sink, t: string, rows: seq<Row>)
    requires rows != []
    ensures var first := DoInsert(env, Meanwhile(env, sink), t, rows);
            var o := BatchInsert(env, sink, t, rows);
            if first.err.Some? && IsSchemaRelated(first.err.value)
            then
              var n := first.sink.clock;
              first.effects + [Asked(t, n, env.server.describe(n, t))] <= o.effects
              && (env.server.describe(n, t).DescribeFailed? ==>
                    (o.err == first.err && |o.effects| == |first.effects| + 1))
            else o == first
  {
    var first := DoInsert(env, Meanwhile(env, sink), t, rows);
    if first.err.Some? && IsSchemaRelated(first.err.value) {
      var again := RefreshAndInsert(env, first.sink, t, rows, first.err.value);
      RefreshComesFirst(env, first.sink, t, rows, first.err.value);
      assert first.effects + again.effects == first.effects + [again.effects[0]] + again.effects[1..];
    }
  }

  lemma RefreshComesFirst(env: Env, sink: Sink, t: string, rows: seq<Row>, err: Error)
    ensures var o := RefreshAndInsert(env, sink, t, rows, err);
            var reply := env.server.describe(sink.clock, t);
            o.effects != [] && o.effects[0] == Asked(t, sink.clock, reply)
            && (reply.DescribeFailed? ==> o.err == Some(err) && |o.effects| == 1)
  {
  }

  // The schema of a cached table is not asked for.
  lemma CachedIsNotAsked(env: Env, sink: Sink, t: string, rows: seq<Row>)
    ensures (exists e :: e in DoInsert(env, sink, t, rows).effects && e.Asked?) <==> t !in sink.cache
  {
    var o := DoInsert(env, sink, t, rows);
    if t in sink.cache {
      SendBatchShape(env, sink, t, rows, sink.cache[t]);
    } else {
      assert o.effects[0].Asked?;
    }
  }

  // ----- Counts --------------------------------------------------------------

  lemma {:induction false} WholeBatchRows(es: seq<Effect>, t: string, rows: seq<Row>)
    requires WholeBatch(es, t, rows) && Total(es, Acks) <= 1 && Total(es, HandOffs) <= 1
    ensures Total(es, AckedRows) == if Total(es, Acks) == 1 then |rows| else 0
    ensures Total(es, HandedRows) == if Total(es, HandOffs) == 1 then |rows| else 0
  {
    if es != [] {
      assert es[0] in es && forall e :: e in es[1..] ==> e in es;
      WholeBatchRows(es[1..], t, rows);
    }
  }

  // A table's rows are acknowledged or not, and handed over or not, all of them.
  lemma TableRows(env: Env, sink: Sink, t: string, rows: seq<Row>)
    requires env.config.maxRetries >= 0 && rows != []
    ensures var o := FlushTable(env, sink, t, rows);
            Total(o.effects, AckedRows) == (if o.err.None? then |rows| else 0)
            && Total(o.effects, HandedRows) == (if o.err.Some? && env.config.hasCallback then |rows| else 0)
  {
    var o := FlushTable(env, sink, t, rows);
    FlushTableShape(env, sink, t, rows);
    FlushTableWhole(env, sink, t, rows);
    WholeBatchRows(o.effects, t, rows);
  }

  ghost predicate CountsRows(flush: Flusher, buffer: Buffer, hasCallback: bool) {
    forall s, t :: t in buffer ==>
      var o := flush(s, t, buffer[t]);
      Total(o.effects, AckedRows) == (if o.err.None? then |buffer[t]| else 0)
      && (hasCallback ==> Total(o.effects, HandedRows) == (if o.err.Some? then |buffer[t]| else 0))
  }

  lemma {:induction false} TablesCount(flush: Flusher, sink: Sink, buffer: Buffer, order: seq<string>,
                                       hasCallback: bool)
    requires CountsRows(flush, buffer, hasCallback) && forall t :: t in order ==> t in buffer
    ensures var f := FlushTables(flush, sink, buffer, order);
            f.success == Total(f.effects, AckedRows)
            && (hasCallback ==> f.failed == Total(f.effects, HandedRows))
    decreases |order|
  {
    if order != [] {
      var o := flush(sink, order[0], buffer[order[0]]);
      var rest := FlushTables(flush, o.sink, buffer, order[1..]);
      TablesCount(flush, o.sink, buffer, order[1..], hasCallback);
      TotalOfConcat(o.effects, rest.effects, AckedRows);
      TotalOfConcat(o.effects, rest.effects, HandedRows);
    }
  }

  // A flush counts as written exactly the rows of its acknowledged sends, and as
  // failed exactly the rows handed to the callback, if there is one.
  lemma FlushCountsWhatHappened(env: Env, sink: Sink, buffer: Buffer, order: seq<string>)
    requires env.config.maxRetries >= 0 && NoEmptyTable(buffer) && forall t :: t in order ==> t in buffer
    ensures var f := FlushTables(TableFlusher(env), sink, buffer, order);
            f.success == Total(f.effects, AckedRows)
            && (env.config.hasCallback ==> f.failed == Total(f.effects, HandedRows))
  {
    forall s, t | t in buffer
      ensures var o := TableFlusher(env)(s, t, buffer[t]);
              Total(o.effects, AckedRows) == (if o.err.None? then |buffer[t]| else 0)
              && (env.config.hasCallback ==>
                    Total(o.effects, HandedRows) == (if o.err.Some? then |buffer[t]| else 0))
    {
      TableRows(env, s, t, buffer[t]);
    }
    TablesCount(TableFlusher(env), sink, buffer, order, env.config.hasCallback);
  }

  // The DESCRIBEs that were answered.
  function Answered(es: seq<Effect>): nat {
    if es == [] then 0 else (if es[0].Asked? && es[0].reply.Described? then 1 else 0) + Answered(es[1..])
  }

  // The periodic refresh counts the tables whose DESCRIBE was answered.
  lemma {:induction false} RefreshCounts(env: Env, sink: Sink, tables: seq<string>)
    ensures var r := RefreshAll(env, sink, tables); r.success == Answered(r.effects)
    decreases |tables|
  {
    if tables != [] {
      var o := RefreshSchema(env, sink, tables[0]);
      var rest := RefreshAll(env, o.sink, tables[1..]);
      RefreshCounts(env, o.sink, tables[1..]);
      assert (o.effects + rest.effects)[1..] == rest.effects;
    }
  }

  // ----- Errors --------------------------------------------------------------

  // The server's error, wrapped for the table.
  ghost predicate Wrapped(env: Env, t: string, err: Option<Error>) {
    err.Some? ==> exists cause :: ServerSaid(env, t, cause) && err.value == ErrInsert(t, cause)
  }

  lemma InsertWrapped(env: Env, sink: Sink, t: string, rows: seq<Row>)
    ensures Wrapped(env, t, DoInsert(env, sink, t, rows).err)
  {
    if DoInsert(env, sink, t, rows).err.Some? {
      var cause := InsertErrorWrapsTheServers(env, sink, t, rows);
    }
  }

  lemma BatchInsertWrapped(env: Env, sink: Sink, t: string, rows: seq<Row>)
    ensures Wrapped(env, t, BatchInsert(env, sink, t, rows).err)
  {
    if rows != [] {
      var first := DoInsert(env, Meanwhile(env, sink), t, rows);
      InsertWrapped(env, Meanwhile(env, sink), t, rows);
      if first.err.Some? && IsSchemaRelated(first.err.value) {
        var refresh := RefreshSchema(env, Meanwhile(env, first.sink), t);
        InsertWrapped(env, Meanwhile(env, refresh.sink), t, rows);
      }
    }
  }

  lemma {:induction false} AttemptsWrapped(env: Env, maxRetries: int, t: string, insert: Sink -> Outcome, sink: Sink,
                                           attempt: nat)
    requires forall s :: Wrapped(env, t, insert(s).err)
    ensures Wrapped(env, t, Attempts(maxRetries, t, insert, sink, attempt).err)
    decreases maxRetries - attempt
  {
    if attempt < maxRetries {
      AttemptsWrapped(env, maxRetries, t, insert, insert(sink).sink, attempt + 1);
    }
  }

  // A failed table's error, which the hook and the callback get, is an error the
  // server gave to one of the calls, wrapped for the table.
  lemma FlushErrorIsTheServers(env: Env, sink: Sink, t: string, rows: seq<Row>)
    ensures Wrapped(env, t, FlushTable(env, sink, t, rows).err)
  {
    var insert := Inserter(env, t, rows);
    forall s ensures Wrapped(env, t, insert(s).err) { BatchInsertWrapped(env, s, t, rows); }
    AttemptsWrapped(env, env.config.maxRetries, t, insert, sink, 0);
  }

  // ----- Waits ---------------------------------------------------------------

  // The waits of these effects are those between their attempts, the first of
  // which is number `attempt`.
  predicate WaitsBetween(es: seq<Effect>, attempt: nat) {
    |Results(es)| >= 1 && Total(es, WaitedNs) == BackoffSum(attempt, |Results(es)| - 1)
  }

  lemma JoinWaits(es: seq<Effect>, t: string, attempt: nat, rest: seq<Effect>)
    requires |Results(es)| == 1 && Total(es, WaitedNs) == 0 && WaitsBetween(rest, attempt + 1)
    ensures WaitsBetween(es + [Slept(t, BackoffNs(attempt))] + rest, attempt)
  {
    TotalsAround(es, Slept(t, BackoffNs(attempt)), rest);
    ResultsAround(es, Slept(t, BackoffNs(attempt)), rest);
    assert |Results(es) + Results(rest)| == 1 + |Results(rest)|;
  }

  lemma {:induction false} AttemptsWaitExactly(maxRetries: int, t: string, insert: Sink -> Outcome, sink: Sink,
                                               attempt: nat)
    requires attempt <= maxRetries && forall s :: InsertOk(insert(s))
    ensures WaitsBetween(Attempts(maxRetries, t, insert, sink, attempt).effects, attempt)
    decreases maxRetries - attempt
  {
    var b := insert(sink);
    RoundShape(t, b);
    if !Decisive(b.err) && attempt < maxRetries {
      AttemptsWaitExactly(maxRetries, t, insert, b.sink, attempt + 1);
      JoinWaits(Round(t, b), t, attempt, Attempts(maxRetries, t, insert, b.sink, attempt + 1).effects);
    }
  }

  lemma NoMoreWaits(es: seq<Effect>, after: seq<Effect>, attempt: nat)
    requires WaitsBetween(es, attempt) && Total(after, Tries) == Total(after, WaitedNs) == 0
    ensures WaitsBetween(es + after, attempt)
  {
    TotalsAndResults(es, after);
  }

  // A flush waits between two attempts and nowhere else.
  lemma FlushWaits(env: Env, sink: Sink, t: string, rows: seq<Row>)
    requires env.config.maxRetries >= 0 && rows != []
    ensures WaitsBetween(FlushTable(env, sink, t, rows).effects, 0)
  {
    var first: nat := 0;
    var a := Attempts(env.config.maxRetries, t, Inserter(env, t, rows), sink, first);
    var after := Aftermath(env.config, t, rows, a.err);
    InserterOk(env, t, rows);
    AttemptsWaitExactly(env.config.maxRetries, t, Inserter(env, t, rows), sink, first);
    AftermathShape(env.config, t, rows, a.err);
    NoMoreWaits(a.effects, after, first);
    assert FlushTable(env, sink, t, rows).effects == a.effects + after;
  }

  // The waits of n retries, as long as n is at most 34, add up to 2^n - 1 seconds.
  lemma WaitsInSeconds(es: seq<Effect>, n: nat)
    requires WaitsBetween(es, 0) && |Results(es)| == n + 1 && n <= 34
    ensures Total(es, WaitedNs) == (Pow2(n) - 1) * SECOND
  {
    BackoffSumExact(n);
  }

  // ----- Vectors -------------------------------------------------------------

  // In every batch sent, the value at row i and column j is what row i gives for
  // column j.
  lemma SentValue(env: Env, e: Effect, t: string, rows: seq<Row>, i: nat, j: nat)
    requires e.Sent? && FullSend(env, e, t, rows) && i < |rows| && j < |e.columns|
    ensures |e.vectors| == |rows| && |e.vectors[i]| == |e.columns|
    ensures e.vectors[i][j] == ColumnValue(env.lib, rows[i].values, e.columns[j], e.clock + 1 + i)
  {
    assert e.vectors[i] == Vector(env.lib, rows[i], e.columns, e.clock + 1 + i);
  }
}
