// What a flush guarantees about the effects it leaves behind.
module FlushProperties {
  import opened Common
  import opened GoValues
  import opened Columns
  import opened InsertErrors
  import opened Backoff
  import opened Flush
  import opened CallLog

  // ----- Reading effects -----------------------------------------------------

  // What is counted over a list of effects: insert attempts, sends, acknowledged
  // sends and their rows, nanoseconds slept, hook calls, callback calls and their
  // rows.
  datatype Measure = Tries | Sends | Acks | AckedRows | WaitedNs | Reports | HandOffs | HandedRows

  function Weight(e: Effect, m: Measure): nat {
    match m
    case Tries => if e.Tried? then 1 else 0
    case Sends => if e.Sent? then 1 else 0
    case Acks => if e.Sent? && e.acked then 1 else 0
    case AckedRows => if e.Sent? && e.acked then |e.rows| else 0
    case WaitedNs => if e.Slept? then Waited(e.ns) else 0
    case Reports => if e.Reported? then 1 else 0
    case HandOffs => if e.HandedOff? then 1 else 0
    case HandedRows => if e.HandedOff? then |e.rows| else 0
  }

  function Total(es: seq<Effect>, m: Measure): nat {
    if es == [] then 0 else Weight(es[0], m) + Total(es[1..], m)
  }

  lemma {:induction false} TotalOfConcat(a: seq<Effect>, b: seq<Effect>, m: Measure)
    ensures Total(a + b, m) == Total(a, m) + Total(b, m)
  {
    if a == [] {
      assert a + b == b;
    } else {
      assert (a + b)[0] == a[0] && (a + b)[1..] == a[1..] + b;
      TotalOfConcat(a[1..], b, m);
    }
  }

  lemma TotalsOfConcat(a: seq<Effect>, b: seq<Effect>)
    ensures forall m :: Total(a + b, m) == Total(a, m) + Total(b, m)
  {
    forall m ensures Total(a + b, m) == Total(a, m) + Total(b, m) { TotalOfConcat(a, b, m); }
  }

  lemma TotalOfOne(e: Effect)
    ensures forall m :: Total([e], m) == Weight(e, m)
  {
    assert [e][1..] == [];
  }

  // One vector a row, in order, each with one value per column.
  function Vectors(lib: ColumnLib, rows: seq<Row>, columns: seq<TableColumn>, clock: nat): (vs: seq<seq<Val>>)
    ensures |vs| == |rows|
  {
    seq(|rows|, i requires 0 <= i < |rows| => Vector(lib, rows[i], columns, clock + i))
  }

  // Every send in es is for t, carries all of rows in order, one vector a row,
  // each with one value per column of the schema it was built with.
  predicate FullSend(env: Env, e: Effect, t: string, rows: seq<Row>) {
    e.Sent? ==> e.table == t && e.rows == rows && e.vectors == Vectors(env.lib, rows, e.columns, e.clock + 1)
  }

  predicate OnlyFullSends(env: Env, es: seq<Effect>, t: string, rows: seq<Row>) {
    forall e :: e in es ==> e.table == t && FullSend(env, e, t, rows)
  }

  // ----- One insert ----------------------------------------------------------

  lemma FirstVector(lib: ColumnLib, rows: seq<Row>, columns: seq<TableColumn>, clock: nat)
    requires rows != []
    ensures Vectors(lib, rows, columns, clock)
         == [Vector(lib, rows[0], columns, clock)] + Vectors(lib, rows[1..], columns, clock + 1)
  {
  }

  lemma {:induction false} AppendRowsShape(env: Env, clock: nat, rows: seq<Row>, columns: seq<TableColumn>,
                                           before: seq<seq<Val>>)
    ensures var a := AppendRows(env, clock, rows, columns, before);
            a.err.None? ==> a.vectors == before + Vectors(env.lib, rows, columns, clock)
    decreases |rows|
  {
    if rows != [] && env.server.append(clock).None? {
      var v := Vector(env.lib, rows[0], columns, clock);
      AppendRowsShape(env, clock + 1, rows[1..], columns, before + [v]);
      FirstVector(env.lib, rows, columns, clock);
      assert before + ([v] + Vectors(env.lib, rows[1..], columns, clock + 1))
          == before + [v] + Vectors(env.lib, rows[1..], columns, clock + 1);
    }
  }

  // The cache entry a later insert of t would use.
  function Cached(sink: Sink, t: string): Option<seq<TableColumn>> {
    if t in sink.cache then Some(sink.cache[t]) else None
  }

  lemma SendBatchShape(env: Env, sink: Sink, t: string, rows: seq<Row>, columns: seq<TableColumn>)
    ensures var o := SendBatch(env, sink, t, rows, columns);
            o.sink.cache == sink.cache
            && |o.effects| == 1 && o.effects[0].table == t
            && (o.effects[0].Refused? || o.effects[0].Sent?)
            && (o.effects[0].Refused? ==> o.err.Some?)
            && (o.effects[0].Sent? ==>
                  (FullSend(env, o.effects[0], t, rows) && o.effects[0].columns == columns
                   && (o.effects[0].acked <==> o.err.None?)))
  {
    AppendRowsShape(env, sink.clock + 1, rows, columns, []);
  }

  lemma SendCounts(env: Env, sink: Sink, t: string, rows: seq<Row>, columns: seq<TableColumn>)
    ensures var o := SendBatch(env, sink, t, rows, columns);
            Total(o.effects, Tries) == Total(o.effects, WaitedNs) == 0
            && Total(o.effects, Reports) == Total(o.effects, HandOffs) == 0
            && Total(o.effects, Sends) <= 1
            && Total(o.effects, Acks) == (if o.err.None? then 1 else 0)
  {
    var o := SendBatch(env, sink, t, rows, columns);
    SendBatchShape(env, sink, t, rows, columns);
    assert o.effects == [o.effects[0]];
    TotalOfOne(o.effects[0]);
  }

  // An insert sends at most once, the whole batch, built with the schema now
  // cached, and the send was acknowledged exactly when the insert succeeds.
  lemma DoInsertShape(env: Env, sink: Sink, t: string, rows: seq<Row>)
    ensures var o := DoInsert(env, sink, t, rows);
            OnlyFullSends(env, o.effects, t, rows)
            && Total(o.effects, Tries) == Total(o.effects, WaitedNs) == 0
            && Total(o.effects, Reports) == Total(o.effects, HandOffs) == 0
            && Total(o.effects, Sends) <= 1
            && Total(o.effects, Acks) == (if o.err.None? then 1 else 0)
            && (forall e :: e in o.effects && e.Sent? ==> Cached(o.sink, t) == Some(e.columns))
    ensures var o := DoInsert(env, sink, t, rows); Logged(env, o.effects, sink.clock, o.sink.clock)
  {
    InsertLogged(env, sink, t, rows);
    var g := GetColumns(env, sink, t);
    AskedCountsNothing(g.effects);
    if g.columns.Ok? {
      var s := SendBatch(env, g.sink, t, rows, g.columns.value);
      SendBatchShape(env, g.sink, t, rows, g.columns.value);
      SendCounts(env, g.sink, t, rows, g.columns.value);
      TotalsOfConcat(g.effects, s.effects);
    }
  }

  lemma AskedCountsNothing(es: seq<Effect>)
    requires es == [] || (|es| == 1 && es[0].Asked?)
    ensures forall m :: Total(es, m) == 0
  {
    if es != [] {
      assert es == [es[0]];
      TotalOfOne(es[0]);
    }
  }

  // The server gave this error to one of the calls an insert makes.
  ghost predicate ServerSaid(env: Env, t: string, err: Error) {
    (exists k :: env.server.describe(k, t) == DescribeFailed(err))
    || (exists k :: env.server.prepare(k) == Some(err))
    || (exists k :: env.server.append(k) == Some(err))
    || (exists k :: env.server.send(k) == Some(err))
  }

  lemma {:induction false} AppendErrorIsTheServers(env: Env, clock: nat, rows: seq<Row>, columns: seq<TableColumn>,
                                                   before: seq<seq<Val>>)
    ensures var a := AppendRows(env, clock, rows, columns, before);
            a.err.Some? ==> exists k :: env.server.append(k) == a.err
    decreases |rows|
  {
    if rows != [] && env.server.append(clock).None? {
      AppendErrorIsTheServers(env, clock + 1, rows[1..], columns, before + [Vector(env.lib, rows[0], columns, clock)]);
    }
  }

  // An insert fails with an error the server gave, wrapped for its table, so the
  // cause can still be found in what the failure callback receives, and it is
  // classified as the cause is.
  lemma InsertErrorWrapsTheServers(env: Env, sink: Sink, t: string, rows: seq<Row>) returns (cause: Error)
    requires DoInsert(env, sink, t, rows).err.Some?
    ensures ServerSaid(env, t, cause) && DoInsert(env, sink, t, rows).err == Some(ErrInsert(t, cause))
    ensures IsRetryable(DoInsert(env, sink, t, rows).err.value) <==> IsRetryable(cause)
  {
    var g := GetColumns(env, sink, t);
    if g.columns.Err? {
      cause := g.columns.error;
      assert env.server.describe(sink.clock, t) == DescribeFailed(cause);
    } else {
      var c := g.sink.clock;
      var a := AppendRows(env, c + 1, rows, g.columns.value, []);
      AppendErrorIsTheServers(env, c + 1, rows, g.columns.value, []);
      cause := if env.server.prepare(c).Some? then env.server.prepare(c).value
               else if a.err.Some? then a.err.value
               else env.server.send(a.clock).value;
    }
    WrappingKeepsClass(t, cause);
  }

  // ----- An insert with its schema refresh ----------------------------------

  lemma RefreshAndInsertShape(env: Env, sink: Sink, t: string, rows: seq<Row>, err: Error)
    ensures var o := RefreshAndInsert(env, sink, t, rows, err);
            OnlyFullSends(env, o.effects, t, rows)
            && Total(o.effects, Tries) == Total(o.effects, WaitedNs) == 0
            && Total(o.effects, Reports) == Total(o.effects, HandOffs) == 0
            && Total(o.effects, Sends) <= 1
            && Total(o.effects, Acks) == (if o.err.None? then 1 else 0)
  {
    var refresh := RefreshSchema(env, Meanwhile(env, sink), t);
    AskedCountsNothing(refresh.effects);
    if refresh.err.None? {
      var second := DoInsert(env, Meanwhile(env, refresh.sink), t, rows);
      DoInsertShape(env, Meanwhile(env, refresh.sink), t, rows);
      TotalsOfConcat(refresh.effects, second.effects);
    }
  }

  // A batch insert sends the whole batch at most twice, and exactly one of its
  // sends was acknowledged if it succeeds, none if it fails, whatever other
  // goroutines do to the cache meanwhile.
  lemma BatchInsertShape(env: Env, sink: Sink, t: string, rows: seq<Row>)
    requires rows != []
    ensures var o := BatchInsert(env, sink, t, rows);
            OnlyFullSends(env, o.effects, t, rows)
            && Total(o.effects, Tries) == Total(o.effects, WaitedNs) == 0
            && Total(o.effects, Reports) == Total(o.effects, HandOffs) == 0
            && Total(o.effects, Sends) <= 2
            && Total(o.effects, Acks) == (if o.err.None? then 1 else 0)
    ensures var o := BatchInsert(env, sink, t, rows); Logged(env, o.effects, sink.clock, o.sink.clock)
  {
    BatchInsertLogged(env, sink, t, rows);
    var first := DoInsert(env, Meanwhile(env, sink), t, rows);
    DoInsertShape(env, Meanwhile(env, sink), t, rows);
    if first.err.Some? && IsSchemaRelated(first.err.value) {
      var again := RefreshAndInsert(env, first.sink, t, rows, first.err.value);
      RefreshAndInsertShape(env, first.sink, t, rows, first.err.value);
      TotalsOfConcat(first.effects, again.effects);
    }
  }

  // No other goroutine touches the cache during a flush.
  ghost predicate Alone(env: Env) {
    forall n, cache :: env.others(n, cache) == cache
  }

  lemma AloneMeanwhile(env: Env, sink: Sink)
    requires Alone(env)
    ensures Meanwhile(env, sink) == sink
  {
  }

  // Every send in es was built with these columns.
  predicate BuiltWith(es: seq<Effect>, columns: seq<TableColumn>) {
    forall e :: e in es && e.Sent? ==> e.columns == columns
  }

  lemma InsertUsesCached(env: Env, sink: Sink, t: string, rows: seq<Row>)
    requires t in sink.cache
    ensures var o := DoInsert(env, sink, t, rows);
            Cached(o.sink, t) == Cached(sink, t) && BuiltWith(o.effects, sink.cache[t])
  {
    SendBatchShape(env, sink, t, rows, sink.cache[t]);
  }

  lemma RefreshedInsert(env: Env, sink: Sink, t: string, rows: seq<Row>, err: Error)
    requires Alone(env) && env.server.describe(sink.clock, t).Described?
    ensures var reply := env.server.describe(sink.clock, t);
            var o := RefreshAndInsert(env, sink, t, rows, err);
            Cached(o.sink, t) == Some(ParseSchema(env.lib, reply.rows))
            && o.effects != [] && o.effects[0] == Asked(t, sink.clock, reply)
            && BuiltWith(o.effects, ParseSchema(env.lib, reply.rows))
  {
    var refresh := RefreshSchema(env, sink, t);
    AloneMeanwhile(env, sink);
    AloneMeanwhile(env, refresh.sink);
    InsertUsesCached(env, refresh.sink, t, rows);
  }

  // After a schema mismatch the second insert uses the very schema its refresh
  // fetched: the order-preserving parse of that DESCRIBE.
  lemma SecondInsertUsesRefreshedSchema(env: Env, sink: Sink, t: string, rows: seq<Row>)
    requires Alone(env) && rows != []
    requires var first := DoInsert(env, sink, t, rows);
             first.err.Some? && IsSchemaRelated(first.err.value)
             && env.server.describe(first.sink.clock, t).Described?
    ensures var first := DoInsert(env, sink, t, rows);
            var reply := env.server.describe(first.sink.clock, t);
            var o := BatchInsert(env, sink, t, rows);
            Cached(o.sink, t) == Some(ParseSchema(env.lib, reply.rows))
            && first.effects + [Asked(t, first.sink.clock, reply)] <= o.effects
            && BuiltWith(o.effects[|first.effects|..], ParseSchema(env.lib, reply.rows))
  {
    var first := DoInsert(env, sink, t, rows);
    var again := RefreshAndInsert(env, first.sink, t, rows, first.err.value);
    AloneMeanwhile(env, sink);
    RefreshedInsert(env, first.sink, t, rows, first.err.value);
    assert BatchInsert(env, sink, t, rows).effects == first.effects + again.effects;
    assert again.effects == [again.effects[0]] + again.effects[1..];
  }

  // A batch insert changes the cached schema of its own table only, forgets no
  // table, and anything it caches is the parse of a DESCRIBE it received.
  predicate CacheGrowsFrom(env: Env, before: Sink, after: Sink, t: string, es: seq<Effect>) {
    (forall u :: u in before.cache ==> u in after.cache)
    && (forall u :: u in after.cache && u != t ==> u in before.cache && after.cache[u] == before.cache[u])
    && (t in after.cache && Cached(before, t) != Some(after.cache[t]) ==>
          exists e :: e in es && e.Asked? && e.table == t && e.reply.Described?
                   && after.cache[t] == ParseSchema(env.lib, e.reply.rows))
  }

  lemma DoInsertCache(env: Env, sink: Sink, t: string, rows: seq<Row>)
    ensures var o := DoInsert(env, sink, t, rows); CacheGrowsFrom(env, sink, o.sink, t, o.effects)
  {
    var g := GetColumns(env, sink, t);
    if g.columns.Ok? {
      SendBatchShape(env, g.sink, t, rows, g.columns.value);
      if t !in sink.cache {
        assert g.effects[0] in DoInsert(env, sink, t, rows).effects;
      }
    }
  }

  lemma CacheGrowsOn(env: Env, a: Sink, b: Sink, c: Sink, t: string, es: seq<Effect>, more: seq<Effect>)
    requires CacheGrowsFrom(env, a, b, t, es) && CacheGrowsFrom(env, b, c, t, more)
    ensures CacheGrowsFrom(env, a, c, t, es + more)
  {
  }

  lemma RefreshCache(env: Env, sink: Sink, t: string)
    ensures var o := RefreshSchema(env, sink, t); CacheGrowsFrom(env, sink, o.sink, t, o.effects)
  {
    var o := RefreshSchema(env, sink, t);
    assert o.effects[0] in o.effects;
  }

  lemma BatchInsertCache(env: Env, sink: Sink, t: string, rows: seq<Row>)
    requires Alone(env)
    ensures var o := BatchInsert(env, sink, t, rows); CacheGrowsFrom(env, sink, o.sink, t, o.effects)
  {
    if rows != [] {
      var first := DoInsert(env, sink, t, rows);
      AloneMeanwhile(env, sink);
      DoInsertCache(env, sink, t, rows);
      if first.err.Some? && IsSchemaRelated(first.err.value) {
        var again := RefreshAndInsert(env, first.sink, t, rows, first.err.value);
        RefreshAndInsertCache(env, first.sink, t, rows, first.err.value);
        CacheGrowsOn(env, sink, first.sink, again.sink, t, first.effects, again.effects);
      }
    }
  }

  lemma RefreshAndInsertCache(env: Env, sink: Sink, t: string, rows: seq<Row>, err: Error)
    requires Alone(env)
    ensures var o := RefreshAndInsert(env, sink, t, rows, err); CacheGrowsFrom(env, sink, o.sink, t, o.effects)
  {
    var refresh := RefreshSchema(env, sink, t);
    AloneMeanwhile(env, sink);
    AloneMeanwhile(env, refresh.sink);
    RefreshCache(env, sink, t);
    if refresh.err.None? {
      var second := DoInsert(env, refresh.sink, t, rows);
      DoInsertCache(env, refresh.sink, t, rows);
      CacheGrowsOn(env, sink, refresh.sink, second.sink, t, refresh.effects, second.effects);
    }
  }

  predicate Distinct(order: seq<string>) {
    forall i, j :: 0 <= i < j < |order| ==> order[i] != order[j]
  }

  // Refreshing all tables asks once about each and leaves every other one alone;
  // a table whose DESCRIBE fails keeps the schema it had.
  lemma {:induction false} RefreshAllShape(env: Env, sink: Sink, tables: seq<string>, u: string) returns (k: nat)
    requires Distinct(tables)
    ensures var r := RefreshAll(env, sink, tables);
            r.success <= |tables| && |r.effects| == |tables|
            && (u !in tables ==> Cached(r.sink, u) == Cached(sink, u))
            && (u in tables ==> Asked(u, k, env.server.describe(k, u)) in r.effects)
            && (u in tables ==> Cached(r.sink, u) == match env.server.describe(k, u)
                  case Described(rows, _) => Some(ParseSchema(env.lib, rows))
                  case DescribeFailed(_) => Cached(sink, u))
    decreases |tables|
  {
    k := sink.clock;
    if tables != [] {
      var o := RefreshSchema(env, sink, tables[0]);
      var k' := RefreshAllShape(env, o.sink, tables[1..], u);
      if u != tables[0] { k := k'; }
    }
  }

  // ----- The retry loop ------------------------------------------------------

  // The results of the insert attempts, in order.
  function Results(es: seq<Effect>): seq<Option<Error>> {
    if es == [] then []
    else (if es[0].Tried? then [es[0].err] else []) + Results(es[1..])
  }

  lemma {:induction false} ResultsOfConcat(a: seq<Effect>, b: seq<Effect>)
    ensures Results(a + b) == Results(a) + Results(b)
  {
    if a == [] {
      assert a + b == b;
    } else {
      assert (a + b)[0] == a[0] && (a + b)[1..] == a[1..] + b;
      ResultsOfConcat(a[1..], b);
    }
  }

  lemma {:induction false} NoTriesNoResults(es: seq<Effect>)
    requires Total(es, Tries) == 0
    ensures Results(es) == []
  {
    if es != [] { NoTriesNoResults(es[1..]); }
  }

  // A result after which nothing is retried.
  predicate Decisive(err: Option<Error>) {
    err.None? || !IsRetryable(err.value)
  }

  // err is the first decisive one of the results, or the last of `limit` many.
  predicate FirstDecisive(results: seq<Option<Error>>, err: Option<Error>, limit: int) {
    1 <= |results| <= limit
    && results[|results| - 1] == err
    && (forall i :: 0 <= i < |results| - 1 ==> !Decisive(results[i]))
    && (Decisive(err) || |results| == limit)
  }

  predicate AttemptsOk(o: Outcome, left: int) {
    FirstDecisive(Results(o.effects), o.err, left)
    && Total(o.effects, Sends) <= 2 * |Results(o.effects)|
    && Total(o.effects, Acks) == (if o.err.None? then 1 else 0)
    && Total(o.effects, Reports) == Total(o.effects, HandOffs) == 0
  }

  // What the retry loop needs of one insert.
  predicate InsertOk(o: Outcome) {
    Total(o.effects, Tries) == Total(o.effects, WaitedNs) == 0
    && Total(o.effects, Reports) == Total(o.effects, HandOffs) == 0
    && Total(o.effects, Sends) <= 2
    && Total(o.effects, Acks) == (if o.err.None? then 1 else 0)
  }

  // One round of the loop: an insert and its result.
  function Round(t: string, o: Outcome): seq<Effect> {
    o.effects + [Tried(t, o.err)]
  }

  lemma RoundShape(t: string, o: Outcome)
    requires InsertOk(o)
    ensures var es := Round(t, o);
            Results(es) == [o.err]
            && Total(es, Sends) <= 2 && Total(es, Acks) == (if o.err.None? then 1 else 0)
            && Total(es, Reports) == Total(es, HandOffs) == Total(es, WaitedNs) == 0
  {
    var tried := Tried(t, o.err);
    NoTriesNoResults(o.effects);
    TotalsOfConcat(o.effects, [tried]);
    ResultsOfConcat(o.effects, [tried]);
    TotalOfOne(tried);
    assert Results([tried]) == [o.err] by { assert [tried][1..] == []; }
  }

  lemma FullConcat(env: Env, a: seq<Effect>, b: seq<Effect>, t: string, rows: seq<Row>)
    requires OnlyFullSends(env, a, t, rows) && OnlyFullSends(env, b, t, rows)
    ensures OnlyFullSends(env, a + b, t, rows)
  {
  }

  ghost predicate AlwaysFull(env: Env, insert: Sink -> Outcome, t: string, rows: seq<Row>) {
    forall s :: OnlyFullSends(env, insert(s).effects, t, rows)
  }

  lemma {:induction false} AttemptsSendFull(env: Env, maxRetries: int, insert: Sink -> Outcome, sink: Sink,
                                            t: string, rows: seq<Row>, attempt: nat)
    requires AlwaysFull(env, insert, t, rows)
    ensures OnlyFullSends(env, Attempts(maxRetries, t, insert, sink, attempt).effects, t, rows)
    decreases maxRetries - attempt
  {
    var b := insert(sink);
    var es := Round(t, b);
    FullConcat(env, b.effects, [Tried(t, b.err)], t, rows);
    if !Decisive(b.err) && attempt < maxRetries {
      var slept := [Slept(t, BackoffNs(attempt))];
      AttemptsSendFull(env, maxRetries, insert, b.sink, t, rows, attempt + 1);
      FullConcat(env, es, slept, t, rows);
      FullConcat(env, es + slept, Attempts(maxRetries, t, insert, b.sink, attempt + 1).effects, t, rows);
    }
  }

  lemma TotalsAround(a: seq<Effect>, e: Effect, b: seq<Effect>)
    ensures forall m :: Total(a + [e] + b, m) == Total(a, m) + Weight(e, m) + Total(b, m)
  {
    forall m ensures Total(a + [e] + b, m) == Total(a, m) + Weight(e, m) + Total(b, m) {
      TotalOfConcat(a + [e], b, m);
      TotalOfConcat(a, [e], m);
      assert [e][1..] == [];
    }
  }

  lemma ResultsAround(a: seq<Effect>, e: Effect, b: seq<Effect>)
    requires !e.Tried?
    ensures Results(a + [e] + b) == Results(a) + Results(b)
  {
    ResultsOfOne(e);
    ResultsOfConcat(a, [e]);
    ResultsOfConcat(a + [e], b);
    assert Results(a) + [] == Results(a);
  }

  lemma ResultsOfOne(e: Effect)
    ensures Results([e]) == if e.Tried? then [e.err] else []
  {
    assert [e][1..] == [];
  }

  // A failed round worth retrying, a wait and the attempts after it.
  lemma JoinRound(es: seq<Effect>, first: Option<Error>, slept: Effect, rest: Outcome, left: int)
    requires Results(es) == [first] && !Decisive(first) && slept.Slept?
    requires Total(es, Sends) <= 2 && Total(es, Acks) == Total(es, Reports) == Total(es, HandOffs) == 0
    requires AttemptsOk(rest, left)
    ensures AttemptsOk(Outcome(rest.sink, es + [slept] + rest.effects, rest.err), left + 1)
  {
    TotalsAround(es, slept, rest.effects);
    ResultsAround(es, slept, rest.effects);
    FirstDecisiveAfter(first, Results(rest.effects), rest.err, left);
  }

  // Whatever the insert, the attempts stop at the first decisive result or after
  // the allowed number, and exactly one of their sends was acknowledged if they
  // succeed, none if they fail.
  lemma {:induction false} AttemptsEnd(maxRetries: int, t: string, insert: Sink -> Outcome, sink: Sink, attempt: nat)
    requires attempt <= maxRetries && forall s :: InsertOk(insert(s))
    ensures AttemptsOk(Attempts(maxRetries, t, insert, sink, attempt), maxRetries - attempt + 1)
    decreases maxRetries - attempt
  {
    var b := insert(sink);
    RoundShape(t, b);
    if !Decisive(b.err) && attempt < maxRetries {
      var rest := Attempts(maxRetries, t, insert, b.sink, attempt + 1);
      AttemptsEnd(maxRetries, t, insert, b.sink, attempt + 1);
      JoinRound(Round(t, b), b.err, Slept(t, BackoffNs(attempt)), rest, maxRetries - attempt);
    }
  }

  // And the waits between them add up to less than 2^maxRetries seconds.
  lemma {:induction false} AttemptsWait(maxRetries: int, t: string, insert: Sink -> Outcome, sink: Sink, attempt: nat)
    requires attempt <= maxRetries && forall s :: InsertOk(insert(s))
    ensures Total(Attempts(maxRetries, t, insert, sink, attempt).effects, WaitedNs)
         <= (Pow2(maxRetries) - Pow2(attempt)) * SECOND
    decreases maxRetries - attempt
  {
    var b := insert(sink);
    RoundShape(t, b);
    Pow2Monotone(attempt, maxRetries);
    if !Decisive(b.err) && attempt < maxRetries {
      AttemptsWait(maxRetries, t, insert, b.sink, attempt + 1);
      TotalsAround(Round(t, b), Slept(t, BackoffNs(attempt)),
        Attempts(maxRetries, t, insert, b.sink, attempt + 1).effects);
      BackoffBounded(attempt);
    }
  }

  lemma AttemptsShape(maxRetries: int, t: string, insert: Sink -> Outcome, sink: Sink, attempt: nat)
    requires attempt <= maxRetries && forall s :: InsertOk(insert(s))
    ensures AttemptsOk(Attempts(maxRetries, t, insert, sink, attempt), maxRetries - attempt + 1)
    ensures Total(Attempts(maxRetries, t, insert, sink, attempt).effects, WaitedNs)
         <= (Pow2(maxRetries) - Pow2(attempt)) * SECOND
  {
    AttemptsEnd(maxRetries, t, insert, sink, attempt);
    AttemptsWait(maxRetries, t, insert, sink, attempt);
  }

  lemma FirstDecisiveAfter(first: Option<Error>, results: seq<Option<Error>>, err: Option<Error>, limit: int)
    requires !Decisive(first) && FirstDecisive(results, err, limit)
    ensures FirstDecisive([first] + results, err, limit + 1)
  {
  }

  // ----- One table -----------------------------------------------------------

  lemma InserterOk(env: Env, t: string, rows: seq<Row>)
    requires rows != []
    ensures forall s :: InsertOk(Inserter(env, t, rows)(s))
    ensures AlwaysFull(env, Inserter(env, t, rows), t, rows)
  {
    forall s
      ensures InsertOk(Inserter(env, t, rows)(s)) && OnlyFullSends(env, Inserter(env, t, rows)(s).effects, t, rows)
    {
      BatchInsertShape(env, s, t, rows);
    }
  }

  // A table's flush makes at most maxRetries + 1 attempts and twice as many
  // sends, all of the whole batch; its result is the first decisive one; one
  // send was acknowledged if it succeeds and none if it fails; it waits less than
  // 2^maxRetries seconds; the hook hears of it once, and after that the
  // callback gets the whole batch once if and only if it failed.
  lemma FlushTableShape(env: Env, sink: Sink, t: string, rows: seq<Row>)
    requires env.config.maxRetries >= 0 && rows != []
    ensures var o := FlushTable(env, sink, t, rows);
            OnlyFullSends(env, o.effects, t, rows)
            && FirstDecisive(Results(o.effects), o.err, env.config.maxRetries + 1)
            && Total(o.effects, Sends) <= 2 * |Results(o.effects)|
            && Total(o.effects, Acks) == (if o.err.None? then 1 else 0)
            && Total(o.effects, Reports) == (if env.config.hasHook then 1 else 0)
            && Total(o.effects, HandOffs) == (if o.err.Some? && env.config.hasCallback then 1 else 0)
            && Total(o.effects, WaitedNs) <= (Pow2(env.config.maxRetries) - 1) * SECOND
    ensures var o := FlushTable(env, sink, t, rows); Logged(env, o.effects, sink.clock, o.sink.clock)
  {
    FlushTableLogged(env, sink, t, rows);
    var insert := Inserter(env, t, rows);
    var a := Attempts(env.config.maxRetries, t, insert, sink, 0);
    var after := Aftermath(env.config, t, rows, a.err);
    InserterOk(env, t, rows);
    AttemptsShape(env.config.maxRetries, t, insert, sink, 0);
    AttemptsSendFull(env, env.config.maxRetries, insert, sink, t, rows, 0);
    AftermathShape(env.config, t, rows, a.err);
    FullConcat(env, a.effects, after, t, rows);
    TotalsAndResults(a.effects, after);
    assert FlushTable(env, sink, t, rows) == Outcome(a.sink, a.effects + after, a.err);
  }

  lemma TotalsAndResults(a: seq<Effect>, after: seq<Effect>)
    requires Total(after, Tries) == 0
    ensures forall m :: Total(a + after, m) == Total(a, m) + Total(after, m)
    ensures Results(a + after) == Results(a)
  {
    TotalsOfConcat(a, after);
    ResultsOfConcat(a, after);
    NoTriesNoResults(after);
  }

  lemma AftermathShape(config: WriterConfig, t: string, rows: seq<Row>, err: Option<Error>)
    ensures var es := Aftermath(config, t, rows, err);
            (forall e :: e in es ==> e.table == t && !e.Sent?)
            && Total(es, Tries) == Total(es, Sends) == Total(es, Acks) == Total(es, WaitedNs) == 0
            && Total(es, Reports) == (if config.hasHook then 1 else 0)
            && Total(es, HandOffs) == (if err.Some? && config.hasCallback then 1 else 0)
  {
    var a := if config.hasHook then [Reported(t, |rows|, err)] else [];
    var b := if err.Some? && config.hasCallback then [HandedOff(t, rows, err.value)] else [];
    TotalsOfConcat(a, b);
    if a != [] { TotalOfOne(a[0]); }
    if b != [] { TotalOfOne(b[0]); }
  }

  // The rows of t that left the writer for good, in order: those of acknowledged
  // sends and those handed to the failure callback.
  function Settled(es: seq<Effect>, t: string): seq<Row> {
    if es == [] then []
    else
      (if es[0].table == t && ((es[0].Sent? && es[0].acked) || es[0].HandedOff?) then es[0].rows else [])
      + Settled(es[1..], t)
  }

  lemma {:induction false} SettledOfConcat(a: seq<Effect>, b: seq<Effect>, t: string)
    ensures Settled(a + b, t) == Settled(a, t) + Settled(b, t)
  {
    if a == [] {
      assert a + b == b;
    } else {
      assert (a + b)[0] == a[0] && (a + b)[1..] == a[1..] + b;
      SettledOfConcat(a[1..], b, t);
    }
  }

  lemma {:induction false} SettledElsewhere(es: seq<Effect>, t: string)
    requires forall e :: e in es ==> e.table != t
    ensures Settled(es, t) == []
  {
    if es != [] { SettledElsewhere(es[1..], t); }
  }

  // Whatever leaves the writer in es leaves as the whole batch.
  predicate WholeBatch(es: seq<Effect>, t: string, rows: seq<Row>) {
    forall e :: e in es ==> e.table == t && (e.Sent? || e.HandedOff? ==> e.rows == rows)
  }

  // Whole batches settle at most as often as they were acknowledged or handed
  // off.
  lemma {:induction false} SettledOnce(es: seq<Effect>, t: string, rows: seq<Row>)
    requires WholeBatch(es, t, rows) && Total(es, Acks) + Total(es, HandOffs) <= 1
    ensures Settled(es, t) == if Total(es, Acks) + Total(es, HandOffs) == 1 then rows else []
  {
    if es != [] {
      SettledOnce(es[1..], t, rows);
    }
  }

  lemma AttemptsHandNothingOff(es: seq<Effect>)
    requires Total(es, HandOffs) == 0
    ensures forall e :: e in es ==> !e.HandedOff?
  {
    if es != [] && !es[0].HandedOff? {
      AttemptsHandNothingOff(es[1..]);
    }
  }

  // Whatever of a flush leaves the writer leaves as the whole batch.
  lemma FlushTableWhole(env: Env, sink: Sink, t: string, rows: seq<Row>)
    requires env.config.maxRetries >= 0 && rows != []
    ensures WholeBatch(FlushTable(env, sink, t, rows).effects, t, rows)
  {
    var a := Attempts(env.config.maxRetries, t, Inserter(env, t, rows), sink, 0);
    FlushTableShape(env, sink, t, rows);
    InserterOk(env, t, rows);
    AttemptsShape(env.config.maxRetries, t, Inserter(env, t, rows), sink, 0);
    AttemptsHandNothingOff(a.effects);
  }

  // A table's whole batch settles exactly once, unless it failed and there is no
  // callback to take it.
  lemma FlushTableSettles(env: Env, sink: Sink, t: string, rows: seq<Row>)
    requires env.config.maxRetries >= 0 && rows != []
    ensures var o := FlushTable(env, sink, t, rows);
            Settled(o.effects, t) == if o.err.None? || env.config.hasCallback then rows else []
  {
    FlushTableShape(env, sink, t, rows);
    FlushTableWhole(env, sink, t, rows);
    SettledOnce(FlushTable(env, sink, t, rows).effects, t, rows);
  }

  // ----- All tables ----------------------------------------------------------

  function OfTable(es: seq<Effect>, t: string): seq<Effect> {
    if es == [] then []
    else (if es[0].table == t then [es[0]] else []) + OfTable(es[1..], t)
  }

  lemma {:induction false} OfTableConcat(a: seq<Effect>, b: seq<Effect>, t: string)
    ensures OfTable(a + b, t) == OfTable(a, t) + OfTable(b, t)
  {
    if a == [] {
      assert a + b == b;
    } else {
      assert (a + b)[0] == a[0] && (a + b)[1..] == a[1..] + b;
      OfTableConcat(a[1..], b, t);
      var head := if a[0].table == t then [a[0]] else [];
      assert head + (OfTable(a[1..], t) + OfTable(b, t)) == (head + OfTable(a[1..], t)) + OfTable(b, t);
    }
  }

  lemma {:induction false} OfTableAllOrNothing(es: seq<Effect>, t: string, own: string)
    requires forall e :: e in es ==> e.table == own
    ensures OfTable(es, t) == if t == own then es else []
  {
    if es != [] {
      OfTableAllOrNothing(es[1..], t, own);
      if t == own { assert es == [es[0]] + es[1..]; }
    }
  }

  predicate NoEmptyTable(buffer: Buffer) {
    forall t :: t in buffer ==> buffer[t] != []
  }

  // A flush of one table has effects on that table only.
  ghost predicate KeepsToTable(flush: Flusher, buffer: Buffer) {
    forall s, t :: t in buffer ==> forall e :: e in flush(s, t, buffer[t]).effects ==> e.table == t
  }

  // In whatever order the tables are visited, what the flush does for one table
  // is exactly that table's own flush, from the cache as it then is; for a table
  // without rows it does nothing.
  lemma {:induction false} FlushTablesSplits(flush: Flusher, sink: Sink, buffer: Buffer, order: seq<string>, t: string)
    returns (s: Sink)
    requires KeepsToTable(flush, buffer) && Distinct(order) && forall u :: u in order ==> u in buffer
    ensures var f := FlushTables(flush, sink, buffer, order);
            if t in order then
              OfTable(f.effects, t) == flush(s, t, buffer[t]).effects
              && Settled(f.effects, t) == Settled(flush(s, t, buffer[t]).effects, t)
            else OfTable(f.effects, t) == [] && Settled(f.effects, t) == []
    decreases |order|
  {
    s := sink;
    if order != [] {
      var own := order[0];
      var f := flush(sink, own, buffer[own]);
      var rest := FlushTables(flush, f.sink, buffer, order[1..]);
      OfTableConcat(f.effects, rest.effects, t);
      SettledOfConcat(f.effects, rest.effects, t);
      OfTableAllOrNothing(f.effects, t, own);
      var s' := FlushTablesSplits(flush, f.sink, buffer, order[1..], t);
      assert t in order <==> t == own || t in order[1..];
      if t == own {
        assert t !in order[1..];
      } else {
        SettledElsewhere(f.effects, t);
        s := s';
      }
    }
  }

  lemma TableFlusherKeepsToTable(env: Env, buffer: Buffer)
    requires env.config.maxRetries >= 0 && NoEmptyTable(buffer)
    ensures KeepsToTable(TableFlusher(env), buffer)
  {
    forall s, t | t in buffer
      ensures forall e :: e in TableFlusher(env)(s, t, buffer[t]).effects ==> e.table == t
    {
      FlushTableShape(env, s, t, buffer[t]);
    }
  }

  // With a failure callback every buffered row settles exactly once, in order;
  // without one, a failed table's rows settle nowhere.
  lemma FlushSettles(env: Env, sink: Sink, buffer: Buffer, order: seq<string>, t: string)
    requires env.config.maxRetries >= 0 && NoEmptyTable(buffer) && IsOrder(order, buffer)
    ensures var f := FlushTables(TableFlusher(env), sink, buffer, order);
            var rows := if t in buffer then buffer[t] else [];
            (env.config.hasCallback ==> Settled(f.effects, t) == rows)
            && (Settled(f.effects, t) == rows || Settled(f.effects, t) == [])
  {
    TableFlusherKeepsToTable(env, buffer);
    var s := FlushTablesSplits(TableFlusher(env), sink, buffer, order, t);
    if t in buffer {
      FlushTableSettles(env, s, t, buffer[t]);
    }
  }

  function RowsIn(buffer: Buffer, order: seq<string>): nat
    requires forall t :: t in order ==> t in buffer
  {
    if order == [] then 0 else |buffer[order[0]]| + RowsIn(buffer, order[1..])
  }

  // Rows counted as written and as failed add up to the rows of the flush.
  lemma {:induction false} FlushCounts(flush: Flusher, sink: Sink, buffer: Buffer, order: seq<string>)
    requires forall t :: t in order ==> t in buffer
    ensures var f := FlushTables(flush, sink, buffer, order);
            f.success + f.failed == f.total == RowsIn(buffer, order)
    decreases |order|
  {
    if order != [] {
      FlushCounts(flush, flush(sink, order[0], buffer[order[0]]).sink, buffer, order[1..]);
    }
  }
}
