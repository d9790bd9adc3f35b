// The trace of a flush is the log of the calls made: every call in its order,
// with the answer the server gave to it.
module CallLog {
  import opened Common
  import opened GoValues
  import opened Columns
  import opened InsertErrors
  import opened Backoff
  import opened Flush

  // How many calls an effect stands for.
  function Calls(e: Effect): nat {
    match e
    case Asked(_, _, _) => 1
    case Sent(_, rows, _, _, _, _) => |rows| + 2
    case Refused(_, _, calls, _) => calls
    case _ => 0
  }

  predicate AllAppended(env: Env, from: nat, n: nat) {
    forall k: nat :: from <= k < from + n ==> env.server.append(k).None?
  }

  // The effect says what the server answered: a DESCRIBE its reply; a batch that
  // was sent, that it was prepared, every row appended, and that the send was
  // acknowledged exactly when it was; a refused batch, which call refused it.
  predicate Honest(env: Env, e: Effect) {
    match e
    case Asked(t, n, reply) => reply == env.server.describe(n, t)
    case Sent(_, rows, _, _, n, acked) =>
      env.server.prepare(n).None? && AllAppended(env, n + 1, |rows|)
      && (acked <==> env.server.send(n + 1 + |rows|).None?)
    case Refused(_, n, calls, err) =>
      if calls <= 1 then calls == 1 && env.server.prepare(n) == Some(err)
      else
        env.server.prepare(n).None? && AllAppended(env, n + 1, calls - 2)
        && env.server.append(n + calls - 1) == Some(err)
    case _ => true
  }

  // The effects are honest, and their calls are numbered without a gap from
  // `start` up to `end`.
  predicate Logged(env: Env, es: seq<Effect>, start: nat, end: nat) {
    if es == [] then start == end
    else
      Honest(env, es[0]) && (Calls(es[0]) > 0 ==> es[0].clock == start)
      && Logged(env, es[1..], start + Calls(es[0]), end)
  }

  lemma {:induction false} LoggedConcat(env: Env, a: seq<Effect>, b: seq<Effect>, start: nat, mid: nat, end: nat)
    requires Logged(env, a, start, mid) && Logged(env, b, mid, end)
    ensures Logged(env, a + b, start, end)
  {
    if a == [] {
      assert a + b == b;
    } else {
      assert (a + b)[0] == a[0] && (a + b)[1..] == a[1..] + b;
      LoggedConcat(env, a[1..], b, start + Calls(a[0]), mid, end);
    }
  }

  lemma LoggedOne(env: Env, e: Effect, start: nat)
    requires Honest(env, e) && (Calls(e) > 0 ==> e.clock == start)
    ensures Logged(env, [e], start, start + Calls(e))
  {
    assert [e][1..] == [];
  }

  // Every effect of a log is honest.
  lemma {:induction false} LoggedIsHonest(env: Env, es: seq<Effect>, start: nat, end: nat, e: Effect)
    requires Logged(env, es, start, end) && e in es
    ensures Honest(env, e)
  {
    if e != es[0] { LoggedIsHonest(env, es[1..], start + Calls(es[0]), end, e); }
  }

  // Effects that stand for no call.
  lemma {:induction false} SilentLogged(env: Env, es: seq<Effect>, at: nat)
    requires forall e :: e in es ==> e.Tried? || e.Slept? || e.Reported? || e.HandedOff?
    ensures Logged(env, es, at, at)
  {
    if es != [] {
      assert es[0] in es && forall e :: e in es[1..] ==> e in es;
      SilentLogged(env, es[1..], at);
    }
  }

  // ----- One insert ----------------------------------------------------------

  lemma FetchLogged(env: Env, sink: Sink, t: string)
    ensures var f := FetchColumns(env, sink, t); Logged(env, f.effects, sink.clock, f.sink.clock)
  {
    LoggedOne(env, FetchColumns(env, sink, t).effects[0], sink.clock);
  }

  lemma GetLogged(env: Env, sink: Sink, t: string)
    ensures var g := GetColumns(env, sink, t); Logged(env, g.effects, sink.clock, g.sink.clock)
  {
    FetchLogged(env, sink, t);
  }

  lemma RefreshLogged(env: Env, sink: Sink, t: string)
    ensures var o := RefreshSchema(env, sink, t); Logged(env, o.effects, sink.clock, o.sink.clock)
  {
    FetchLogged(env, sink, t);
  }

  // Rows are appended one call each, up to the first refusal.
  lemma {:induction false} AppendCalls(env: Env, clock: nat, rows: seq<Row>, columns: seq<TableColumn>,
                                       before: seq<seq<Val>>)
    ensures var a := AppendRows(env, clock, rows, columns, before);
            var n := |a.vectors| - |before|;
            0 <= n <= |rows| && AllAppended(env, clock, n)
            && match a.err
               case None => n == |rows| && a.clock == clock + n
               case Some(e) => n < |rows| && a.clock == clock + n + 1 && env.server.append(clock + n) == Some(e)
    decreases |rows|
  {
    if rows != [] && env.server.append(clock).None? {
      AppendCalls(env, clock + 1, rows[1..], columns, before + [Vector(env.lib, rows[0], columns, clock)]);
    }
  }

  lemma SendLogged(env: Env, sink: Sink, t: string, rows: seq<Row>, columns: seq<TableColumn>)
    ensures var o := SendBatch(env, sink, t, rows, columns); Logged(env, o.effects, sink.clock, o.sink.clock)
  {
    AppendCalls(env, sink.clock + 1, rows, columns, []);
    LoggedOne(env, SendBatch(env, sink, t, rows, columns).effects[0], sink.clock);
  }

  lemma InsertLogged(env: Env, sink: Sink, t: string, rows: seq<Row>)
    ensures var o := DoInsert(env, sink, t, rows); Logged(env, o.effects, sink.clock, o.sink.clock)
  {
    var g := GetColumns(env, sink, t);
    GetLogged(env, sink, t);
    if g.columns.Ok? {
      var s := SendBatch(env, g.sink, t, rows, g.columns.value);
      SendLogged(env, g.sink, t, rows, g.columns.value);
      LoggedConcat(env, g.effects, s.effects, sink.clock, g.sink.clock, s.sink.clock);
    }
  }

  lemma RefreshAndInsertLogged(env: Env, sink: Sink, t: string, rows: seq<Row>, err: Error)
    ensures var o := RefreshAndInsert(env, sink, t, rows, err); Logged(env, o.effects, sink.clock, o.sink.clock)
  {
    var refresh := RefreshSchema(env, Meanwhile(env, sink), t);
    RefreshLogged(env, Meanwhile(env, sink), t);
    if refresh.err.None? {
      var second := DoInsert(env, Meanwhile(env, refresh.sink), t, rows);
      InsertLogged(env, Meanwhile(env, refresh.sink), t, rows);
      LoggedConcat(env, refresh.effects, second.effects, sink.clock, refresh.sink.clock, second.sink.clock);
    }
  }

  lemma BatchInsertLogged(env: Env, sink: Sink, t: string, rows: seq<Row>)
    ensures var o := BatchInsert(env, sink, t, rows); Logged(env, o.effects, sink.clock, o.sink.clock)
  {
    if rows != [] {
      var first := DoInsert(env, Meanwhile(env, sink), t, rows);
      InsertLogged(env, Meanwhile(env, sink), t, rows);
      if first.err.Some? && IsSchemaRelated(first.err.value) {
        var again := RefreshAndInsert(env, first.sink, t, rows, first.err.value);
        RefreshAndInsertLogged(env, first.sink, t, rows, first.err.value);
        LoggedConcat(env, first.effects, again.effects, sink.clock, first.sink.clock, again.sink.clock);
      }
    }
  }

  // ----- A flush -------------------------------------------------------------

  ghost predicate AlwaysLogged(env: Env, insert: Sink -> Outcome) {
    forall s :: Logged(env, insert(s).effects, s.clock, insert(s).sink.clock)
  }

  lemma {:induction false} AttemptsLogged(env: Env, maxRetries: int, t: string, insert: Sink -> Outcome, sink: Sink,
                                          attempt: nat)
    requires AlwaysLogged(env, insert)
    ensures var o := Attempts(maxRetries, t, insert, sink, attempt); Logged(env, o.effects, sink.clock, o.sink.clock)
    decreases maxRetries - attempt
  {
    if attempt <= maxRetries {
      var b := insert(sink);
      var tried := [Tried(t, b.err)];
      SilentLogged(env, tried, b.sink.clock);
      LoggedConcat(env, b.effects, tried, sink.clock, b.sink.clock, b.sink.clock);
      if b.err.Some? && IsRetryable(b.err.value) && attempt < maxRetries {
        var slept := [Slept(t, BackoffNs(attempt))];
        var rest := Attempts(maxRetries, t, insert, b.sink, attempt + 1);
        AttemptsLogged(env, maxRetries, t, insert, b.sink, attempt + 1);
        SilentLogged(env, slept, b.sink.clock);
        LoggedConcat(env, b.effects + tried, slept, sink.clock, b.sink.clock, b.sink.clock);
        LoggedConcat(env, b.effects + tried + slept, rest.effects, sink.clock, b.sink.clock, rest.sink.clock);
      }
    }
  }

  lemma FlushTableLogged(env: Env, sink: Sink, t: string, rows: seq<Row>)
    ensures var o := FlushTable(env, sink, t, rows); Logged(env, o.effects, sink.clock, o.sink.clock)
  {
    var insert := Inserter(env, t, rows);
    var a := Attempts(env.config.maxRetries, t, insert, sink, 0);
    var after := Aftermath(env.config, t, rows, a.err);
    forall s ensures Logged(env, insert(s).effects, s.clock, insert(s).sink.clock) {
      BatchInsertLogged(env, s, t, rows);
    }
    AttemptsLogged(env, env.config.maxRetries, t, insert, sink, 0);
    SilentLogged(env, after, a.sink.clock);
    LoggedConcat(env, a.effects, after, sink.clock, a.sink.clock, a.sink.clock);
  }

  ghost predicate FlusherLogged(env: Env, flush: Flusher) {
    forall s, t, rows :: Logged(env, flush(s, t, rows).effects, s.clock, flush(s, t, rows).sink.clock)
  }

  lemma {:induction false} TablesLogged(env: Env, flush: Flusher, sink: Sink, buffer: Buffer, order: seq<string>)
    requires FlusherLogged(env, flush) && forall t :: t in order ==> t in buffer
    ensures var f := FlushTables(flush, sink, buffer, order); Logged(env, f.effects, sink.clock, f.sink.clock)
    decreases |order|
  {
    if order != [] {
      var f := flush(sink, order[0], buffer[order[0]]);
      var rest := FlushTables(flush, f.sink, buffer, order[1..]);
      TablesLogged(env, flush, f.sink, buffer, order[1..]);
      LoggedConcat(env, f.effects, rest.effects, sink.clock, f.sink.clock, rest.sink.clock);
    }
  }

  // A flush leaves the log of all its calls, in order, each with the server's
  // answer.
  lemma FlushLogged(env: Env, sink: Sink, buffer: Buffer, order: seq<string>)
    requires forall t :: t in order ==> t in buffer
    ensures var f := FlushTables(TableFlusher(env), sink, buffer, order);
            Logged(env, f.effects, sink.clock, f.sink.clock)
  {
    forall s, t, rows
      ensures Logged(env, TableFlusher(env)(s, t, rows).effects, s.clock, TableFlusher(env)(s, t, rows).sink.clock)
    {
      FlushTableLogged(env, s, t, rows);
    }
    TablesLogged(env, TableFlusher(env), sink, buffer, order);
  }
}
