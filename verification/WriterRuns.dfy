// What holds in every run of the batch writer's loop.
module WriterRuns {
  import opened Common
  import opened CallLog
  import opened Flush
  import opened FlushProperties
  import opened WriterLoop

  lemma StepKeepsInv(env: Env, s: WriterState, e: Event)
    requires ValidConfig(env.config) && Inv(env, s)
    ensures var r := Step(env, s, e); r.Some? ==> Inv(env, r.value)
  {
    match e
    case Receive(now, order) => ReceiveKeepsInv(env, s, now, order);
    case Tick(now, order) => TickKeepsInv(env, s, now, order);
    case SeeDone(now, found, order) => SeeDoneKeepsInv(env, s, now, found, order);
    case Refresh(t) => RefreshKeepsInv(env, s, t);
    case _ =>
      var r := Step(env, s, e);
      if r.Some? {
        forall t ensures Balanced(env, r.value, t) { assert Balanced(env, s, t); }
      }
  }

  lemma {:induction false} RunKeepsInv(env: Env, s: WriterState, events: seq<Event>)
    requires ValidConfig(env.config) && Inv(env, s)
    ensures var r := Exec(env, s, events); r.Some? ==> Inv(env, r.value)
  {
    if events != [] {
      RunKeepsInv(env, s, events[..|events| - 1]);
      var before := Exec(env, s, events[..|events| - 1]);
      if before.Some? { StepKeepsInv(env, before.value, events[|events| - 1]); }
    }
  }

  // Some run of a new writer leads to s.
  ghost predicate Reachable(env: Env, s: WriterState)
    requires ValidConfig(env.config)
  {
    exists s0, events :: Initial(s0) && Exec(env, s0, events) == Some(s)
  }

  lemma InitialInv(env: Env, s0: WriterState)
    requires ValidConfig(env.config) && Initial(s0)
    ensures Inv(env, s0)
  {
  }

  lemma ReachableInv(env: Env, s: WriterState)
    requires ValidConfig(env.config) && Reachable(env, s)
    ensures Inv(env, s)
  {
    var s0, events :| Initial(s0) && Exec(env, s0, events) == Some(s);
    InitialInv(env, s0);
    RunKeepsInv(env, s0, events);
  }

  // The channel of rows is closed only after the done signal.
  lemma DoneClosesFirst(env: Env, s: WriterState)
    requires ValidConfig(env.config) && Reachable(env, s)
    ensures s.inClosed ==> s.doneClosed
  {
    ReachableInv(env, s);
  }

  lemma InitialReachable(env: Env, s: WriterState)
    requires ValidConfig(env.config) && Initial(s)
    ensures Reachable(env, s)
  {
    assert Exec(env, s, []) == Some(s);
  }

  lemma {:induction false} ExecConcat(env: Env, s: WriterState, a: seq<Event>, b: seq<Event>)
    requires ValidConfig(env.config) && Exec(env, s, a).Some?
    ensures Exec(env, s, a + b) == Exec(env, Exec(env, s, a).value, b)
  {
    if b == [] {
      assert a + b == a;
    } else {
      ExecConcat(env, s, a, b[..|b| - 1]);
      assert (a + b)[..|a + b| - 1] == a + b[..|b| - 1] && (a + b)[|a + b| - 1] == b[|b| - 1];
    }
  }

  lemma ReachableRun(env: Env, s: WriterState, events: seq<Event>, r: WriterState)
    requires ValidConfig(env.config) && Reachable(env, s) && Exec(env, s, events) == Some(r)
    ensures Reachable(env, r)
  {
    var s0, before :| Initial(s0) && Exec(env, s0, before) == Some(s);
    ExecConcat(env, s0, before, events);
    assert Exec(env, s0, before + events) == Some(r);
  }

  lemma OneEvent(env: Env, s: WriterState, e: Event)
    requires ValidConfig(env.config)
    ensures Exec(env, s, [e]) == Step(env, s, e)
  {
    assert [e][..0] == [];
  }

  lemma ReachableStep(env: Env, s: WriterState, e: Event)
    requires ValidConfig(env.config) && Reachable(env, s) && Step(env, s, e).Some?
    ensures Reachable(env, Step(env, s, e).value)
  {
    OneEvent(env, s, e);
    ReachableRun(env, s, [e], Step(env, s, e).value);
  }

  // A caller's rows, all admitted.
  function WithRows(s: WriterState, rows: seq<Option<Row>>): WriterState {
    s.(queue := s.queue + rows, accepted := s.accepted + rows)
  }

  function Enqueues(rows: seq<Option<Row>>): seq<Event> {
    seq(|rows|, i requires 0 <= i < |rows| => Enqueue(rows[i]))
  }

  lemma WithRow(env: Env, s: WriterState, rows: seq<Option<Row>>, row: Option<Row>)
    requires ValidConfig(env.config) && !s.inClosed
    ensures Step(env, WithRows(s, rows), Enqueue(row)) == Some(WithRows(s, rows + [row]))
  {
    assert s.queue + rows + [row] == s.queue + (rows + [row]);
    assert s.accepted + rows + [row] == s.accepted + (rows + [row]);
  }

  lemma {:induction false} ExecEnqueues(env: Env, s: WriterState, rows: seq<Option<Row>>)
    requires ValidConfig(env.config) && !s.inClosed
    ensures Exec(env, s, Enqueues(rows)) == Some(WithRows(s, rows))
  {
    if rows == [] {
      assert WithRows(s, rows) == s;
    } else {
      var n := |rows| - 1;
      ExecEnqueues(env, s, rows[..n]);
      WithRow(env, s, rows[..n], rows[n]);
      assert rows[..n] + [rows[n]] == rows;
      assert Enqueues(rows)[..n] == Enqueues(rows[..n]);
    }
  }

  lemma ReachableWithRows(env: Env, s: WriterState, rows: seq<Option<Row>>)
    requires ValidConfig(env.config) && Reachable(env, s) && !s.inClosed
    ensures Reachable(env, WithRows(s, rows))
  {
    ExecEnqueues(env, s, rows);
    ReachableRun(env, s, Enqueues(rows), WithRows(s, rows));
  }

  // The state after the refreshes of a list of tables.
  function WithRefreshes(env: Env, s: WriterState, tables: seq<string>): WriterState {
    var r := RefreshAll(env, s.sink, tables);
    s.(sink := r.sink, trace := s.trace + r.effects)
  }

  lemma {:induction false} ReachableWithRefreshes(env: Env, s: WriterState, tables: seq<string>)
    requires ValidConfig(env.config) && Reachable(env, s)
    ensures Reachable(env, WithRefreshes(env, s, tables))
    decreases |tables|
  {
    if tables == [] {
      assert WithRefreshes(env, s, tables) == s;
    } else {
      ReachableStep(env, s, Refresh(tables[0]));
      RefreshFirst(env, s, tables);
      ReachableWithRefreshes(env, Refreshing(env, s, tables[0]), tables[1..]);
    }
  }

  lemma RefreshFirst(env: Env, s: WriterState, tables: seq<string>)
    requires tables != []
    ensures WithRefreshes(env, s, tables) == WithRefreshes(env, Refreshing(env, s, tables[0]), tables[1..])
  {
    var o := RefreshSchema(env, s.sink, tables[0]);
    var rest := RefreshAll(env, o.sink, tables[1..]);
    assert s.trace + (o.effects + rest.effects) == (s.trace + o.effects) + rest.effects;
  }

  // ----- Conservation and order ---------------------------------------------

  // In every reachable state and for every table: the rows flushed so far, then
  // the rows buffered, then the rows still queued are exactly the rows accepted,
  // in order; fewer than flushSize rows wait while the loop runs.
  lemma RowsAreConserved(env: Env, s: WriterState, t: string)
    requires ValidConfig(env.config) && Reachable(env, s)
    ensures BatchRows(s.batches, t) + BufferOf(s.buffer, t) == RowsOf(s.taken, t)
    ensures BatchRows(s.batches, t) + BufferOf(s.buffer, t) + RowsOf(s.queue, t) == RowsOf(s.accepted, t)
    ensures s.exit == Running ==> s.totalRows < env.config.flushSize
  {
    ReachableInv(env, s);
    assert Balanced(env, s, t);
    RowsOfConcat(s.taken, s.queue, t);
  }

  // totalRows is the number of buffered rows, whatever order lists the tables,
  // and a flush counts each of them as written or as failed.
  lemma TotalRowsCountsBuffer(env: Env, s: WriterState, order: seq<string>)
    requires ValidConfig(env.config) && Reachable(env, s) && IsOrder(order, s.buffer)
    ensures RowsIn(s.buffer, order) == s.totalRows
    ensures var f := FlushTables(TableFlusher(env), s.sink, s.buffer, order); f.success + f.failed == s.totalRows
  {
    ReachableInv(env, s);
    forall t | t in order ensures s.buffer[t] == Pick(s.pending, t) { assert Balanced(env, s, t); }
    SumOfPicks(s.buffer, order, s.pending);
    forall i | 0 <= i < |s.pending| ensures s.pending[i].table in order {
      PickHas(s.pending, i);
      assert Balanced(env, s, s.pending[i].table);
    }
    AllCounted(order, s.pending);
    FlushCounts(TableFlusher(env), s.sink, s.buffer, order);
  }

  function PickSum(order: seq<string>, rows: seq<Row>): nat {
    if order == [] then 0 else |Pick(rows, order[0])| + PickSum(order[1..], rows)
  }

  lemma {:induction false} SumOfPicks(buffer: Buffer, order: seq<string>, rows: seq<Row>)
    requires forall t :: t in order ==> t in buffer && buffer[t] == Pick(rows, t)
    ensures RowsIn(buffer, order) == PickSum(order, rows)
  {
    if order != [] { SumOfPicks(buffer, order[1..], rows); }
  }

  lemma {:induction false} PickHas(rows: seq<Row>, i: int)
    requires 0 <= i < |rows|
    ensures Pick(rows, rows[i].table) != []
  {
    if i < |rows| - 1 {
      PickHas(rows[..|rows| - 1], i);
    }
  }

  lemma {:induction false} PickSumLast(order: seq<string>, rows: seq<Row>, row: Row)
    requires Distinct(order)
    ensures PickSum(order, rows + [row]) == PickSum(order, rows) + (if row.table in order then 1 else 0)
  {
    if order != [] {
      PickLast(rows, row, order[0]);
      PickSumLast(order[1..], rows, row);
      if row.table == order[0] { assert row.table !in order[1..]; }
    }
  }

  lemma {:induction false} AllCounted(order: seq<string>, rows: seq<Row>)
    requires Distinct(order) && forall i :: 0 <= i < |rows| ==> rows[i].table in order
    ensures PickSum(order, rows) == |rows|
  {
    if rows == [] {
      PickSumEmpty(order);
    } else {
      var n := |rows| - 1;
      assert rows == rows[..n] + [rows[n]];
      AllCounted(order, rows[..n]);
      PickSumLast(order, rows[..n], rows[n]);
    }
  }

  lemma {:induction false} PickSumEmpty(order: seq<string>)
    ensures PickSum(order, []) == 0
  {
    if order != [] { PickSumEmpty(order[1..]); }
  }

  // ----- The trace is the log ------------------------------------------------

  lemma FlushStepLogged(env: Env, s: WriterState, order: seq<string>, start: nat)
    requires ValidConfig(env.config) && IsOrder(order, s.buffer) && Logged(env, s.trace, start, s.sink.clock)
    ensures var r := FlushBuffer(env, s, order); Logged(env, r.trace, start, r.sink.clock)
  {
    var f := FlushTables(TableFlusher(env), s.sink, s.buffer, order);
    FlushLogged(env, s.sink, s.buffer, order);
    LoggedConcat(env, s.trace, f.effects, start, s.sink.clock, f.sink.clock);
  }

  lemma RefreshStepLogged(env: Env, s: WriterState, t: string, start: nat)
    requires Logged(env, s.trace, start, s.sink.clock)
    ensures var r := Refreshing(env, s, t); Logged(env, r.trace, start, r.sink.clock)
  {
    var o := RefreshSchema(env, s.sink, t);
    RefreshLogged(env, s.sink, t);
    LoggedConcat(env, s.trace, o.effects, start, s.sink.clock, o.sink.clock);
  }

  lemma ReceiveLogged(env: Env, s: WriterState, now: int, order: seq<string>, start: nat)
    requires ValidConfig(env.config) && Logged(env, s.trace, start, s.sink.clock)
    requires Step(env, s, Receive(now, order)).Some?
    ensures var r := Step(env, s, Receive(now, order)).value; Logged(env, r.trace, start, r.sink.clock)
  {
    var s1 := Take(s, now);
    if IsOrder(order, s1.buffer) { FlushStepLogged(env, s1, order, start); }
  }

  lemma SeeDoneLogged(env: Env, s: WriterState, now: int, found: nat, order: seq<string>, start: nat)
    requires ValidConfig(env.config) && Logged(env, s.trace, start, s.sink.clock)
    requires Step(env, s, SeeDone(now, found, order)).Some?
    ensures var r := Step(env, s, SeeDone(now, found, order)).value; Logged(env, r.trace, start, r.sink.clock)
  {
    var s1 := Drain(s, found, now);
    DrainQueue(s, found, now);
    if IsOrder(order, s1.buffer) { FlushStepLogged(env, s1, order, start); }
  }

  lemma StepLogged(env: Env, s: WriterState, e: Event, start: nat)
    requires ValidConfig(env.config) && Logged(env, s.trace, start, s.sink.clock) && Step(env, s, e).Some?
    ensures var r := Step(env, s, e).value; Logged(env, r.trace, start, r.sink.clock)
  {
    match e
    case Receive(now, order) => ReceiveLogged(env, s, now, order, start);
    case Tick(_, order) =>
      if IsOrder(order, s.buffer) { FlushStepLogged(env, s, order, start); }
    case SeeDone(now, found, order) => SeeDoneLogged(env, s, now, found, order, start);
    case Refresh(t) => RefreshStepLogged(env, s, t, start);
    case _ =>
  }

  // In every run the trace is the log of all calls the writer made, in order and
  // without a gap, each with the answer the server gave: a DESCRIBE's reply, every
  // row's append, and a send acknowledged exactly when the server did.
  lemma {:induction false} TraceIsTheLog(env: Env, s0: WriterState, events: seq<Event>)
    requires ValidConfig(env.config) && Initial(s0) && Exec(env, s0, events).Some?
    ensures var s := Exec(env, s0, events).value; Logged(env, s.trace, s0.sink.clock, s.sink.clock)
  {
    if events != [] {
      var before := events[..|events| - 1];
      TraceIsTheLog(env, s0, before);
      StepLogged(env, Exec(env, s0, before).value, events[|events| - 1], s0.sink.clock);
    }
  }
}
