// The batch writer's event loop (ch/writer.go, processLoop) as a state machine:
// rows arrive through the ingress queue, are buffered by table and leave in
// flushes. Nil rows, which the loop skips, are None.
module WriterLoop {
  import opened Common
  import opened Flush
  import opened FlushProperties

  // How the loop ended: on the done signal, or because it saw the ingress
  // channel closed first.
  datatype Exit = Running | Drained | Abandoned

  datatype WriterState = WriterState(
    queue: seq<Option<Row>>,
    doneClosed: bool,
    inClosed: bool,
    buffer: Buffer,
    totalRows: nat,
    firstData: int,
    exit: Exit,
    sink: Sink,
    // History: everything accepted by and taken from the queue, the buffers
    // flushed, their effects, the buffered rows and their arrival times.
    accepted: seq<Option<Row>>,
    taken: seq<Option<Row>>,
    batches: seq<Buffer>,
    trace: seq<Effect>,
    pending: seq<Row>,
    stamps: seq<int>)

  // What can happen next. `order` is the order in which the runtime would visit
  // the buffer's tables if the event flushes it; `found` is how many rows the
  // final drain finds before the queue looks empty to it. Refresh is a schema
  // refresh by another goroutine between two events of the loop.
  datatype Event =
    | Enqueue(row: Option<Row>)
    | CloseDone
    | CloseIngress
    | Receive(now: int, order: seq<string>)
    | Tick(now: int, order: seq<string>)
    | SeeDone(now: int, found: nat, order: seq<string>)
    | SeeIngressClosed
    | Refresh(table: string)

  // A new writer.
  predicate Initial(s: WriterState) {
    s.queue == [] && !s.doneClosed && !s.inClosed && s.buffer == map[] && s.totalRows == 0 && s.firstData == 0
    && s.exit == Running && s.accepted == [] && s.taken == [] && s.batches == [] && s.trace == []
    && s.pending == [] && s.stamps == []
  }

  function BufferOf(buffer: Buffer, t: string): seq<Row> {
    if t in buffer then buffer[t] else []
  }

  function Add(buffer: Buffer, row: Row): Buffer {
    buffer[row.table := BufferOf(buffer, row.table) + [row]]
  }

  // One row out of the queue: nil rows vanish, others join their table.
  function Take(s: WriterState, now: int): WriterState
    requires s.queue != []
  {
    var s1 := s.(queue := s.queue[1..], taken := s.taken + [s.queue[0]]);
    match s.queue[0]
    case None => s1
    case Some(row) =>
      s1.(firstData := if s.totalRows == 0 then now else s.firstData,
          buffer := Add(s.buffer, row),
          totalRows := s.totalRows + 1,
          pending := s.pending + [row],
          stamps := s.stamps + [now])
  }

  function FlushBuffer(env: Env, s: WriterState, order: seq<string>): WriterState
    requires ValidConfig(env.config) && IsOrder(order, s.buffer)
  {
    Emptied(s, FlushTables(TableFlusher(env), s.sink, s.buffer, order))
  }

  // The state after a flush that did f: a new empty buffer.
  function Emptied(s: WriterState, f: Flushed): WriterState {
    s.(sink := f.sink, trace := s.trace + f.effects, batches := s.batches + [s.buffer],
       buffer := map[], totalRows := 0, firstData := 0, pending := [], stamps := [])
  }

  predicate ShouldFlush(config: WriterConfig, totalRows: nat, firstData: int, now: int) {
    config.minFlushSize == 0
    || totalRows >= config.minFlushSize
    || (config.maxWaitTime > 0 && now - firstData >= config.maxWaitTime)
  }

  // The final drain does not touch firstDataTime.
  function Drain(s: WriterState, found: nat, now: int): (r: WriterState)
    requires found <= |s.queue|
    ensures |r.queue| == |s.queue| - found
    decreases found
  {
    if found == 0 then s
    else
      var d := Drain(s, found - 1, now);
      Take(d, now).(firstData := d.firstData)
  }

  lemma {:induction false} DrainQueue(s: WriterState, found: nat, now: int)
    requires found <= |s.queue|
    ensures Drain(s, found, now).queue == s.queue[found..]
    ensures Drain(s, found, now).accepted == s.accepted && Drain(s, found, now).exit == s.exit
    ensures Drain(s, found, now).inClosed == s.inClosed && Drain(s, found, now).doneClosed == s.doneClosed
    ensures Drain(s, found, now).sink == s.sink && Drain(s, found, now).trace == s.trace
    decreases found
  {
    if found > 0 { DrainQueue(s, found - 1, now); }
  }

  function Refreshing(env: Env, s: WriterState, t: string): WriterState {
    var o := RefreshSchema(env, s.sink, t);
    s.(sink := o.sink, trace := s.trace + o.effects)
  }

  // The state after an event, or None when the event cannot happen.
  function Step(env: Env, s: WriterState, e: Event): Option<WriterState>
    requires ValidConfig(env.config)
  {
    match e
    case Enqueue(row) =>
      if s.inClosed then None
      else Some(s.(queue := s.queue + [row], accepted := s.accepted + [row]))
    case CloseDone => if s.doneClosed then None else Some(s.(doneClosed := true))
    case CloseIngress => if s.inClosed || !s.doneClosed then None else Some(s.(inClosed := true))
    case Receive(now, order) =>
      if s.exit != Running || s.queue == [] then None
      else
        var s1 := Take(s, now);
        if s1.totalRows >= env.config.flushSize && s.queue[0].Some? then
          (if IsOrder(order, s1.buffer) then Some(FlushBuffer(env, s1, order)) else None)
        else Some(s1)
    case Tick(now, order) =>
      if s.exit != Running then None
      else if s.totalRows > 0 && ShouldFlush(env.config, s.totalRows, s.firstData, now) then
        (if IsOrder(order, s.buffer) then Some(FlushBuffer(env, s, order)) else None)
      else Some(s)
    case SeeDone(now, found, order) =>
      if s.exit != Running || !s.doneClosed || found > |s.queue| then None
      else
        var s1 := Drain(s, found, now);
        if s1.totalRows > 0 then
          (if IsOrder(order, s1.buffer) then Some(FlushBuffer(env, s1, order).(exit := Drained)) else None)
        else Some(s1.(exit := Drained))
    case SeeIngressClosed =>
      if s.exit != Running || !s.inClosed || s.queue != [] then None
      else Some(s.(exit := Abandoned))
    case Refresh(t) => Some(Refreshing(env, s, t))
  }

  function Exec(env: Env, s: WriterState, events: seq<Event>): Option<WriterState>
    requires ValidConfig(env.config)
  {
    if events == [] then Some(s)
    else match Exec(env, s, events[..|events| - 1])
      case None => None
      case Some(s1) => Step(env, s1, events[|events| - 1])
  }

  // ----- Conservation --------------------------------------------------------

  // The non-nil rows of one table.
  function RowsOf(rows: seq<Option<Row>>, t: string): seq<Row> {
    if rows == [] then []
    else
      var last := rows[|rows| - 1];
      RowsOf(rows[..|rows| - 1], t) + (if last.Some? && last.value.table == t then [last.value] else [])
  }

  lemma {:induction false} RowsOfConcat(a: seq<Option<Row>>, b: seq<Option<Row>>, t: string)
    ensures RowsOf(a + b, t) == RowsOf(a, t) + RowsOf(b, t)
  {
    if b == [] {
      assert a + b == a;
    } else {
      assert (a + b)[..|a + b| - 1] == a + b[..|b| - 1];
      RowsOfConcat(a, b[..|b| - 1], t);
    }
  }

  function Pick(rows: seq<Row>, t: string): seq<Row> {
    if rows == [] then []
    else
      var last := rows[|rows| - 1];
      Pick(rows[..|rows| - 1], t) + (if last.table == t then [last] else [])
  }

  // A table's rows in all flushed batches, in the order of the flushes.
  function BatchRows(batches: seq<Buffer>, t: string): seq<Row> {
    if batches == [] then []
    else BatchRows(batches[..|batches| - 1], t) + BufferOf(batches[|batches| - 1], t)
  }

  // Flushed rows followed by buffered rows are the rows taken, in order; and with
  // a failure callback the rows that settled are the flushed ones.
  predicate Books(hasCallback: bool, batches: seq<Buffer>, buffer: Buffer, taken: seq<Option<Row>>,
                  pending: seq<Row>, trace: seq<Effect>, t: string)
  {
    BatchRows(batches, t) + BufferOf(buffer, t) == RowsOf(taken, t)
    && BufferOf(buffer, t) == Pick(pending, t)
    && (hasCallback ==> Settled(trace, t) == BatchRows(batches, t))
  }

  // The books of one table balance.
  predicate Balanced(env: Env, s: WriterState, t: string) {
    Books(env.config.hasCallback, s.batches, s.buffer, s.taken, s.pending, s.trace, t)
  }

  ghost predicate Inv(env: Env, s: WriterState) {
    s.accepted == s.taken + s.queue
    && NoEmptyTable(s.buffer)
    && |s.pending| == |s.stamps| == s.totalRows
    && (s.exit == Running ==> s.totalRows < env.config.flushSize)
    && (s.exit == Drained ==> s.buffer == map[])
    && (s.exit == Abandoned ==> s.queue == [])
    && (s.inClosed ==> s.doneClosed)
    && (s.exit != Running ==> s.doneClosed)
    && (s.exit == Abandoned ==> s.inClosed)
    && forall t :: Balanced(env, s, t)
  }

  lemma PickLast(rows: seq<Row>, row: Row, t: string)
    ensures Pick(rows + [row], t) == Pick(rows, t) + (if row.table == t then [row] else [])
  {
    assert (rows + [row])[..|rows|] == rows;
  }

  lemma BatchRowsLast(batches: seq<Buffer>, b: Buffer, t: string)
    ensures BatchRows(batches + [b], t) == BatchRows(batches, t) + BufferOf(b, t)
  {
    assert (batches + [b])[..|batches|] == batches;
  }

  lemma RowsOfLast(rows: seq<Option<Row>>, x: Option<Row>, t: string)
    ensures RowsOf(rows + [x], t) == RowsOf(rows, t) + (if x.Some? && x.value.table == t then [x.value] else [])
  {
    assert (rows + [x])[..|rows|] == rows;
  }

  lemma AddToBuffer(buffer: Buffer, row: Row, t: string)
    ensures BufferOf(Add(buffer, row), t) == BufferOf(buffer, t) + (if row.table == t then [row] else [])
  {
  }

  lemma BooksOfRow(hasCallback: bool, batches: seq<Buffer>, buffer: Buffer, taken: seq<Option<Row>>,
                   pending: seq<Row>, trace: seq<Effect>, row: Row, t: string)
    requires Books(hasCallback, batches, buffer, taken, pending, trace, t)
    ensures Books(hasCallback, batches, Add(buffer, row), taken + [Some(row)], pending + [row], trace, t)
  {
    RowsOfLast(taken, Some(row), t);
    PickLast(pending, row, t);
    AddToBuffer(buffer, row, t);
  }

  lemma TakeBalances(env: Env, s: WriterState, now: int, t: string)
    requires s.queue != [] && Balanced(env, s, t)
    ensures Balanced(env, Take(s, now), t)
  {
    match s.queue[0]
    case None => RowsOfLast(s.taken, None, t);
    case Some(row) =>
      BooksOfRow(env.config.hasCallback, s.batches, s.buffer, s.taken, s.pending, s.trace, row, t);
  }

  lemma {:induction false} DrainBalances(env: Env, s: WriterState, found: nat, now: int, t: string)
    requires found <= |s.queue| && Balanced(env, s, t)
    ensures Balanced(env, Drain(s, found, now), t)
    decreases found
  {
    if found > 0 {
      DrainBalances(env, s, found - 1, now, t);
      DrainQueue(s, found - 1, now);
      TakeBalances(env, Drain(s, found - 1, now), now, t);
    }
  }

  lemma FlushBalances(env: Env, s: WriterState, order: seq<string>, t: string)
    requires ValidConfig(env.config) && IsOrder(order, s.buffer) && NoEmptyTable(s.buffer) && Balanced(env, s, t)
    ensures Balanced(env, FlushBuffer(env, s, order), t)
  {
    BatchRowsLast(s.batches, s.buffer, t);
    FlushSettles(env, s.sink, s.buffer, order, t);
    SettledOfConcat(s.trace, FlushTables(TableFlusher(env), s.sink, s.buffer, order).effects, t);
  }

  // What a row taken from the queue keeps, besides the balances.
  predicate Tidy(s: WriterState) {
    s.accepted == s.taken + s.queue && NoEmptyTable(s.buffer) && |s.pending| == |s.stamps| == s.totalRows
  }

  lemma TakeTidy(s: WriterState, now: int)
    requires s.queue != [] && Tidy(s)
    ensures Tidy(Take(s, now))
  {
  }

  lemma {:induction false} DrainTidy(s: WriterState, found: nat, now: int)
    requires found <= |s.queue| && Tidy(s)
    ensures Tidy(Drain(s, found, now))
    decreases found
  {
    if found > 0 {
      DrainTidy(s, found - 1, now);
      DrainQueue(s, found - 1, now);
      TakeTidy(Drain(s, found - 1, now), now);
    }
  }

  lemma ReceiveKeepsInv(env: Env, s: WriterState, now: int, order: seq<string>)
    requires ValidConfig(env.config) && Inv(env, s)
    ensures var r := Step(env, s, Receive(now, order)); r.Some? ==> Inv(env, r.value)
  {
    if s.exit == Running && s.queue != [] {
      var s1 := Take(s, now);
      TakeTidy(s, now);
      forall t ensures Balanced(env, s1, t) { TakeBalances(env, s, now, t); }
      if IsOrder(order, s1.buffer) {
        forall t ensures Balanced(env, FlushBuffer(env, s1, order), t) { FlushBalances(env, s1, order, t); }
      }
    }
  }

  lemma TickKeepsInv(env: Env, s: WriterState, now: int, order: seq<string>)
    requires ValidConfig(env.config) && Inv(env, s)
    ensures var r := Step(env, s, Tick(now, order)); r.Some? ==> Inv(env, r.value)
  {
    if IsOrder(order, s.buffer) {
      forall t ensures Balanced(env, FlushBuffer(env, s, order), t) { FlushBalances(env, s, order, t); }
    }
  }

  // A refresh settles nothing.
  lemma RefreshKeepsInv(env: Env, s: WriterState, t: string)
    requires Inv(env, s)
    ensures Inv(env, Refreshing(env, s, t))
  {
    var es := RefreshSchema(env, s.sink, t).effects;
    forall u ensures Balanced(env, Refreshing(env, s, t), u) {
      assert Balanced(env, s, u);
      SettledOfConcat(s.trace, es, u);
      assert Settled(es, u) == [] by { assert es[1..] == []; }
    }
  }

  lemma NothingPending(env: Env, s: WriterState)
    requires Tidy(s) && forall t :: Balanced(env, s, t)
    ensures s.totalRows == 0 ==> s.buffer == map[]
  {
    if s.totalRows == 0 {
      forall t ensures t !in s.buffer { assert Balanced(env, s, t); }
    }
  }

  lemma SeeDoneKeepsInv(env: Env, s: WriterState, now: int, found: nat, order: seq<string>)
    requires ValidConfig(env.config) && Inv(env, s)
    ensures var r := Step(env, s, SeeDone(now, found, order)); r.Some? ==> Inv(env, r.value)
  {
    if s.exit == Running && found <= |s.queue| {
      var s1 := Drain(s, found, now);
      DrainTidy(s, found, now);
      DrainQueue(s, found, now);
      forall t ensures Balanced(env, s1, t) { DrainBalances(env, s, found, now, t); }
      NothingPending(env, s1);
      forall t ensures Balanced(env, s1.(exit := Drained), t) { assert Balanced(env, s1, t); }
      if IsOrder(order, s1.buffer) {
        forall t ensures Balanced(env, FlushBuffer(env, s1, order).(exit := Drained), t) {
          FlushBalances(env, s1, order, t);
        }
      }
    }
  }
}
