// How long a row can wait in the batch writer's loop.
module WriterFreshness {
  import opened Common
  import opened Flush
  import opened WriterLoop
  import opened WriterRuns

  function TimeOf(e: Event): Option<int> {
    match e
    case Receive(now, _) => Some(now)
    case Tick(now, _) => Some(now)
    case SeeDone(now, _, _) => Some(now)
    case _ => None
  }

  // The time of the latest handled event, and of the latest handled tick; both
  // start at `start`.
  function Latest(start: int, events: seq<Event>): int {
    if events == [] then start
    else match TimeOf(events[|events| - 1])
      case Some(now) => now
      case None => Latest(start, events[..|events| - 1])
  }

  function LatestTick(start: int, events: seq<Event>): int {
    if events == [] then start
    else if events[|events| - 1].Tick? then events[|events| - 1].now
    else LatestTick(start, events[..|events| - 1])
  }

  // Time does not run backwards, and a tick is handled at least every d.
  predicate Paced(d: int, start: int, events: seq<Event>) {
    events == [] ||
    (var before := events[..|events| - 1];
     Paced(d, start, before)
     && match TimeOf(events[|events| - 1])
        case None => true
        case Some(now) => Latest(start, before) <= now <= LatestTick(start, before) + d)
  }

  predicate Waiting(config: WriterConfig, s: WriterState, latest: int, tick: int) {
    tick <= latest
    && |s.stamps| == s.totalRows
    && (s.stamps != [] ==> s.firstData == s.stamps[0])
    && (forall i :: 0 <= i < |s.stamps| ==> s.stamps[0] <= s.stamps[i] <= latest)
    && (s.stamps != [] && s.stamps[0] < tick ==>
          config.minFlushSize > 1 && (config.maxWaitTime > 0 ==> tick - s.stamps[0] < config.maxWaitTime))
  }

  lemma StepKeepsWaiting(env: Env, s: WriterState, e: Event, latest: int, tick: int)
    requires ValidConfig(env.config) && Inv(env, s) && Waiting(env.config, s, latest, tick)
    requires TimeOf(e).Some? ==> latest <= TimeOf(e).value
    ensures var r := Step(env, s, e);
            var now := if TimeOf(e).Some? then TimeOf(e).value else latest;
            r.Some? ==> Waiting(env.config, r.value, now, if e.Tick? then now else tick)
  {
    if e.SeeDone? && e.found <= |s.queue| {
      DrainTidy(s, e.found, e.now);
    }
  }

  lemma {:induction false} RunKeepsWaiting(env: Env, s0: WriterState, events: seq<Event>, start: int, d: int)
    requires ValidConfig(env.config) && Initial(s0) && Paced(d, start, events)
    ensures var r := Exec(env, s0, events);
            r.Some? ==> Waiting(env.config, r.value, Latest(start, events), LatestTick(start, events))
  {
    if events != [] {
      var before := events[..|events| - 1];
      RunKeepsWaiting(env, s0, before, start, d);
      InitialInv(env, s0);
      RunKeepsInv(env, s0, before);
      var s := Exec(env, s0, before);
      if s.Some? {
        StepKeepsWaiting(env, s.value, events[|events| - 1], Latest(start, before), LatestTick(start, before));
      }
    }
  }

  // `now` is a moment up to the next handled event of a paced run that leads to s.
  ghost predicate Moment(env: Env, d: int, s: WriterState, now: int)
    requires ValidConfig(env.config)
  {
    exists s0, events, start ::
      Initial(s0) && Exec(env, s0, events) == Some(s) && Paced(d, start, events)
      && Latest(start, events) <= now <= LatestTick(start, events) + d
  }

  // No buffered row has waited longer than `bound`.
  predicate WaitsAtMost(s: WriterState, now: int, bound: int) {
    |s.stamps| == s.totalRows && forall i :: 0 <= i < |s.stamps| ==> now - s.stamps[i] <= bound
  }

  // With a maximum wait set, or a minimum flush size of at most one row, and
  // ticks handled at most d apart: at every moment no row has waited in the
  // loop's buffer longer than the maximum wait and d together; d alone when one
  // row is enough to flush.
  lemma NoRowWaitsTooLong(env: Env, d: int, s: WriterState, now: int)
    requires ValidConfig(env.config) && Moment(env, d, s, now)
    requires env.config.maxWaitTime > 0 || env.config.minFlushSize <= 1
    ensures WaitsAtMost(s, now, if env.config.minFlushSize <= 1 then d else env.config.maxWaitTime + d)
  {
    var s0, events, start :|
      Initial(s0) && Exec(env, s0, events) == Some(s) && Paced(d, start, events)
      && Latest(start, events) <= now <= LatestTick(start, events) + d;
    RunKeepsWaiting(env, s0, events, start, d);
  }

  // ----- Exactly when the loop flushes ---------------------------------------

  lemma StepKeepsOldest(env: Env, s: WriterState, e: Event)
    requires ValidConfig(env.config) && Inv(env, s) && Step(env, s, e).Some?
    requires s.exit == Running && s.stamps != [] ==> s.firstData == s.stamps[0]
    ensures var r := Step(env, s, e).value; r.exit == Running && r.stamps != [] ==> r.firstData == r.stamps[0]
  {
  }

  lemma {:induction false} RunKeepsOldest(env: Env, s0: WriterState, events: seq<Event>)
    requires ValidConfig(env.config) && Initial(s0) && Exec(env, s0, events).Some?
    ensures var s := Exec(env, s0, events).value; s.exit == Running && s.stamps != [] ==> s.firstData == s.stamps[0]
  {
    if events != [] {
      var before := events[..|events| - 1];
      RunKeepsOldest(env, s0, before);
      InitialInv(env, s0);
      RunKeepsInv(env, s0, before);
      StepKeepsOldest(env, Exec(env, s0, before).value, events[|events| - 1]);
    }
  }

  // While the loop runs, the time it keeps is that of its oldest row.
  lemma FirstDataIsTheOldest(env: Env, s: WriterState)
    requires ValidConfig(env.config) && Reachable(env, s) && s.exit == Running && s.stamps != []
    ensures s.firstData == s.stamps[0]
  {
    var s0, events :| Initial(s0) && Exec(env, s0, events) == Some(s);
    RunKeepsOldest(env, s0, events);
  }

  // A tick flushes a buffer that has rows exactly when there is no minimum, the
  // minimum is reached, or the oldest row has waited the maximum wait; otherwise
  // it changes nothing.
  lemma TickFlushesExactlyWhen(env: Env, s: WriterState, now: int, order: seq<string>)
    requires ValidConfig(env.config) && Reachable(env, s) && Step(env, s, Tick(now, order)).Some?
    ensures |s.stamps| == s.totalRows
    ensures var r, c := Step(env, s, Tick(now, order)).value, env.config;
            var due := s.totalRows > 0
              && (c.minFlushSize == 0 || s.totalRows >= c.minFlushSize
                  || (c.maxWaitTime > 0 && now - s.stamps[0] >= c.maxWaitTime));
            if due then r.batches == s.batches + [s.buffer] && r.buffer == map[] && r.totalRows == 0 else r == s
  {
    ReachableInv(env, s);
    if s.totalRows > 0 { FirstDataIsTheOldest(env, s); }
  }

  // A row flushes the buffer exactly when it is the one that makes it full, and a
  // nil row never does.
  lemma RowFlushesExactlyWhen(env: Env, s: WriterState, now: int, order: seq<string>)
    requires ValidConfig(env.config) && Reachable(env, s) && Step(env, s, Receive(now, order)).Some?
    ensures s.queue != []
    ensures var r := Step(env, s, Receive(now, order)).value;
            var buffer := if s.queue[0].Some? then Add(s.buffer, s.queue[0].value) else s.buffer;
            if s.queue[0].Some? && s.totalRows + 1 == env.config.flushSize
            then r.batches == s.batches + [buffer] && r.buffer == map[] && r.totalRows == 0
            else r.batches == s.batches && r.buffer == buffer
  {
    ReachableInv(env, s);
  }

  // Right after a tick the buffer is empty or short of the minimum and younger
  // than the maximum wait.
  lemma TickLeavesAFreshBuffer(env: Env, s: WriterState, now: int, order: seq<string>)
    requires ValidConfig(env.config) && Step(env, s, Tick(now, order)).Some?
    ensures var r := Step(env, s, Tick(now, order)).value;
            r.totalRows > 0 ==> (0 < r.totalRows < env.config.minFlushSize
              && (env.config.maxWaitTime > 0 ==> now - r.firstData < env.config.maxWaitTime))
  {
  }

  // Ticks at 1, 2, up to n.
  function Ticks(n: nat): seq<Event> {
    seq(n, i => Tick(i + 1, []))
  }

  lemma {:induction false} TicksPass(env: Env, s: WriterState, n: nat)
    requires ValidConfig(env.config) && env.config.maxWaitTime == 0
    requires s.exit == Running && 0 < s.totalRows < env.config.minFlushSize
    ensures Exec(env, s, Ticks(n)) == Some(s)
  {
    if n > 0 {
      TicksPass(env, s, n - 1);
      assert Ticks(n)[..n - 1] == Ticks(n - 1);
      assert Ticks(n)[n - 1] == Tick(n, []);
    }
  }

  // A row received at 0, and then only ticks.
  function LoneRow(row: Row, n: nat): seq<Event> {
    [Enqueue(Some(row)), Receive(0, [])] + Ticks(n)
  }

  lemma OneMore(d: int, start: int, before: seq<Event>, e: Event)
    ensures var at := if TimeOf(e).Some? then TimeOf(e).value else Latest(start, before);
            Latest(start, before + [e]) == at
            && LatestTick(start, before + [e]) == (if e.Tick? then e.now else LatestTick(start, before))
            && (Paced(d, start, before + [e]) <==>
                  Paced(d, start, before) && Latest(start, before) <= at
                  && (TimeOf(e).Some? ==> at <= LatestTick(start, before) + d))
  {
    assert (before + [e])[..|before|] == before;
  }

  lemma FirstPaced(row: Row, d: int)
    requires d > 0
    ensures var first := [Enqueue(Some(row)), Receive(0, [])];
            Paced(d, 0, first) && Latest(0, first) == LatestTick(0, first) == 0
  {
    var e := Enqueue(Some(row));
    OneMore(d, 0, [], e);
    assert [] + [e] == [e];
    OneMore(d, 0, [e], Receive(0, []));
    assert [e] + [Receive(0, [])] == [e, Receive(0, [])];
  }

  lemma {:induction false} LoneRowPaced(row: Row, n: nat, d: int)
    requires d > 0
    ensures Paced(d, 0, LoneRow(row, n)) && Latest(0, LoneRow(row, n)) == LatestTick(0, LoneRow(row, n)) == n
  {
    if n == 0 {
      FirstPaced(row, d);
      assert LoneRow(row, 0) == [Enqueue(Some(row)), Receive(0, [])];
    } else {
      LoneRowPaced(row, n - 1, d);
      OneMore(d, 0, LoneRow(row, n - 1), Tick(n, []));
      assert LoneRow(row, n) == LoneRow(row, n - 1) + [Tick(n, [])];
    }
  }

  // Without a maximum wait, and with a minimum flush size of more than one row,
  // there is no bound: in some paced run of a new writer a row waits for any
  // time n.
  lemma NoMaximumWaitNoBound(env: Env, s0: WriterState, row: Row, d: int, n: nat) returns (s: WriterState)
    requires ValidConfig(env.config) && Initial(s0) && d > 0
    requires env.config.maxWaitTime == 0 && env.config.minFlushSize > 1
    ensures Moment(env, d, s, n) && s.stamps == [0]
  {
    var first := [Enqueue(Some(row)), Receive(0, [])];
    OneEvent(env, s0, Enqueue(Some(row)));
    assert first[..1] == [Enqueue(Some(row))];
    s := Exec(env, s0, first).value;
    TicksPass(env, s, n);
    ExecConcat(env, s0, first, Ticks(n));
    LoneRowPaced(row, n, d);
    assert Exec(env, s0, LoneRow(row, n)) == Some(s);
  }

  ghost predicate Bounded(env: Env, d: int, bound: int)
    requires ValidConfig(env.config)
  {
    forall s, now :: Moment(env, d, s, now) ==> WaitsAtMost(s, now, bound)
  }

  lemma AWaitBreaksTheBound(env: Env, d: int, bound: int)
    requires ValidConfig(env.config) && d > 0
    requires env.config.maxWaitTime == 0 && env.config.minFlushSize > 1
    ensures !Bounded(env, d, bound)
  {
    var s0 := ANewWriter();
    var n := if bound < 0 then 0 else bound + 1;
    var s := NoMaximumWaitNoBound(env, s0, Row("", map[]), d, n);
    assert n - s.stamps[0] > bound;
  }

  lemma ANewWriter() returns (s0: WriterState)
    ensures Initial(s0)
  {
    s0 := WriterState([], false, false, map[], 0, 0, Running, Sink(map[], 0), [], [], [], [], [], []);
  }

  // Waiting is bounded exactly when a maximum wait is set or one row is enough
  // to flush.
  lemma BoundedExactlyWhen(env: Env, d: int)
    requires ValidConfig(env.config) && d > 0
    ensures (exists bound :: Bounded(env, d, bound)) <==> env.config.maxWaitTime > 0 || env.config.minFlushSize <= 1
  {
    if env.config.maxWaitTime > 0 || env.config.minFlushSize <= 1 {
      var bound := if env.config.minFlushSize <= 1 then d else env.config.maxWaitTime + d;
      forall s, now | Moment(env, d, s, now) ensures WaitsAtMost(s, now, bound) {
        NoRowWaitsTooLong(env, d, s, now);
      }
      assert Bounded(env, d, bound);
    } else {
      forall bound ensures !Bounded(env, d, bound) { AWaitBreaksTheBound(env, d, bound); }
    }
  }
}
