// How the batch writer's loop ends, and what a Close can lose.
module WriterShutdown {
  import opened Common
  import opened Flush
  import opened FlushProperties
  import opened WriterLoop
  import opened WriterRuns

  // When the loop leaves on the done signal, every row it ever took, those of
  // the final drain included, is in exactly one flushed batch; and, with a
  // failure callback, every one was either acknowledged or handed to it, once
  // and in order. What is still queued was never taken.
  lemma DoneExitFlushesEverythingTaken(env: Env, s: WriterState, t: string)
    requires ValidConfig(env.config) && Reachable(env, s) && s.exit == Drained
    ensures BatchRows(s.batches, t) == RowsOf(s.taken, t)
    ensures env.config.hasCallback ==> Settled(s.trace, t) == RowsOf(s.taken, t)
    ensures BatchRows(s.batches, t) + RowsOf(s.queue, t) == RowsOf(s.accepted, t)
  {
    ReachableInv(env, s);
    RowsAreConserved(env, s, t);
    assert Balanced(env, s, t);
    assert BufferOf(s.buffer, t) == [];
  }

  // ----- What Close loses ----------------------------------------------------

  // A run that leaves the loop has every accepted row of t in a flushed batch.
  predicate LosesNothing(env: Env, s: WriterState, events: seq<Event>, t: string)
    requires ValidConfig(env.config)
  {
    var r := Exec(env, s, events);
    r.Some? && r.value.exit != Running ==> BatchRows(r.value.batches, t) == RowsOf(r.value.accepted, t)
  }

  predicate AllNil(rows: seq<Option<Row>>) {
    forall i :: 0 <= i < |rows| ==> rows[i].None?
  }

  // Nothing left to flush, and nothing can arrive.
  predicate Quiet(s: WriterState) {
    s.inClosed && s.buffer == map[] && AllNil(s.queue)
  }

  lemma {:induction false} DrainStaysQuiet(s: WriterState, found: nat, now: int)
    requires Quiet(s) && found <= |s.queue|
    ensures Quiet(Drain(s, found, now))
    decreases found
  {
    if found > 0 {
      DrainStaysQuiet(s, found - 1, now);
    }
  }

  lemma StepStaysQuiet(env: Env, s: WriterState, e: Event)
    requires ValidConfig(env.config) && Quiet(s) && Step(env, s, e).Some?
    ensures Quiet(Step(env, s, e).value)
  {
    if e.SeeDone? { DrainStaysQuiet(s, e.found, e.now); }
  }

  lemma {:induction false} RunStaysQuiet(env: Env, s: WriterState, events: seq<Event>)
    requires ValidConfig(env.config) && Quiet(s)
    ensures var r := Exec(env, s, events); r.Some? ==> Quiet(r.value)
  {
    if events != [] {
      RunStaysQuiet(env, s, events[..|events| - 1]);
      var before := Exec(env, s, events[..|events| - 1]);
      if before.Some? && Step(env, before.value, events[|events| - 1]).Some? {
        StepStaysQuiet(env, before.value, events[|events| - 1]);
      }
    }
  }

  lemma {:induction false} NilHasNoRows(rows: seq<Option<Row>>, t: string)
    requires AllNil(rows)
    ensures RowsOf(rows, t) == []
  {
    if rows != [] { NilHasNoRows(rows[..|rows| - 1], t); }
  }

  lemma QuietLosesNothing(env: Env, s: WriterState, events: seq<Event>, t: string)
    requires ValidConfig(env.config) && Reachable(env, s) && Quiet(s)
    ensures LosesNothing(env, s, events, t)
  {
    var r := Exec(env, s, events);
    if r.Some? {
      ReachableRun(env, s, events, r.value);
      RunStaysQuiet(env, s, events);
      RowsAreConserved(env, r.value, t);
      NilHasNoRows(r.value.queue, t);
    }
  }

  // Every buffer has an order to visit its tables in.
  lemma {:induction false} OrderOf(tables: set<string>) returns (order: seq<string>)
    ensures (forall t :: t in order <==> t in tables) && Distinct(order)
    decreases |tables|
  {
    order := [];
    if tables != {} {
      var t :| t in tables;
      var rest := OrderOf(tables - {t});
      order := [t] + rest;
    }
  }

  lemma {:induction false} RowsOfHas(rows: seq<Option<Row>>, i: int)
    requires 0 <= i < |rows| && rows[i].Some?
    ensures RowsOf(rows, rows[i].value.table) != []
  {
    if i < |rows| - 1 { RowsOfHas(rows[..|rows| - 1], i); }
  }

  // A drain that finds the queue empty for a moment leaves without its rows.
  lemma EarlyDrain(env: Env, s: WriterState, i: int) returns (events: seq<Event>)
    requires ValidConfig(env.config) && Reachable(env, s) && s.exit == Running && s.doneClosed
    requires 0 <= i < |s.queue| && s.queue[i].Some?
    ensures !LosesNothing(env, s, events, s.queue[i].value.table)
  {
    var t := s.queue[i].value.table;
    var order := OrderOf(s.buffer.Keys);
    var e := SeeDone(0, 0, order);
    events := [e];
    OneEvent(env, s, e);
    var r := Step(env, s, e).value;
    ReachableStep(env, s, e);
    RowsAreConserved(env, r, t);
    assert r.queue == s.queue;
    RowsOfHas(s.queue, i);
  }

  function Receives(n: nat): seq<Event> {
    seq(n, i => Receive(0, []))
  }

  // The loop passing over nil rows.
  lemma {:induction false} PassOverNil(env: Env, s: WriterState, n: nat)
    requires ValidConfig(env.config) && s.exit == Running && n <= |s.queue| && AllNil(s.queue)
    ensures Exec(env, s, Receives(n)) == Some(s.(queue := s.queue[n..], taken := s.taken + s.queue[..n]))
  {
    if n == 0 {
      assert s.queue[0..] == s.queue && s.taken + s.queue[..0] == s.taken;
    } else {
      PassOverNil(env, s, n - 1);
      assert Receives(n)[..n - 1] == Receives(n - 1);
      assert s.queue[n - 1..][1..] == s.queue[n..];
      assert s.taken + s.queue[..n - 1] + [s.queue[n - 1]] == s.taken + s.queue[..n];
    }
  }

  // A loop that sees the closed channel first leaves with its buffer.
  lemma AbandonedBuffer(env: Env, s: WriterState, t: string) returns (events: seq<Event>)
    requires ValidConfig(env.config) && Reachable(env, s) && s.exit == Running && s.inClosed
    requires AllNil(s.queue) && BufferOf(s.buffer, t) != []
    ensures !LosesNothing(env, s, events, t)
  {
    var passing := Receives(|s.queue|);
    PassOverNil(env, s, |s.queue|);
    var s1 := Exec(env, s, passing).value;
    events := passing + [SeeIngressClosed];
    assert events[..|passing|] == passing;
    var r := s1.(exit := Abandoned);
    assert Exec(env, s, events) == Some(r);
    ReachableRun(env, s, events, r);
    RowsAreConserved(env, r, t);
  }

  // Once Close has closed both channels, every way the loop can go on has every
  // accepted row in a flushed batch if and only if nothing is buffered and
  // nothing but nil rows is queued at that moment.
  lemma NothingLostExactlyWhen(env: Env, s: WriterState)
    requires ValidConfig(env.config) && Reachable(env, s) && s.exit == Running && s.inClosed
    ensures (forall events, t :: LosesNothing(env, s, events, t)) <==> s.buffer == map[] && AllNil(s.queue)
  {
    ReachableInv(env, s);
    if Quiet(s) {
      forall events, t ensures LosesNothing(env, s, events, t) { QuietLosesNothing(env, s, events, t); }
    } else if !AllNil(s.queue) {
      var i :| 0 <= i < |s.queue| && s.queue[i].Some?;
      var events := EarlyDrain(env, s, i);
    } else {
      var t :| t in s.buffer;
      var events := AbandonedBuffer(env, s, t);
    }
  }

  // What a caller can check: for a Close called now, the state is the same with
  // both channels closed.
  lemma CloseIsSafeExactlyWhen(env: Env, s: WriterState)
    requires ValidConfig(env.config) && Reachable(env, s) && s.exit == Running && !s.doneClosed
    ensures Exec(env, s, [CloseDone, CloseIngress]) == Some(Closed(s))
    ensures (forall events, t :: LosesNothing(env, Closed(s), events, t)) <==> s.buffer == map[] && AllNil(s.queue)
  {
    DoneClosesFirst(env, s);
    ExecClose(env, s);
    ReachableRun(env, s, [CloseDone, CloseIngress], Closed(s));
    ReachableInv(env, s);
    NothingLostExactlyWhen(env, Closed(s));
  }

  // The state Close leaves behind.
  function Closed(s: WriterState): WriterState {
    s.(doneClosed := true, inClosed := true)
  }

  lemma ExecClose(env: Env, s: WriterState)
    requires ValidConfig(env.config) && !s.doneClosed && !s.inClosed
    ensures Exec(env, s, [CloseDone, CloseIngress]) == Some(Closed(s))
  {
    OneEvent(env, s, CloseDone);
    assert [CloseDone, CloseIngress][..1] == [CloseDone];
  }

  // From any running state with buffered rows and an empty queue a Close can end
  // with exactly the buffered rows lost.
  lemma ClosedChannelLosesTheBuffer(env: Env, s: WriterState, t: string)
    requires ValidConfig(env.config) && Reachable(env, s)
    requires s.exit == Running && !s.doneClosed && s.queue == [] && BufferOf(s.buffer, t) != []
    ensures var r := Exec(env, s, [CloseDone, CloseIngress, SeeIngressClosed]);
            r == Some(s.(doneClosed := true, inClosed := true, exit := Abandoned))
            && BatchRows(r.value.batches, t) + BufferOf(s.buffer, t) == RowsOf(r.value.accepted, t)
            && BatchRows(r.value.batches, t) != RowsOf(r.value.accepted, t)
  {
    ReachableInv(env, s);
    ExecClose(env, s);
    var closing := [CloseDone, CloseIngress, SeeIngressClosed];
    assert closing[..2] == [CloseDone, CloseIngress];
    RowsAreConserved(env, s, t);
  }

  // Both losses happen to new writers: one row received and still buffered, ...
  lemma ABufferCanBeAbandoned(env: Env, s0: WriterState, row: Row) returns (s: WriterState)
    requires ValidConfig(env.config) && Initial(s0) && env.config.flushSize > 1
    ensures Reachable(env, s) && s.exit == Abandoned && s.accepted == [Some(row)]
    ensures BufferOf(s.buffer, row.table) == [row] && BatchRows(s.batches, row.table) == []
  {
    InitialReachable(env, s0);
    s := Taken(env, s0, Enqueue(Some(row)));
    s := Taken(env, s, Receive(0, []));
    s := Taken(env, s, CloseDone);
    s := Taken(env, s, CloseIngress);
    s := Taken(env, s, SeeIngressClosed);
  }

  // ... and one row still queued when the drain looks and finds nothing.
  lemma ADrainCanStopEarly(env: Env, s0: WriterState, row: Row) returns (s: WriterState)
    requires ValidConfig(env.config) && Initial(s0)
    ensures Reachable(env, s) && s.exit == Drained && s.accepted == [Some(row)]
    ensures s.queue == [Some(row)] && BatchRows(s.batches, row.table) == []
  {
    InitialReachable(env, s0);
    s := Taken(env, s0, Enqueue(Some(row)));
    s := Taken(env, s, CloseDone);
    s := Taken(env, s, CloseIngress);
    s := Taken(env, s, SeeDone(0, 0, []));
  }

  lemma Taken(env: Env, s: WriterState, e: Event) returns (r: WriterState)
    requires ValidConfig(env.config) && Reachable(env, s) && Step(env, s, e).Some?
    ensures Reachable(env, r) && Step(env, s, e) == Some(r)
  {
    r := Step(env, s, e).value;
    ReachableStep(env, s, e);
  }

  // ----- The loop comes to its end -------------------------------------------

  // The rows, nil or not, that the loop takes one by one in a run.
  function ReceivesIn(events: seq<Event>): nat {
    if events == [] then 0
    else ReceivesIn(events[..|events| - 1]) + (if events[|events| - 1].Receive? then 1 else 0)
  }

  lemma StepShrinksQueue(env: Env, s: WriterState, e: Event)
    requires ValidConfig(env.config) && s.inClosed && Step(env, s, e).Some?
    ensures var r := Step(env, s, e).value;
            r.inClosed && |r.queue| + (if e.Receive? then 1 else 0) <= |s.queue|
  {
    if e.SeeDone? { DrainQueue(s, e.found, e.now); }
  }

  // Once Close has closed its channels the loop receives at most what is queued,
  // however long the run.
  lemma {:induction false} ReceivesAreBounded(env: Env, s: WriterState, events: seq<Event>)
    requires ValidConfig(env.config) && s.inClosed && Exec(env, s, events).Some?
    ensures var r := Exec(env, s, events).value; r.inClosed && ReceivesIn(events) + |r.queue| <= |s.queue|
  {
    if events != [] {
      var before := events[..|events| - 1];
      ReceivesAreBounded(env, s, before);
      StepShrinksQueue(env, Exec(env, s, before).value, events[|events| - 1]);
    }
  }

  // And it can leave at every moment: with whatever part of the queue its drain
  // finds, and by the closed channel once the queue is empty.
  lemma LoopCanAlwaysLeave(env: Env, s: WriterState, now: int, found: nat) returns (e: Event)
    requires ValidConfig(env.config) && s.exit == Running && s.doneClosed && found <= |s.queue|
    ensures e.SeeDone? && e.now == now && e.found == found
    ensures Step(env, s, e).Some? && Step(env, s, e).value.exit == Drained
    ensures s.inClosed && s.queue == [] ==> Step(env, s, SeeIngressClosed) == Some(s.(exit := Abandoned))
  {
    var order := OrderOf(Drain(s, found, now).buffer.Keys);
    e := SeeDone(now, found, order);
  }

  // A loop that has left stays as it left: only the queue and the cache can
  // change after that.
  lemma LeftForGood(env: Env, s: WriterState, e: Event)
    requires ValidConfig(env.config) && s.exit != Running && Step(env, s, e).Some?
    ensures var r := Step(env, s, e).value;
            r.exit == s.exit && r.buffer == s.buffer && r.batches == s.batches && r.taken == s.taken
  {
  }
}
