// What holds in every interleaving of Record calls, the loop and Close.
module RecorderRuns {
  import opened Common
  import opened Recorder

  // Some interleaving leads to s.
  ghost predicate Reachable(cfg: Config, s: State) {
    exists s0, run :: Initial(s0) && Exec(cfg, s0, run) == Some(s)
  }

  lemma InitialInv(cfg: Config, s0: State)
    requires Initial(s0)
    ensures Inv(cfg, s0)
  {
    assert Payloads(s0.processed) == [] && InHand(s0.loop) == [];
    assert Senders(s0.calls) == {} && |s0.calls| == 0;
    assert Fifo(s0) && Accounts(s0) && Phases(s0);
  }

  lemma ReachableInv(cfg: Config, s: State)
    requires Reachable(cfg, s)
    ensures Inv(cfg, s)
  {
    var s0, run :| Initial(s0) && Exec(cfg, s0, run) == Some(s);
    InitialInv(cfg, s0);
    RunKeepsInv(cfg, s0, run);
  }

  lemma InitialReachable(cfg: Config, s: State)
    requires Initial(s)
    ensures Reachable(cfg, s)
  {
    assert Exec(cfg, s, []) == Some(s);
  }

  lemma ReachableNext(cfg: Config, s: State, a: Action)
    requires Reachable(cfg, s) && Enabled(cfg, s, a)
    ensures Reachable(cfg, Next(cfg, s, a))
  {
    var s0, run :| Initial(s0) && Exec(cfg, s0, run) == Some(s);
    ExecNext(cfg, s0, run, s, a);
  }

  // ----- Order and accounting ------------------------------------------------

  // Processed, in hand and buffered, in this order, are the accepted payloads in
  // the order in which they were accepted.
  lemma AcceptedInOrder(cfg: Config, s: State)
    requires Reachable(cfg, s)
    ensures Payloads(s.processed) + InHand(s.loop) + s.buffer == s.enqueued
    ensures |s.buffer| <= cfg.bufferSize
  {
    ReachableInv(cfg, s);
  }

  lemma {:induction false} FatesCover(processed: seq<(Payload, Fate)>)
    ensures |processed| == CountFate(processed, Delivered) + CountFate(processed, OverCap)
                         + CountFate(processed, MarshalFailed) + CountFate(processed, ProduceFailed)
  {
    if processed != [] { FatesCover(processed[..|processed| - 1]); }
  }

  // Every Record call with a payload is in exactly one place: silently ignored
  // because done was closed, dropped on a full buffer, still running, in hand,
  // buffered, or processed with one of the four fates.
  lemma EveryRecordAccountedFor(cfg: Config, s: State)
    requires Reachable(cfg, s)
    ensures s.attempts == s.ignored + s.shed + |s.calls| + |InHand(s.loop)| + |s.buffer|
              + CountFate(s.processed, Delivered) + CountFate(s.processed, OverCap)
              + CountFate(s.processed, MarshalFailed) + CountFate(s.processed, ProduceFailed)
  {
    ReachableInv(cfg, s);
    FatesCover(s.processed);
    assert |s.enqueued| == |Payloads(s.processed)| + |InHand(s.loop)| + |s.buffer|;
  }

  // The two counters count their classes and nothing else.
  lemma CountersCountTheirClasses(cfg: Config, s: State)
    requires Reachable(cfg, s)
    ensures s.dropped == s.shed + CountFate(s.processed, OverCap)
    ensures s.produceErrors == CountFate(s.processed, MarshalFailed) + CountFate(s.processed, ProduceFailed)
  {
    ReachableInv(cfg, s);
  }

  // ----- What becomes of a payload -------------------------------------------

  // The producer is asked to take a payload that marshals and is under the cap.
  predicate Sendable(cfg: Config, p: Payload) {
    p.marshaled.Some? && (cfg.maxBytes == 0 || p.marshaled.value <= cfg.maxBytes)
  }

  // Processing a payload records one fate for it: delivered exactly when it could
  // be sent and the producer took it, a produce failure when the producer did
  // not, and without asking the producer a marshal failure or over the cap.
  lemma FateExactly(cfg: Config, s: State, ok: bool)
    requires Enabled(cfg, s, Process(ok))
    ensures var n, p := Next(cfg, s, Process(ok)), s.loop.p;
            |n.processed| == |s.processed| + 1 && n.processed[..|s.processed|] == s.processed
            && n.processed[|s.processed|].0 == p
            && var fate := n.processed[|s.processed|].1;
               (fate == Delivered <==> Sendable(cfg, p) && ok)
               && (fate == ProduceFailed <==> Sendable(cfg, p) && !ok)
               && (fate == MarshalFailed <==> p.marshaled.None?)
               && (fate == OverCap <==> p.marshaled.Some? && 0 < cfg.maxBytes < p.marshaled.value)
  {
  }

  // How often in a run the producer was given a payload and took it, or did not.
  function Answers(cfg: Config, s: State, run: seq<Action>, ok: bool): nat {
    if run == [] then 0
    else
      var before := run[..|run| - 1];
      Answers(cfg, s, before, ok)
      + match Exec(cfg, s, before)
        case None => 0
        case Some(t) =>
          if t.loop.Holding? && run[|run| - 1] == Process(ok) && Sendable(cfg, t.loop.p) then 1 else 0
  }

  lemma AnswersOfOne(cfg: Config, s: State, a: Action, ok: bool)
    requires Enabled(cfg, s, a)
    ensures var fate := if ok then Delivered else ProduceFailed;
            CountFate(Next(cfg, s, a).processed, fate)
            == CountFate(s.processed, fate)
               + (if s.loop.Holding? && a == Process(ok) && Sendable(cfg, s.loop.p) then 1 else 0)
  {
    if a.Process? { ProcessedOneMore(s.processed, (s.loop.p, FateOf(cfg, s.loop.p, a.ok))); }
  }

  // In every run of a new recorder: as many payloads count as delivered as the
  // producer took, and as produce failures as it did not.
  lemma {:induction false} FatesAreTheProducers(cfg: Config, s0: State, run: seq<Action>, ok: bool)
    requires Initial(s0) && Exec(cfg, s0, run).Some?
    ensures CountFate(Exec(cfg, s0, run).value.processed, if ok then Delivered else ProduceFailed)
         == Answers(cfg, s0, run, ok)
  {
    if run != [] {
      var before := run[..|run| - 1];
      FatesAreTheProducers(cfg, s0, before, ok);
      AnswersOfOne(cfg, Exec(cfg, s0, before).value, run[|run| - 1], ok);
    }
  }

  // ----- Close ---------------------------------------------------------------

  // done and the producer are closed at most once, and while anything can still
  // be produced the producer is open.
  lemma ClosedOnceAndLast(cfg: Config, s: State)
    requires Reachable(cfg, s)
    ensures s.doneCloses <= 1 && s.producerCloses <= 1
    ensures forall ok :: Enabled(cfg, s, Process(ok)) ==> s.producerCloses == 0
    ensures s.producerCloses == 1 ==> s.doneCloses == 1 && s.loop.Exited?
  {
    ReachableInv(cfg, s);
  }

  // When the winning Close gets past its wait, every payload accepted before
  // done closed has been processed. What is left in the channel was accepted
  // after the loop exited, by Record calls that had looked at done before it
  // closed, at most one each.
  lemma JoinedMeansDrained(cfg: Config, s: State)
    requires Reachable(cfg, s) && (s.closer.Joined? || s.closer.Finished?)
    ensures s.enqueuedAtDone <= s.enqueuedAtExit == |s.processed| <= |s.enqueued|
    ensures Payloads(s.processed) == s.enqueued[..s.enqueuedAtExit]
    ensures s.buffer == s.enqueued[s.enqueuedAtExit..]
    ensures |s.enqueued| - s.enqueuedAtDone <= s.sendersAtDone
  {
    ReachableInv(cfg, s);
    assert s.enqueued == Payloads(s.processed) + s.buffer;
  }

  // Such a payload exists in some runs: this Record looked at done just before
  // it closed and sent just after the loop left.
  lemma APayloadCanBeStranded(cfg: Config, s0: State, p: Payload) returns (s: State)
    requires cfg.bufferSize > 0 && Initial(s0)
    ensures Reachable(cfg, s) && s.closer.Finished? && s.buffer == [p]
  {
    InitialReachable(cfg, s0);
    s := Next(cfg, s0, Enter(0, Some(p)));
    ReachableNext(cfg, s0, Enter(0, Some(p)));
    s := Taken(cfg, s, CallClose);
    s := Taken(cfg, s, CloseDone);
    s := Taken(cfg, s, LoopSeesDone);
    s := Taken(cfg, s, DrainEnd);
    s := Taken(cfg, s, Send(0));
    s := Taken(cfg, s, Join);
    s := Taken(cfg, s, CloseProducer);
  }

  lemma Taken(cfg: Config, s: State, a: Action) returns (n: State)
    requires Reachable(cfg, s) && Enabled(cfg, s, a)
    ensures Reachable(cfg, n) && n == Next(cfg, s, a)
  {
    n := Next(cfg, s, a);
    ReachableNext(cfg, s, a);
  }

  lemma ExecNext(cfg: Config, s: State, run: seq<Action>, t: State, a: Action)
    requires Exec(cfg, s, run) == Some(t) && Enabled(cfg, t, a)
    ensures Exec(cfg, s, run + [a]) == Some(Next(cfg, t, a))
  {
    assert (run + [a])[..|run|] == run;
  }

  // A Close that loses the swap returns at once and changes nothing, whatever
  // the loop is still doing.
  lemma LosingCloseReturnsAtOnce(cfg: Config, s: State)
    requires !s.closer.NotCalled?
    ensures Enabled(cfg, s, CallClose) && Next(cfg, s, CallClose) == s
  {
  }

  // So a caller of Close can be back while the loop still has payloads in front
  // of it: here the winner has closed done, and one accepted payload waits.
  lemma ALosingCloseCanReturnEarly(cfg: Config, s0: State, p: Payload) returns (s: State)
    requires cfg.bufferSize > 0 && Initial(s0)
    ensures Reachable(cfg, s) && s.doneClosed && !s.loop.Exited? && s.buffer == [p] == s.enqueued
    ensures Enabled(cfg, s, CallClose) && Next(cfg, s, CallClose) == s
  {
    InitialReachable(cfg, s0);
    s := Taken(cfg, s0, Enter(0, Some(p)));
    s := Taken(cfg, s, Send(0));
    s := Taken(cfg, s, CallClose);
    s := Taken(cfg, s, CloseDone);
    LosingCloseReturnsAtOnce(cfg, s);
  }

  // ----- The drain terminates ------------------------------------------------

  function LoopWork(loop: Loop): nat {
    match loop
    case Selecting => 2
    case Holding(_, draining) => if draining then 2 else 3
    case Draining => 1
    case Exited => 0
  }

  // Twice the payloads that are buffered or may still be sent, and what the loop
  // has in front of it.
  function WorkLeft(s: State): nat {
    2 * (|s.buffer| + |Senders(s.calls)|) + LoopWork(s.loop)
  }

  lemma WorkShrinks(cfg: Config, s: State, a: Action)
    requires Enabled(cfg, s, a) && s.doneClosed && Phases(s)
    ensures Next(cfg, s, a).doneClosed
    ensures WorkLeft(Next(cfg, s, a)) + (if ByLoop(a) then 1 else 0) <= WorkLeft(s)
  {
    if ByRecord(a) {
      RecordAddsNoWork(cfg, s, a);
    } else if ByLoop(a) {
      LoopDoesWork(cfg, s, a);
    }
  }

  lemma RecordAddsNoWork(cfg: Config, s: State, a: Action)
    requires Enabled(cfg, s, a) && s.doneClosed && ByRecord(a)
    ensures WorkLeft(Next(cfg, s, a)) <= WorkLeft(s)
  {
    if !a.Enter? { RemoveCall(s.calls, a.c); }
  }

  lemma LoopDoesWork(cfg: Config, s: State, a: Action)
    requires Enabled(cfg, s, a) && ByLoop(a)
    ensures WorkLeft(Next(cfg, s, a)) + 1 <= WorkLeft(s)
  {
  }

  function LoopSteps(run: seq<Action>): nat {
    if run == [] then 0
    else LoopSteps(run[..|run| - 1]) + (if ByLoop(run[|run| - 1]) then 1 else 0)
  }

  // From the moment done is closed the loop takes at most WorkLeft more steps,
  // however long the run and whoever else runs.
  lemma {:induction false} DrainIsBounded(cfg: Config, s: State, run: seq<Action>)
    requires Inv(cfg, s) && s.doneClosed && Exec(cfg, s, run).Some?
    ensures Exec(cfg, s, run).value.doneClosed
    ensures LoopSteps(run) + WorkLeft(Exec(cfg, s, run).value) <= WorkLeft(s)
  {
    if run != [] {
      var before := run[..|run| - 1];
      DrainIsBounded(cfg, s, before);
      RunKeepsInv(cfg, s, before);
      WorkShrinks(cfg, Exec(cfg, s, before).value, run[|run| - 1]);
    }
  }

  // And it never waits: until it has exited one of its steps can be taken, so
  // the winning Close returns.
  lemma LoopNeverBlocksAfterDone(cfg: Config, s: State)
    requires s.doneClosed && !s.loop.Exited?
    ensures exists a :: ByLoop(a) && Enabled(cfg, s, a)
  {
    match s.loop
    case Selecting => assert Enabled(cfg, s, LoopSeesDone);
    case Holding(_, _) => assert Enabled(cfg, s, Process(true));
    case Draining => if s.buffer == [] { assert Enabled(cfg, s, DrainEnd); } else { assert Enabled(cfg, s, DrainTake); }
    case Exited =>
  }

  function Droppers(calls: map<nat, Call>): set<nat> {
    set c | c in calls && calls[c].Dropping?
  }

  // Once done is closed no Record call can meet a full buffer: the only drops
  // still to be counted are over-cap payloads and calls already in the default
  // branch.
  lemma NoDropsAfterDone(cfg: Config, s: State, run: seq<Action>)
    requires Inv(cfg, s) && s.doneClosed && Exec(cfg, s, run).Some?
    ensures forall c :: Overflow(c) !in run
    ensures Exec(cfg, s, run).value.shed + |Droppers(Exec(cfg, s, run).value.calls)| == s.shed + |Droppers(s.calls)|
  {
    NoOverflows(cfg, s, run);
    DropsLeft(cfg, s, run);
  }

  lemma {:induction false} NoOverflows(cfg: Config, s: State, run: seq<Action>)
    requires Inv(cfg, s) && s.doneClosed && Exec(cfg, s, run).Some?
    ensures forall c :: Overflow(c) !in run
  {
    if run != [] {
      var before := run[..|run| - 1];
      NoOverflows(cfg, s, before);
      DrainIsBounded(cfg, s, before);
      assert run == before + [run[|run| - 1]];
    }
  }

  lemma {:induction false} DropsLeft(cfg: Config, s: State, run: seq<Action>)
    requires Inv(cfg, s) && s.doneClosed && Exec(cfg, s, run).Some?
    ensures Exec(cfg, s, run).value.shed + |Droppers(Exec(cfg, s, run).value.calls)| == s.shed + |Droppers(s.calls)|
  {
    if run != [] {
      var before := run[..|run| - 1];
      DropsLeft(cfg, s, before);
      DrainIsBounded(cfg, s, before);
      DroppersAfter(cfg, Exec(cfg, s, before).value, run[|run| - 1]);
    }
  }

  lemma DroppersAfter(cfg: Config, s: State, a: Action)
    requires s.doneClosed && Enabled(cfg, s, a)
    ensures Next(cfg, s, a).shed + |Droppers(Next(cfg, s, a).calls)| == s.shed + |Droppers(s.calls)|
  {
    if a.Send? || a.SeeDone? || a.CountDrop? {
      assert Droppers(s.calls - {a.c}) == Droppers(s.calls) - {a.c};
    }
  }

  // ----- When Close leaves nothing behind ------------------------------------

  // A run that takes Close to its end leaves the channel empty.
  predicate LeavesNothing(cfg: Config, s: State, run: seq<Action>) {
    var r := Exec(cfg, s, run);
    r.Some? && r.value.closer.Finished? ==> r.value.buffer == []
  }

  // No call is about to send, and none can come to it.
  predicate NoMoreSends(s: State) {
    s.doneClosed && Senders(s.calls) == {} && (s.loop.Exited? ==> s.buffer == [])
  }

  lemma NextKeepsNoMoreSends(cfg: Config, s: State, a: Action)
    requires NoMoreSends(s) && Enabled(cfg, s, a)
    ensures NoMoreSends(Next(cfg, s, a))
  {
    assert forall c :: c in s.calls && s.calls[c].Sending? ==> c in Senders(s.calls);
  }

  lemma {:induction false} RunKeepsNoMoreSends(cfg: Config, s: State, run: seq<Action>)
    requires NoMoreSends(s)
    ensures var r := Exec(cfg, s, run); r.Some? ==> NoMoreSends(r.value)
  {
    if run != [] {
      var before := run[..|run| - 1];
      RunKeepsNoMoreSends(cfg, s, before);
      var t := Exec(cfg, s, before);
      if t.Some? && Enabled(cfg, t.value, run[|run| - 1]) { NextKeepsNoMoreSends(cfg, t.value, run[|run| - 1]); }
    }
  }

  lemma {:induction false} ExecConcat(cfg: Config, s: State, a: seq<Action>, b: seq<Action>)
    requires Exec(cfg, s, a).Some?
    ensures Exec(cfg, s, a + b) == Exec(cfg, Exec(cfg, s, a).value, b)
  {
    if b == [] {
      assert a + b == a;
    } else {
      ExecConcat(cfg, s, a, b[..|b| - 1]);
      assert (a + b)[..|a + b| - 1] == a + b[..|b| - 1];
    }
  }

  // The loop's next step on its way out, if nobody else moves.
  function WayOut(s: State): Action
    requires s.doneClosed && !s.loop.Exited?
  {
    match s.loop
    case Selecting => LoopSeesDone
    case Holding(_, _) => Process(true)
    case Draining => if s.buffer == [] then DrainEnd else DrainTake
  }

  // The loop can drain the channel and leave while every Record call stays
  // where it is.
  lemma {:induction false} LoopCanLeave(cfg: Config, s: State) returns (run: seq<Action>, t: State)
    requires s.doneClosed && (s.loop.Exited? ==> s.buffer == [])
    ensures Exec(cfg, s, run) == Some(t) && t.loop.Exited? && t.buffer == []
    ensures t.calls == s.calls && t.closer == s.closer
    decreases WorkLeft(s)
  {
    run, t := [], s;
    if !s.loop.Exited? {
      var a := WayOut(s);
      LoopDoesWork(cfg, s, a);
      assert [a][..0] == [];
      var rest;
      rest, t := LoopCanLeave(cfg, Next(cfg, s, a));
      run := [a] + rest;
      ExecConcat(cfg, s, [a], rest);
    }
  }

  // A call about to send when done closes can send after the loop has left.
  lemma SenderCanStrand(cfg: Config, s: State, c: nat) returns (run: seq<Action>)
    requires cfg.bufferSize > 0 && s.closer.Signalled? && s.doneClosed && !s.loop.Exited?
    requires c in Senders(s.calls)
    ensures !LeavesNothing(cfg, s, run)
  {
    var out, t := LoopCanLeave(cfg, s);
    var t1 := Next(cfg, t, Send(c));
    var t2 := Next(cfg, t1, Join);
    ExecNext(cfg, s, out, t, Send(c));
    ExecNext(cfg, s, out + [Send(c)], t1, Join);
    ExecNext(cfg, s, out + [Send(c)] + [Join], t2, CloseProducer);
    run := out + [Send(c)] + [Join] + [CloseProducer];
  }

  // Whatever happens after the winning Close has closed done, it leaves the
  // channel empty, if and only if no Record call is about to send at that moment.
  lemma NothingStrandedExactlyWhen(cfg: Config, s: State)
    requires cfg.bufferSize > 0 && Reachable(cfg, s) && s.closer.Won?
    ensures (forall run :: LeavesNothing(cfg, Next(cfg, s, CloseDone), run)) <==> Senders(s.calls) == {}
  {
    ReachableInv(cfg, s);
    var n := Next(cfg, s, CloseDone);
    if Senders(s.calls) == {} {
      forall run ensures LeavesNothing(cfg, n, run) {
        RunKeepsNoMoreSends(cfg, n, run);
        if Exec(cfg, n, run).Some? {
          ReachableNext(cfg, s, CloseDone);
          ReachableInv(cfg, n);
          RunKeepsInv(cfg, n, run);
        }
      }
    } else {
      var c :| c in Senders(s.calls);
      var run := SenderCanStrand(cfg, n, c);
    }
  }
}
