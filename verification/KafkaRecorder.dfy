// The recorder object of dlq/recorder.go. Each method is one atomic step of a
// Record call, of the loop or of Close, and does an action of Recorder; a select
// with several ready branches may take any of them, as `preferDone` decides.
module KafkaRecorder {
  import opened Common
  import opened Recorder
  import opened RecorderRuns

  class KafkaRecorder {
    const cfg: Config

    var ch: seq<Payload>
    var done: bool
    var dropped: nat
    var produceErrors: nat
    var closed: bool

    // The protocol state, with the other threads' positions and the history.
    ghost var model: State

    // The protocol state is one that some interleaving leads to, and the fields
    // hold their part of it.
    ghost predicate Valid()
      reads this
    {
      Reachable(cfg, model)
      && ch == model.buffer && done == model.doneClosed
      && dropped == model.dropped && produceErrors == model.produceErrors
      && (closed <==> !model.closer.NotCalled?)
    }

    // The step from the old state to this one was an action that was possible.
    twostate predicate Did(a: Action)
      reads this
    {
      Enabled(cfg, old(model), a) && model == Next(cfg, old(model), a)
    }

    ghost method Do(a: Action)
      requires Reachable(cfg, model) && Enabled(cfg, model, a)
      modifies this`model
      ensures Reachable(cfg, model) && model == Next(cfg, old(model), a)
    {
      ReachableNext(cfg, model, a);
      model := Next(cfg, model, a);
    }

    constructor (cfg: Config, ghost start: State)
      requires Initial(start)
      ensures this.cfg == cfg && Valid() && model == start
    {
      this.cfg := cfg;
      ch, done, dropped, produceErrors, closed := [], false, 0, 0, false;
      model := start;
      new;
      InitialReachable(cfg, start);
    }

    // ----- Record -------------------------------------------------------------

    // The nil check and the first select: whether the call goes on.
    method RecordEnter(ghost c: nat, p: Option<Payload>) returns (goesOn: bool)
      requires Valid() && c !in model.calls
      modifies this
      ensures Valid() && Did(Enter(c, p))
      ensures goesOn <==> p.Some? && !old(done)
    {
      Do(Enter(c, p));
      return p.Some? && !done;
    }

    // The second select: a free slot, done, or neither.
    method RecordSelect(ghost c: nat, p: Payload, preferDone: bool) returns (full: bool)
      requires Valid() && c in model.calls && model.calls[c] == Sending(p)
      modifies this
      ensures Valid()
      ensures full <==> old(|ch| >= cfg.bufferSize && !done)
      ensures if full then Did(Overflow(c))
              else if old(|ch| < cfg.bufferSize && !(done && preferDone)) then Did(Send(c))
              else Did(SeeDone(c))
    {
      if |ch| < cfg.bufferSize && !(done && preferDone) {
        Do(Send(c));
        ch := ch + [p];
        return false;
      }
      if done {
        Do(SeeDone(c));
        return false;
      }
      Do(Overflow(c));
      return true;
    }

    method RecordCountDrop(ghost c: nat) returns (n: nat)
      requires Valid() && c in model.calls && model.calls[c].Dropping?
      modifies this
      ensures Valid() && Did(CountDrop(c)) && n == dropped == old(dropped) + 1
    {
      Do(CountDrop(c));
      dropped := dropped + 1;
      return dropped;
    }

    // ----- The loop -----------------------------------------------------------

    // The outer select, when one of its cases is ready: the payload it took, or
    // None when it saw done.
    method LoopSelect(preferDone: bool) returns (p: Option<Payload>)
      requires Valid() && model.loop.Selecting? && (ch != [] || done)
      modifies this
      ensures Valid() && (if p.Some? then Did(Take) && p.value == old(ch)[0] else Did(LoopSeesDone))
    {
      if ch != [] && !(done && preferDone) {
        Do(Take);
        p := Some(ch[0]);
        ch := ch[1..];
      } else {
        Do(LoopSeesDone);
        p := None;
      }
    }

    // The select inside the drain: None means the loop returns.
    method DrainSelect() returns (p: Option<Payload>)
      requires Valid() && model.loop.Draining?
      modifies this
      ensures Valid() && (if p.Some? then Did(DrainTake) && p.value == old(ch)[0] else Did(DrainEnd))
    {
      if ch != [] {
        Do(DrainTake);
        p := Some(ch[0]);
        ch := ch[1..];
      } else {
        Do(DrainEnd);
        p := None;
      }
    }

    // Marshal, check the size, produce; `accepted` is the producer's answer.
    // The result is whether the producer was called.
    method Produce(p: Payload, accepted: bool) returns (sent: bool)
      requires Valid() && model.loop.Holding? && model.loop.p == p
      modifies this
      ensures Valid() && Did(Process(accepted))
      ensures sent <==> p.marshaled.Some? && (cfg.maxBytes == 0 || p.marshaled.value <= cfg.maxBytes)
      ensures produceErrors == old(produceErrors) + (if p.marshaled.None? || (sent && !accepted) then 1 else 0)
      ensures dropped == old(dropped) + (if p.marshaled.Some? && !sent then 1 else 0)
      ensures model.processed == old(model.processed)
        + [(p, if p.marshaled.None? then MarshalFailed else if !sent then OverCap
               else if accepted then Delivered else ProduceFailed)]
    {
      Do(Process(accepted));
      if p.marshaled.None? {
        produceErrors := produceErrors + 1;
        return false;
      }
      if cfg.maxBytes > 0 && p.marshaled.value > cfg.maxBytes {
        dropped := dropped + 1;
        return false;
      }
      if !accepted {
        produceErrors := produceErrors + 1;
      }
      return true;
    }

    // ----- Close --------------------------------------------------------------

    method CloseSwap() returns (won: bool)
      requires Valid()
      modifies this
      ensures Valid() && closed && Did(CallClose) && (won <==> !old(closed))
    {
      Do(CallClose);
      won := !closed;
      closed := true;
    }

    method CloseSignal()
      requires Valid() && model.closer.Won?
      modifies this
      ensures Valid() && done && Did(CloseDone)
    {
      Do(CloseDone);
      done := true;
    }

    // wg.Wait has returned: close the producer. At this point nothing accepted
    // before done closed is left unprocessed.
    method CloseFinish()
      requires Valid() && model.closer.Signalled? && model.loop.Exited?
      modifies this
      ensures Valid() && model == Next(cfg, Next(cfg, old(model), Join), CloseProducer)
      ensures model.enqueuedAtDone <= model.enqueuedAtExit == |model.processed| <= |model.enqueued|
      ensures ch == model.enqueued[model.enqueuedAtExit..]
    {
      Do(Join);
      Do(CloseProducer);
      JoinedMeansDrained(cfg, model);
    }
  }
}
