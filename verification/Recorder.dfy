// The dead-letter recorder's protocol (dlq/recorder.go): concurrent Record calls
// that never block, one consumer loop with a drain phase, and Close. Every
// atomic step of any of them is one action.
module Recorder {
  import opened Common

  // What the recorder sees of a payload: the size it marshals to, or None when
  // Marshal fails.
  datatype Payload = Payload(id: nat, marshaled: Option<nat>)

  // maxBytes 0 means no cap.
  datatype Config = Config(bufferSize: nat, maxBytes: nat)

  // A Record call that got past its first look at done: about to choose a branch
  // of the second select, or in the default branch before it counts the drop.
  datatype Call = Sending(p: Payload) | Dropping(p: Payload)

  datatype Loop = Selecting | Holding(p: Payload, draining: bool) | Draining | Exited

  // The winning Close: not called, past the swap, done closed, wait over,
  // producer closed.
  datatype Closer = NotCalled | Won | Signalled | Joined | Finished

  datatype Fate = Delivered | OverCap | MarshalFailed | ProduceFailed

  datatype State = State(
    buffer: seq<Payload>,
    doneClosed: bool,
    dropped: nat,
    produceErrors: nat,
    calls: map<nat, Call>,
    loop: Loop,
    closer: Closer,
    // History: Record calls with a payload, how the unaccepted ones ended, the
    // accepted payloads in order, what became of the processed ones, how many
    // were accepted when done closed and when the loop exited, how many calls
    // were about to send when done closed, and the closings.
    attempts: nat,
    ignored: nat,
    shed: nat,
    enqueued: seq<Payload>,
    processed: seq<(Payload, Fate)>,
    enqueuedAtDone: nat,
    enqueuedAtExit: nat,
    sendersAtDone: nat,
    doneCloses: nat,
    producerCloses: nat)

  // A new recorder.
  predicate Initial(s: State) {
    s.buffer == [] && !s.doneClosed && s.dropped == 0 && s.produceErrors == 0 && s.calls == map[]
    && s.loop == Selecting && s.closer == NotCalled
    && s.attempts == s.ignored == s.shed == 0 && s.enqueued == [] && s.processed == []
    && s.enqueuedAtDone == s.enqueuedAtExit == s.sendersAtDone == s.doneCloses == s.producerCloses == 0
  }

  datatype Action =
    | Enter(c: nat, p: Option<Payload>)  // Record: nil check and first select
    | Send(c: nat)                       // second select: room in the channel
    | SeeDone(c: nat)                    // second select: done is closed
    | Overflow(c: nat)                   // second select: neither was ready
    | CountDrop(c: nat)                  // dropped.Add(1)
    | Take                               // loop: a payload from the channel
    | LoopSeesDone                       // loop: on to the drain
    | Process(ok: bool)                  // produce; ok is the producer's answer
    | DrainTake
    | DrainEnd                           // drain: nothing ready, return
    | CallClose                          // the compare-and-swap of one Close
    | CloseDone
    | Join                               // wg.Wait returns
    | CloseProducer

  function FateOf(cfg: Config, p: Payload, ok: bool): Fate {
    if p.marshaled.None? then MarshalFailed
    else if cfg.maxBytes > 0 && p.marshaled.value > cfg.maxBytes then OverCap
    else if ok then Delivered
    else ProduceFailed
  }

  function Senders(calls: map<nat, Call>): set<nat> {
    set c | c in calls && calls[c].Sending?
  }

  predicate Enabled(cfg: Config, s: State, a: Action) {
    match a
    case Enter(c, _) => c !in s.calls
    case Send(c) => c in s.calls && s.calls[c].Sending? && |s.buffer| < cfg.bufferSize
    case SeeDone(c) => c in s.calls && s.calls[c].Sending? && s.doneClosed
    case Overflow(c) =>
      c in s.calls && s.calls[c].Sending? && |s.buffer| >= cfg.bufferSize && !s.doneClosed
    case CountDrop(c) => c in s.calls && s.calls[c].Dropping?
    case Take => s.loop.Selecting? && s.buffer != []
    case LoopSeesDone => s.loop.Selecting? && s.doneClosed
    case Process(_) => s.loop.Holding?
    case DrainTake => s.loop.Draining? && s.buffer != []
    case DrainEnd => s.loop.Draining? && s.buffer == []
    case CallClose => true
    case CloseDone => s.closer.Won?
    case Join => s.closer.Signalled? && s.loop.Exited?
    case CloseProducer => s.closer.Joined?
  }

  function Next(cfg: Config, s: State, a: Action): State
    requires Enabled(cfg, s, a)
  {
    match a
    case Enter(c, p) =>
      (match p
        case None => s
        case Some(x) =>
          if s.doneClosed then s.(attempts := s.attempts + 1, ignored := s.ignored + 1)
          else s.(attempts := s.attempts + 1, calls := s.calls[c := Sending(x)]))
    case Send(c) =>
      var p := s.calls[c].p;
      s.(buffer := s.buffer + [p], enqueued := s.enqueued + [p], calls := s.calls - {c})
    case SeeDone(c) => s.(calls := s.calls - {c}, ignored := s.ignored + 1)
    case Overflow(c) => s.(calls := s.calls[c := Dropping(s.calls[c].p)])
    case CountDrop(c) => s.(calls := s.calls - {c}, dropped := s.dropped + 1, shed := s.shed + 1)
    case Take => s.(loop := Holding(s.buffer[0], false), buffer := s.buffer[1..])
    case LoopSeesDone => s.(loop := Draining)
    case Process(ok) =>
      var fate := FateOf(cfg, s.loop.p, ok);
      s.(loop := if s.loop.draining then Draining else Selecting,
         processed := s.processed + [(s.loop.p, fate)],
         dropped := s.dropped + (if fate.OverCap? then 1 else 0),
         produceErrors := s.produceErrors + (if fate.MarshalFailed? || fate.ProduceFailed? then 1 else 0))
    case DrainTake => s.(loop := Holding(s.buffer[0], true), buffer := s.buffer[1..])
    case DrainEnd => s.(loop := Exited, enqueuedAtExit := |s.enqueued|)
    case CallClose => if s.closer.NotCalled? then s.(closer := Won) else s
    case CloseDone =>
      s.(closer := Signalled, doneClosed := true, doneCloses := s.doneCloses + 1,
         enqueuedAtDone := |s.enqueued|, sendersAtDone := |Senders(s.calls)|)
    case Join => s.(closer := Joined)
    case CloseProducer => s.(closer := Finished, producerCloses := s.producerCloses + 1)
  }

  // A run: every action was enabled when it happened.
  function Exec(cfg: Config, s: State, run: seq<Action>): Option<State> {
    if run == [] then Some(s)
    else match Exec(cfg, s, run[..|run| - 1])
      case None => None
      case Some(t) =>
        var a := run[|run| - 1];
        if Enabled(cfg, t, a) then Some(Next(cfg, t, a)) else None
  }

  // ----- The invariant -------------------------------------------------------

  function InHand(loop: Loop): seq<Payload> {
    if loop.Holding? then [loop.p] else []
  }

  function Payloads(processed: seq<(Payload, Fate)>): seq<Payload> {
    seq(|processed|, i requires 0 <= i < |processed| => processed[i].0)
  }

  function CountFate(processed: seq<(Payload, Fate)>, f: Fate): nat {
    if processed == [] then 0
    else CountFate(processed[..|processed| - 1], f) + (if processed[|processed| - 1].1 == f then 1 else 0)
  }

  predicate Fifo(s: State) {
    Payloads(s.processed) + InHand(s.loop) + s.buffer == s.enqueued
  }

  predicate Accounts(s: State) {
    s.attempts == s.ignored + s.shed + |s.calls| + |s.enqueued|
    && s.dropped == s.shed + CountFate(s.processed, OverCap)
    && s.produceErrors == CountFate(s.processed, MarshalFailed) + CountFate(s.processed, ProduceFailed)
  }

  predicate AfterSignal(c: Closer) {
    c.Signalled? || c.Joined? || c.Finished?
  }

  predicate Phases(s: State) {
    (s.doneClosed <==> AfterSignal(s.closer))
    && s.doneCloses == (if s.doneClosed then 1 else 0)
    && s.producerCloses == (if s.closer.Finished? then 1 else 0)
    && (s.closer.Joined? || s.closer.Finished? ==> s.loop.Exited?)
    && (s.loop.Draining? || s.loop.Exited? || (s.loop.Holding? && s.loop.draining) ==> s.doneClosed)
    && (s.loop.Exited? ==> |s.processed| == s.enqueuedAtExit)
    && (s.doneClosed ==> s.enqueuedAtDone <= |s.enqueued|)
    && (s.loop.Exited? ==> s.enqueuedAtDone <= s.enqueuedAtExit)
    && (s.doneClosed ==> |s.enqueued| + |Senders(s.calls)| <= s.enqueuedAtDone + s.sendersAtDone)
  }

  predicate Inv(cfg: Config, s: State) {
    |s.buffer| <= cfg.bufferSize && Fifo(s) && Accounts(s) && Phases(s)
  }

  lemma RemoveCall(calls: map<nat, Call>, c: nat)
    requires c in calls
    ensures |calls - {c}| == |calls| - 1
    ensures Senders(calls - {c}) == Senders(calls) - {c}
    ensures |Senders(calls - {c})| == |Senders(calls)| - (if calls[c].Sending? then 1 else 0)
  {
    assert (calls - {c}).Keys == calls.Keys - {c};
    assert |calls.Keys - {c}| == |calls.Keys| - 1;
    assert Senders(calls - {c}) == Senders(calls) - {c};
  }

  lemma PutCall(calls: map<nat, Call>, c: nat, x: Call)
    ensures c !in calls ==> |calls[c := x]| == |calls| + 1
    ensures c in calls ==> |calls[c := x]| == |calls|
    ensures x.Dropping? ==> Senders(calls[c := x]) == Senders(calls) - {c}
    ensures x.Dropping? && c in calls && calls[c].Sending?
            ==> |Senders(calls[c := x])| == |Senders(calls)| - 1
  {
    assert calls[c := x].Keys == calls.Keys + {c};
    if x.Dropping? {
      assert Senders(calls[c := x]) == Senders(calls) - {c};
    }
  }

  lemma ProcessedOneMore(processed: seq<(Payload, Fate)>, x: (Payload, Fate))
    ensures Payloads(processed + [x]) == Payloads(processed) + [x.0]
    ensures forall f :: CountFate(processed + [x], f) == CountFate(processed, f) + (if x.1 == f then 1 else 0)
  {
    assert (processed + [x])[..|processed|] == processed;
  }

  lemma SendKeepsFifo(s: State, p: Payload)
    requires Fifo(s)
    ensures Fifo(s.(buffer := s.buffer + [p], enqueued := s.enqueued + [p]))
  {
    var front := Payloads(s.processed) + InHand(s.loop);
    assert front + (s.buffer + [p]) == (front + s.buffer) + [p];
  }

  lemma TakeKeepsFifo(s: State, draining: bool)
    requires Fifo(s) && s.buffer != [] && !s.loop.Holding?
    ensures Fifo(s.(loop := Holding(s.buffer[0], draining), buffer := s.buffer[1..]))
  {
    assert s.buffer == [s.buffer[0]] + s.buffer[1..];
  }

  lemma ProcessKeepsFifo(s: State, fate: Fate, next: Loop)
    requires Fifo(s) && s.loop.Holding? && !next.Holding?
    ensures Fifo(s.(loop := next, processed := s.processed + [(s.loop.p, fate)]))
  {
    ProcessedOneMore(s.processed, (s.loop.p, fate));
  }

  lemma NextKeepsFifo(cfg: Config, s: State, a: Action)
    requires Fifo(s) && Enabled(cfg, s, a)
    ensures Fifo(Next(cfg, s, a))
  {
    match a
    case Send(c) => SendKeepsFifo(s, s.calls[c].p);
    case Process(ok) =>
      ProcessKeepsFifo(s, FateOf(cfg, s.loop.p, ok), if s.loop.draining then Draining else Selecting);
    case Take => TakeKeepsFifo(s, false);
    case DrainTake => TakeKeepsFifo(s, true);
    case _ =>
  }

  // Which thread an action belongs to.
  predicate ByRecord(a: Action) {
    a.Enter? || a.Send? || a.SeeDone? || a.Overflow? || a.CountDrop?
  }

  predicate ByLoop(a: Action) {
    a.Take? || a.LoopSeesDone? || a.Process? || a.DrainTake? || a.DrainEnd?
  }

  lemma EnterKeepsAccounts(cfg: Config, s: State, c: nat, p: Option<Payload>)
    requires Accounts(s) && Enabled(cfg, s, Enter(c, p))
    ensures Accounts(Next(cfg, s, Enter(c, p)))
  {
    if p.Some? { PutCall(s.calls, c, Sending(p.value)); }
  }

  lemma RecordKeepsAccounts(cfg: Config, s: State, a: Action)
    requires Accounts(s) && Enabled(cfg, s, a) && ByRecord(a)
    ensures Accounts(Next(cfg, s, a))
  {
    match a
    case Enter(c, p) => EnterKeepsAccounts(cfg, s, c, p);
    case Send(c) => RemoveCall(s.calls, c);
    case SeeDone(c) => RemoveCall(s.calls, c);
    case Overflow(c) => PutCall(s.calls, c, Dropping(s.calls[c].p));
    case CountDrop(c) => RemoveCall(s.calls, c);
  }

  lemma RecordKeepsPhases(cfg: Config, s: State, a: Action)
    requires Phases(s) && Enabled(cfg, s, a) && ByRecord(a)
    ensures Phases(Next(cfg, s, a))
  {
    match a
    case Send(c) => RemoveCall(s.calls, c);
    case SeeDone(c) => RemoveCall(s.calls, c);
    case CountDrop(c) => RemoveCall(s.calls, c);
    case _ =>
  }

  lemma LoopKeepsAccounts(cfg: Config, s: State, a: Action)
    requires Accounts(s) && Enabled(cfg, s, a) && ByLoop(a)
    ensures Accounts(Next(cfg, s, a))
  {
    if a.Process? { ProcessedOneMore(s.processed, (s.loop.p, FateOf(cfg, s.loop.p, a.ok))); }
  }

  lemma LoopKeepsPhases(cfg: Config, s: State, a: Action)
    requires Phases(s) && Enabled(cfg, s, a) && ByLoop(a)
    requires a.DrainEnd? ==> |s.processed| == |s.enqueued|
    ensures Phases(Next(cfg, s, a))
  {
  }

  lemma CloseKeepsBooks(cfg: Config, s: State, a: Action)
    requires Accounts(s) && Phases(s) && Enabled(cfg, s, a) && !ByRecord(a) && !ByLoop(a)
    ensures Accounts(Next(cfg, s, a)) && Phases(Next(cfg, s, a))
  {
  }

  lemma NextKeepsInv(cfg: Config, s: State, a: Action)
    requires Inv(cfg, s) && Enabled(cfg, s, a)
    ensures Inv(cfg, Next(cfg, s, a))
  {
    NextKeepsFifo(cfg, s, a);
    if ByRecord(a) {
      RecordKeepsAccounts(cfg, s, a);
      RecordKeepsPhases(cfg, s, a);
    } else if ByLoop(a) {
      assert |s.enqueued| == |Payloads(s.processed)| + |InHand(s.loop)| + |s.buffer|;
      LoopKeepsAccounts(cfg, s, a);
      LoopKeepsPhases(cfg, s, a);
    } else {
      CloseKeepsBooks(cfg, s, a);
    }
  }

  lemma {:induction false} RunKeepsInv(cfg: Config, s: State, run: seq<Action>)
    requires Inv(cfg, s)
    ensures var r := Exec(cfg, s, run); r.Some? ==> Inv(cfg, r.value)
  {
    if run != [] {
      var before := run[..|run| - 1];
      RunKeepsInv(cfg, s, before);
      var t := Exec(cfg, s, before);
      if t.Some? && Enabled(cfg, t.value, run[|run| - 1]) { NextKeepsInv(cfg, t.value, run[|run| - 1]); }
    }
  }
}
