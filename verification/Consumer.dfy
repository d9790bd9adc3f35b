// The Kafka consume loop (kafka/consume.go): poll, call the handler with bounded
// retries, commit after success, skip after exhaustion.
module Consumer {
  import opened Common

  datatype TopicPartition = TopicPartition(topic: string, partition: int)

  datatype Message = Message(at: TopicPartition, offset: int)

  datatype Config = Config(maxRetries: int, enableAutoCommit: bool, hasHook: bool)

  datatype Failure = HandlerError(code: int) | CommitError(code: int)

  // The handler's answers and the broker's answers to commits, numbered in the
  // order of the calls. None is success.
  datatype World = World(handler: nat -> Option<int>, commit: nat -> Option<int>)

  datatype Effect =
    | Handled(m: Message, err: Option<int>)
    | Committed(m: Message)
    | CommitFailed(m: Message, code: int)
    | Observed(m: Message, failure: Option<Failure>)

  // What one iteration of the loop meets.
  datatype Poll =
    | ContextDone
    | NoEvent
    | Polled(m: Message)
    | BrokerError(allBrokersDown: bool)
    | OtherEvent

  datatype Stop = StillRunning | Cancelled | BrokersDown

  // ----- One message ---------------------------------------------------------

  datatype Handling = Handling(calls: nat, effects: seq<Effect>, failure: Option<Failure>)

  datatype Retried = Retried(calls: nat, effects: seq<Effect>, err: Option<int>)

  // The retry loop from its i-th turn, `err` being the error so far.
  function Retry(cfg: Config, w: World, calls: nat, m: Message, i: int, err: Option<int>): Retried
    decreases cfg.maxRetries - i
  {
    if i > cfg.maxRetries then Retried(calls, [], err)
    else
      var r := w.handler(calls);
      if r.None? then Retried(calls + 1, [Handled(m, r)], r)
      else After([Handled(m, r)], Retry(cfg, w, calls + 1, m, i + 1, r))
  }

  // A result of the retry loop after more effects.
  function After(done: seq<Effect>, r: Retried): Retried {
    r.(effects := done + r.effects)
  }

  lemma AfterTurn(done: seq<Effect>, more: seq<Effect>, r: Retried)
    ensures After(done, After(more, r)) == After(done + more, r)
  {
    assert done + (more + r.effects) == (done + more) + r.effects;
  }

  function CommitStep(cfg: Config, w: World, calls: nat, m: Message): Handling {
    if cfg.enableAutoCommit then Handling(calls, [], None)
    else match w.commit(calls)
      case None => Handling(calls + 1, [Committed(m)], None)
      case Some(e) => Handling(calls + 1, [CommitFailed(m, e)], Some(CommitError(e)))
  }

  function HookStep(cfg: Config, m: Message, failure: Option<Failure>): seq<Effect> {
    if cfg.hasHook then [Observed(m, failure)] else []
  }

  // Handler and commit, without the hook.
  function HandleAndCommit(cfg: Config, w: World, calls: nat, m: Message): Handling {
    var r := Retry(cfg, w, calls, m, 1, None);
    if r.err.Some? then Handling(r.calls, r.effects, Some(HandlerError(r.err.value)))
    else
      var c := CommitStep(cfg, w, r.calls, m);
      Handling(c.calls, r.effects + c.effects, c.failure)
  }

  function HandleMessage(cfg: Config, w: World, calls: nat, m: Message): Handling {
    var h := HandleAndCommit(cfg, w, calls, m);
    h.(effects := h.effects + HookStep(cfg, m, h.failure))
  }

  // ----- A run ---------------------------------------------------------------

  // The messages handled so far, each with its own effects.
  datatype Run = Run(calls: nat, blocks: seq<(Message, seq<Effect>)>, stop: Stop)

  function Iterate(cfg: Config, w: World, r: Run, poll: Poll): Run {
    if !r.stop.StillRunning? then r
    else match poll
      case ContextDone => r.(stop := Cancelled)
      case NoEvent => r
      case Polled(m) =>
        var h := HandleMessage(cfg, w, r.calls, m);
        r.(calls := h.calls, blocks := r.blocks + [(m, h.effects)])
      case BrokerError(down) => if down then r.(stop := BrokersDown) else r
      case OtherEvent => r
  }

  function Consume(cfg: Config, w: World, r: Run, polls: seq<Poll>): Run {
    if polls == [] then r
    else Iterate(cfg, w, Consume(cfg, w, r, polls[..|polls| - 1]), polls[|polls| - 1])
  }

  function Flatten(blocks: seq<(Message, seq<Effect>)>): seq<Effect> {
    if blocks == [] then []
    else Flatten(blocks[..|blocks| - 1]) + blocks[|blocks| - 1].1
  }

  const NEW_RUN: Run := Run(0, [], StillRunning)

  lemma FlattenOneMore(blocks: seq<(Message, seq<Effect>)>, b: (Message, seq<Effect>))
    ensures Flatten(blocks + [b]) == Flatten(blocks) + b.1
  {
    assert (blocks + [b])[..|blocks|] == blocks;
  }

  // ----- What each message's block looks like -------------------------------

  // All handler calls before the last failed.
  predicate CallsOf(m: Message, calls: seq<Effect>) {
    forall i :: 0 <= i < |calls| ==>
      (calls[i].Handled? && calls[i].m == m && (i < |calls| - 1 ==> calls[i].err.Some?))
  }

  // What the hook is told: the last handler error, or the commit's.
  function Told(calls: seq<Effect>, commit: seq<Effect>): Option<Failure>
    requires calls != [] && calls[|calls| - 1].Handled?
  {
    if calls[|calls| - 1].err.Some? then Some(HandlerError(calls[|calls| - 1].err.value))
    else if commit != [] && commit[0].CommitFailed? then Some(CommitError(commit[0].code))
    else None
  }

  // One commit attempt if the last call succeeded and commits are manual.
  predicate CommitOf(cfg: Config, m: Message, ok: bool, commit: seq<Effect>) {
    if ok && !cfg.enableAutoCommit
    then |commit| == 1 && (commit[0].Committed? || commit[0].CommitFailed?) && commit[0].m == m
    else commit == []
  }

  // The block of a message: its handler calls; then the commit attempt; then the
  // hook, once, with the outcome.
  predicate BlockOf(cfg: Config, m: Message, calls: seq<Effect>, commit: seq<Effect>, block: seq<Effect>)
    requires cfg.maxRetries >= 1
  {
    CallsOf(m, calls) && 1 <= |calls| <= cfg.maxRetries
    && (calls[|calls| - 1].err.Some? ==> |calls| == cfg.maxRetries)
    && CommitOf(cfg, m, calls[|calls| - 1].err.None?, commit)
    && block == calls + commit + (if cfg.hasHook then [Observed(m, Told(calls, commit))] else [])
  }

  ghost predicate GoodBlock(cfg: Config, m: Message, block: seq<Effect>)
    requires cfg.maxRetries >= 1
  {
    exists calls, commit :: BlockOf(cfg, m, calls, commit, block)
  }

  lemma {:induction false} RetryShape(cfg: Config, w: World, calls: nat, m: Message, i: int, err: Option<int>)
    requires 1 <= i <= cfg.maxRetries
    ensures var r := Retry(cfg, w, calls, m, i, err);
            CallsOf(m, r.effects) && 1 <= |r.effects| <= cfg.maxRetries - i + 1
            && r.effects[|r.effects| - 1].err == r.err
            && (r.err.Some? ==> |r.effects| == cfg.maxRetries - i + 1)
    decreases cfg.maxRetries - i
  {
    var r := w.handler(calls);
    if r.Some? && i < cfg.maxRetries {
      RetryShape(cfg, w, calls + 1, m, i + 1, r);
    }
  }

  lemma HandleMessageBlock(cfg: Config, w: World, calls: nat, m: Message)
    requires cfg.maxRetries >= 1
    ensures GoodBlock(cfg, m, HandleMessage(cfg, w, calls, m).effects)
  {
    RetryShape(cfg, w, calls, m, 1, None);
    var r := Retry(cfg, w, calls, m, 1, None);
    var commit := if r.err.Some? then [] else CommitStep(cfg, w, r.calls, m).effects;
    assert BlockOf(cfg, m, r.effects, commit, HandleMessage(cfg, w, calls, m).effects);
  }

  ghost predicate GoodBlocks(cfg: Config, blocks: seq<(Message, seq<Effect>)>)
    requires cfg.maxRetries >= 1
  {
    forall i :: 0 <= i < |blocks| ==> GoodBlock(cfg, blocks[i].0, blocks[i].1)
  }

  lemma {:induction false} RunBlocks(cfg: Config, w: World, polls: seq<Poll>)
    requires cfg.maxRetries >= 1
    ensures GoodBlocks(cfg, Consume(cfg, w, NEW_RUN, polls).blocks)
  {
    if polls != [] {
      var before := Consume(cfg, w, NEW_RUN, polls[..|polls| - 1]);
      RunBlocks(cfg, w, polls[..|polls| - 1]);
      if polls[|polls| - 1].Polled? {
        HandleMessageBlock(cfg, w, before.calls, polls[|polls| - 1].m);
      }
    }
  }

  // ----- Whole runs ----------------------------------------------------------

  function Messages(polls: seq<Poll>): seq<Message> {
    if polls == [] then []
    else
      var last := polls[|polls| - 1];
      Messages(polls[..|polls| - 1]) + (if last.Polled? then [last.m] else [])
  }

  // A partition's messages are polled in the order of their offsets, whatever
  // other partitions bring in between.
  predicate Increasing(ms: seq<Message>, at: TopicPartition) {
    forall i, j :: 0 <= i < j < |ms| && ms[i].at == ms[j].at == at ==> ms[i].offset < ms[j].offset
  }

  // The messages handled are those polled before the loop stopped, in order, each
  // once.
  lemma {:induction false} HandledInOrder(cfg: Config, w: World, polls: seq<Poll>)
    ensures var r := Consume(cfg, w, NEW_RUN, polls);
            |r.blocks| <= |Messages(polls)|
            && (forall i :: 0 <= i < |r.blocks| ==> r.blocks[i].0 == Messages(polls)[i])
            && (r.stop.StillRunning? ==> |r.blocks| == |Messages(polls)|)
  {
    if polls != [] {
      HandledInOrder(cfg, w, polls[..|polls| - 1]);
    }
  }

  // What ends the loop: a cancelled context, or all brokers down.
  predicate Ends(poll: Poll) {
    poll.ContextDone? || (poll.BrokerError? && poll.allBrokersDown)
  }

  predicate NoEnd(polls: seq<Poll>) {
    forall i :: 0 <= i < |polls| ==> !Ends(polls[i])
  }

  // The loop runs on as long as it meets none of these.
  lemma {:induction false} StopsExactlyWhen(cfg: Config, w: World, polls: seq<Poll>)
    ensures Consume(cfg, w, NEW_RUN, polls).stop.StillRunning? <==> NoEnd(polls)
  {
    if polls != [] {
      var n := |polls| - 1;
      StopsExactlyWhen(cfg, w, polls[..n]);
      assert NoEnd(polls) <==> NoEnd(polls[..n]) && !Ends(polls[n]);
    }
  }

  // It stops at the first of them, and what it has handled then are exactly the
  // messages polled before it.
  lemma {:induction false} StopsAtTheFirst(cfg: Config, w: World, polls: seq<Poll>, k: nat)
    requires k < |polls| && Ends(polls[k]) && NoEnd(polls[..k])
    ensures var r := Consume(cfg, w, NEW_RUN, polls);
            |r.blocks| == |Messages(polls[..k])|
            && r.stop == if polls[k].ContextDone? then Cancelled else BrokersDown
  {
    var n := |polls| - 1;
    if k == n {
      StopsExactlyWhen(cfg, w, polls[..n]);
      HandledInOrder(cfg, w, polls[..n]);
    } else {
      assert polls[..n][..k] == polls[..k];
      StopsAtTheFirst(cfg, w, polls[..n], k);
    }
  }

  lemma CommitInBlock(cfg: Config, m: Message, block: seq<Effect>, j: int)
    requires cfg.maxRetries >= 1 && GoodBlock(cfg, m, block)
    requires 0 <= j < |block| && block[j].Committed?
    ensures block[j].m == m && j > 0 && block[j - 1] == Handled(m, None)
    ensures forall k :: 0 <= k < |block| && block[k].Committed? ==> k == j
  {
    var calls, commit :| BlockOf(cfg, m, calls, commit, block);
    assert forall k :: 0 <= k < |calls| ==> block[k] == (calls + commit)[k] == calls[k];
    assert forall k :: |calls| <= k < |calls| + |commit| ==> block[k] == (calls + commit)[k] == commit[k - |calls|];
  }

  // Position k of the run's effects is position j of block b.
  lemma {:induction false} FlattenAt(blocks: seq<(Message, seq<Effect>)>, k: int) returns (b: int, j: int)
    requires 0 <= k < |Flatten(blocks)|
    ensures 0 <= b < |blocks| && 0 <= j < |blocks[b].1|
    ensures k == |Flatten(blocks[..b])| + j && Flatten(blocks)[k] == blocks[b].1[j]
    ensures j > 0 ==> Flatten(blocks)[k - 1] == blocks[b].1[j - 1]
  {
    var n := |blocks| - 1;
    var before := Flatten(blocks[..n]);
    if k >= |before| {
      b, j := n, k - |before|;
    } else {
      b, j := FlattenAt(blocks[..n], k);
      assert blocks[..n][..b] == blocks[..b];
    }
  }

  lemma {:induction false} FlattenGrows(blocks: seq<(Message, seq<Effect>)>, b: int, c: int)
    requires 0 <= b < c <= |blocks|
    ensures |Flatten(blocks[..b])| + |blocks[b].1| <= |Flatten(blocks[..c])|
    decreases c
  {
    assert blocks[..c][..c - 1] == blocks[..c - 1];
    if b < c - 1 { FlattenGrows(blocks, b, c - 1); }
  }

  // The calls to the handler and the broker among the effects, in order.
  function CallsIn(es: seq<Effect>): seq<Effect> {
    if es == [] then []
    else CallsIn(es[..|es| - 1]) + (if es[|es| - 1].Observed? then [] else [es[|es| - 1]])
  }

  lemma {:induction false} CallsInConcat(a: seq<Effect>, b: seq<Effect>)
    ensures CallsIn(a + b) == CallsIn(a) + CallsIn(b)
  {
    if b == [] {
      assert a + b == a;
    } else {
      assert (a + b)[..|a + b| - 1] == a + b[..|b| - 1] && (a + b)[|a + b| - 1] == b[|b| - 1];
      CallsInConcat(a, b[..|b| - 1]);
    }
  }

  // The effect is what the world answered to call n.
  predicate Answers(w: World, n: nat, e: Effect) {
    match e
    case Handled(_, err) => err == w.handler(n)
    case Committed(_) => w.commit(n) == None
    case CommitFailed(_, code) => w.commit(n) == Some(code)
    case Observed(_, _) => true
  }

  predicate AllAnswered(w: World, from: nat, es: seq<Effect>) {
    forall k :: 0 <= k < |es| ==> Answers(w, from + k, es[k])
  }

  lemma AnsweredConcat(w: World, from: nat, a: seq<Effect>, b: seq<Effect>)
    requires AllAnswered(w, from, a) && AllAnswered(w, from + |a|, b)
    ensures AllAnswered(w, from, a + b)
  {
    forall k | 0 <= k < |a + b| ensures Answers(w, from + k, (a + b)[k]) {
      if k >= |a| { assert Answers(w, from + |a| + (k - |a|), b[k - |a|]); }
    }
  }

  // The k-th handler call of the retry loop is the handler's k-th answer.
  lemma {:induction false} RetryAnswers(cfg: Config, w: World, calls: nat, m: Message, i: int, err: Option<int>)
    ensures var r := Retry(cfg, w, calls, m, i, err);
            r.calls == calls + |r.effects| && AllAnswered(w, calls, r.effects)
            && (forall k :: 0 <= k < |r.effects| ==> r.effects[k] == Handled(m, w.handler(calls + k)))
    decreases cfg.maxRetries - i
  {
    if i <= cfg.maxRetries {
      var first := Handled(m, w.handler(calls));
      if w.handler(calls).Some? {
        var rest := Retry(cfg, w, calls + 1, m, i + 1, w.handler(calls));
        RetryAnswers(cfg, w, calls + 1, m, i + 1, w.handler(calls));
        AnsweredConcat(w, calls, [first], rest.effects);
      }
    }
  }

  lemma {:induction false} NoObserved(es: seq<Effect>)
    requires forall e :: e in es ==> !e.Observed?
    ensures CallsIn(es) == es
  {
    if es != [] {
      NoObserved(es[..|es| - 1]);
      assert es[|es| - 1] in es && es == es[..|es| - 1] + [es[|es| - 1]];
    }
  }

  lemma HandleAndCommitAnswers(cfg: Config, w: World, calls: nat, m: Message)
    ensures var h := HandleAndCommit(cfg, w, calls, m);
            h.calls == calls + |h.effects| && AllAnswered(w, calls, h.effects)
            && forall e :: e in h.effects ==> !e.Observed?
  {
    var r := Retry(cfg, w, calls, m, 1, None);
    RetryAnswers(cfg, w, calls, m, 1, None);
    if r.err.None? {
      var c := CommitStep(cfg, w, r.calls, m);
      assert AllAnswered(w, r.calls, c.effects);
      AnsweredConcat(w, calls, r.effects, c.effects);
    }
  }

  lemma HookIsNoCall(cfg: Config, es: seq<Effect>, m: Message, failure: Option<Failure>)
    requires forall e :: e in es ==> !e.Observed?
    ensures CallsIn(es + HookStep(cfg, m, failure)) == es
  {
    var hook := HookStep(cfg, m, failure);
    NoObserved(es);
    CallsInConcat(es, hook);
    if hook != [] { assert hook[..0] == []; }
  }

  lemma HandleAnswers(cfg: Config, w: World, calls: nat, m: Message)
    ensures var h := HandleMessage(cfg, w, calls, m);
            h.calls == calls + |CallsIn(h.effects)| && AllAnswered(w, calls, CallsIn(h.effects))
  {
    var h := HandleAndCommit(cfg, w, calls, m);
    HandleAndCommitAnswers(cfg, w, calls, m);
    HookIsNoCall(cfg, h.effects, m, h.failure);
  }

  // The calls of these blocks are those of the run up to its call number `calls`.
  predicate Recorded(w: World, calls: nat, blocks: seq<(Message, seq<Effect>)>) {
    var es := CallsIn(Flatten(blocks));
    calls == |es| && AllAnswered(w, 0, es)
  }

  lemma RecordOneMore(cfg: Config, w: World, calls: nat, blocks: seq<(Message, seq<Effect>)>, m: Message)
    requires Recorded(w, calls, blocks)
    ensures var h := HandleMessage(cfg, w, calls, m); Recorded(w, h.calls, blocks + [(m, h.effects)])
  {
    var h := HandleMessage(cfg, w, calls, m);
    HandleAnswers(cfg, w, calls, m);
    FlattenOneMore(blocks, (m, h.effects));
    CallsInConcat(Flatten(blocks), h.effects);
    AnsweredConcat(w, 0, CallsIn(Flatten(blocks)), CallsIn(h.effects));
  }

  lemma {:induction false} RunRecorded(cfg: Config, w: World, polls: seq<Poll>)
    ensures var r := Consume(cfg, w, NEW_RUN, polls); Recorded(w, r.calls, r.blocks)
  {
    if polls != [] {
      var before := Consume(cfg, w, NEW_RUN, polls[..|polls| - 1]);
      RunRecorded(cfg, w, polls[..|polls| - 1]);
      if polls[|polls| - 1].Polled? {
        RecordOneMore(cfg, w, before.calls, before.blocks, polls[|polls| - 1].m);
      }
    }
  }

  // In every run the calls among the effects, numbered in order, are exactly the
  // calls made, each with the world's answer: a handler call with the handler's, a
  // commit recorded as done exactly when the broker took it.
  lemma EffectsAreTheCalls(cfg: Config, w: World, polls: seq<Poll>)
    ensures var r := Consume(cfg, w, NEW_RUN, polls);
            r.calls == |CallsIn(Flatten(r.blocks))| && AllAnswered(w, 0, CallsIn(Flatten(r.blocks)))
  {
    RunRecorded(cfg, w, polls);
  }

  // The effect at k is the call numbered by the calls before it.
  lemma CallAt(es: seq<Effect>, k: nat)
    requires k < |es| && !es[k].Observed?
    ensures var n := |CallsIn(es[..k])|; n < |CallsIn(es)| && CallsIn(es)[n] == es[k]
    ensures CallsIn(es[..k + 1]) == CallsIn(es[..k]) + [es[k]]
  {
    assert es[..k + 1][..k] == es[..k];
    CallsInConcat(es[..k + 1], es[k + 1..]);
    assert es[..k + 1] + es[k + 1..] == es;
  }

  // The position is set only right after a handler call that succeeded on the
  // very message committed, and only when the broker takes the commit: calls n
  // and n + 1 of the run.
  lemma CommitFollowsSuccess(cfg: Config, w: World, polls: seq<Poll>, k: int) returns (n: nat)
    requires cfg.maxRetries >= 1
    requires var es := Flatten(Consume(cfg, w, NEW_RUN, polls).blocks); 0 <= k < |es| && es[k].Committed?
    ensures var es := Flatten(Consume(cfg, w, NEW_RUN, polls).blocks);
            k > 0 && es[k - 1] == Handled(es[k].m, None)
    ensures w.handler(n) == None && w.commit(n + 1) == None
  {
    var r := Consume(cfg, w, NEW_RUN, polls);
    var es := Flatten(r.blocks);
    RunBlocks(cfg, w, polls);
    var b, j := FlattenAt(r.blocks, k);
    CommitInBlock(cfg, r.blocks[b].0, r.blocks[b].1, j);
    EffectsAreTheCalls(cfg, w, polls);
    n := CallsBehind(w, es, k);
  }

  lemma CallsBehind(w: World, es: seq<Effect>, k: int) returns (n: nat)
    requires 0 < k < |es| && es[k - 1].Handled? && es[k].Committed? && AllAnswered(w, 0, CallsIn(es))
    ensures w.handler(n) == es[k - 1].err && w.commit(n + 1) == None
  {
    CallAt(es, k - 1);
    CallAt(es, k);
    n := |CallsIn(es[..k - 1])|;
    assert Answers(w, 0 + n, CallsIn(es)[n]) && Answers(w, 0 + (n + 1), CallsIn(es)[n + 1]);
  }

  // On every partition the committed position only moves forward.
  lemma PositionIsMonotone(cfg: Config, w: World, polls: seq<Poll>, at: TopicPartition, k: int, l: int)
    requires cfg.maxRetries >= 1 && Increasing(Messages(polls), at)
    requires var es := Flatten(Consume(cfg, w, NEW_RUN, polls).blocks);
             0 <= k < l < |es| && es[k].Committed? && es[l].Committed? && es[k].m.at == es[l].m.at == at
    ensures var es := Flatten(Consume(cfg, w, NEW_RUN, polls).blocks); es[k].m.offset < es[l].m.offset
  {
    var r := Consume(cfg, w, NEW_RUN, polls);
    RunBlocks(cfg, w, polls);
    HandledInOrder(cfg, w, polls);
    var b, i := FlattenAt(r.blocks, k);
    var c, j := FlattenAt(r.blocks, l);
    CommitInBlock(cfg, r.blocks[b].0, r.blocks[b].1, i);
    CommitInBlock(cfg, r.blocks[c].0, r.blocks[c].1, j);
    if c < b { FlattenGrows(r.blocks, c, b); }
  }

  // Every message polled from a partition up to a committed one was handled,
  // once: called at least once and at most maxRetries times, until it succeeded
  // or maxRetries calls had failed, with the hook told once. A failed message is
  // thus skipped for good, never lost without its calls.
  lemma BelowThePosition(cfg: Config, w: World, polls: seq<Poll>, k: int, i: int)
    requires cfg.maxRetries >= 1 && 0 <= i < |Messages(polls)| && Increasing(Messages(polls), Messages(polls)[i].at)
    requires var es := Flatten(Consume(cfg, w, NEW_RUN, polls).blocks);
             var m := Messages(polls)[i];
             0 <= k < |es| && es[k].Committed? && es[k].m.at == m.at && m.offset <= es[k].m.offset
    ensures var r := Consume(cfg, w, NEW_RUN, polls);
            i < |r.blocks| && r.blocks[i].0 == Messages(polls)[i] && GoodBlock(cfg, r.blocks[i].0, r.blocks[i].1)
  {
    var r := Consume(cfg, w, NEW_RUN, polls);
    RunBlocks(cfg, w, polls);
    HandledInOrder(cfg, w, polls);
    var b, j := FlattenAt(r.blocks, k);
    CommitInBlock(cfg, r.blocks[b].0, r.blocks[b].1, j);
  }

  // All of this needs at least one retry allowed, which the configuration's
  // validation does not ask for: a message reaches the handler if and only if
  // maxRetries is at least 1, and is committed all the same if it is not.
  lemma HandledExactlyWhen(cfg: Config, w: World, calls: nat, m: Message)
    ensures (exists e :: e in HandleMessage(cfg, w, calls, m).effects && e.Handled?) <==> cfg.maxRetries >= 1
    ensures cfg.maxRetries < 1 && !cfg.enableAutoCommit && w.commit(calls).None?
            ==> Committed(m) in HandleMessage(cfg, w, calls, m).effects
  {
    var es := Retry(cfg, w, calls, m, 1, None).effects;
    if cfg.maxRetries >= 1 {
      assert es[0].Handled? && es[0] in HandleMessage(cfg, w, calls, m).effects;
    } else if w.commit(calls).None? && !cfg.enableAutoCommit {
      assert HandleMessage(cfg, w, calls, m).effects[0] == Committed(m);
    }
  }

  // ----- The consumer object -------------------------------------------------

  class ConsumeInstance {
    const cfg: Config
    const world: World
    var calls: nat
    var closed: bool
    var stop: Stop
    ghost var blocks: seq<(Message, seq<Effect>)>
    ghost var trace: seq<Effect>

    ghost predicate Valid()
      reads this
    {
      trace == Flatten(blocks)
    }

    ghost function View(): Run
      reads this
    {
      Run(calls, blocks, stop)
    }

    constructor (cfg: Config, world: World)
      ensures this.cfg == cfg && this.world == world && Valid() && View() == NEW_RUN && !closed
    {
      this.cfg, this.world := cfg, world;
      calls, closed, stop, blocks, trace := 0, false, StillRunning, [], [];
    }

    method Close() returns (first: bool)
      modifies this`closed
      ensures closed && (first <==> !old(closed))
    {
      first := !closed;
      closed := true;
    }

    // Call the handler until it succeeds or maxRetries calls have failed.
    method CallHandler(m: Message) returns (err: Option<int>)
      modifies this`calls, this`trace
      ensures var r := Retry(cfg, world, old(calls), m, 1, None);
              calls == r.calls && trace == old(trace) + r.effects && err == r.err
    {
      ghost var all := Retry(cfg, world, calls, m, 1, None);
      ghost var done: seq<Effect> := [];
      assert all == After(done, all);
      err := None;
      var i := 1;
      while i <= cfg.maxRetries
        invariant trace == old(trace) + done
        invariant all == After(done, Retry(cfg, world, calls, m, i, err))
        decreases cfg.maxRetries - i
      {
        err := world.handler(calls);
        calls := calls + 1;
        trace := trace + [Handled(m, err)];
        AfterTurn(done, [Handled(m, err)], Retry(cfg, world, calls, m, i + 1, err));
        done := done + [Handled(m, err)];
        if err.None? {
          assert all == Retried(calls, done, err);
          return;
        }
        i := i + 1;
      }
    }

    method CommitMessage(m: Message) returns (failure: Option<Failure>)
      modifies this`calls, this`trace
      ensures var h := CommitStep(cfg, world, old(calls), m);
              calls == h.calls && trace == old(trace) + h.effects && failure == h.failure
    {
      failure := None;
      if !cfg.enableAutoCommit {
        var r := world.commit(calls);
        calls := calls + 1;
        trace := trace + [if r.None? then Committed(m) else CommitFailed(m, r.value)];
        if r.Some? {
          failure := Some(CommitError(r.value));
        }
      }
    }

    method CallAndCommit(m: Message) returns (failure: Option<Failure>)
      modifies this`calls, this`trace
      ensures var h := HandleAndCommit(cfg, world, old(calls), m);
              calls == h.calls && trace == old(trace) + h.effects && failure == h.failure
    {
      var err := CallHandler(m);
      if err.Some? {
        return Some(HandlerError(err.value));
      }
      failure := CommitMessage(m);
    }

    // The hook hears of the outcome, whatever it is.
    method HandlerMessage(m: Message) returns (failure: Option<Failure>)
      requires Valid()
      modifies this`calls, this`blocks, this`trace
      ensures Valid()
      ensures var h := HandleMessage(cfg, world, old(calls), m);
              calls == h.calls && failure == h.failure && blocks == old(blocks) + [(m, h.effects)]
    {
      ghost var h := HandleMessage(cfg, world, calls, m);
      failure := CallAndCommit(m);
      if cfg.hasHook {
        trace := trace + [Observed(m, failure)];
      }
      FlattenOneMore(blocks, (m, h.effects));
      blocks := blocks + [(m, h.effects)];
    }

    // The loop over what its iterations meet, until it stops or they run out.
    method ConsumeLoop(polls: seq<Poll>)
      requires Valid() && View() == NEW_RUN
      modifies this`calls, this`blocks, this`trace, this`stop
      ensures Valid() && View() == Consume(cfg, world, NEW_RUN, polls)
    {
      for i := 0 to |polls|
        invariant Valid() && View() == Consume(cfg, world, NEW_RUN, polls[..i])
      {
        assert polls[..i + 1][..i] == polls[..i];
        if stop == StillRunning {
          match polls[i]
          case ContextDone => stop := Cancelled;
          case Polled(m) => var failure := HandlerMessage(m);
          case BrokerError(down) =>
            if down {
              stop := BrokersDown;
            }
          case NoEvent =>
          case OtherEvent =>
        }
      }
      assert polls[..|polls|] == polls;
    }
  }
}
