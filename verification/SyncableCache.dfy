// The periodically synced cache (cache/syncable_cache.go): one sync with its
// retries, and the cache as a register under any interleaving of syncs and
// reads.
module SyncableCache {
  import opened Common
  import opened GoValues
  import opened Backoff

  // An error of the sync function: whether context.DeadlineExceeded is in its
  // chain, and its text.
  datatype Error = Error(deadlineExceeded: bool, text: string)

  const RETRYABLE_TEXTS: seq<string> := [
    "connection refused", "connection reset", "broken pipe", "timeout",
    "too many connections", "temporary failure", "network is unreachable"]

  predicate IsRetryable(err: Error) {
    err.deadlineExceeded || exists i :: 0 <= i < |RETRYABLE_TEXTS| && Contains(err.text, RETRYABLE_TEXTS[i])
  }

  // An error is retried exactly when the deadline was exceeded or its text says
  // one of seven things.
  lemma RetriedExactlyWhen(err: Error)
    ensures IsRetryable(err) <==>
              err.deadlineExceeded
              || Within(err.text, "connection refused") || Within(err.text, "connection reset")
              || Within(err.text, "broken pipe") || Within(err.text, "timeout")
              || Within(err.text, "too many connections") || Within(err.text, "temporary failure")
              || Within(err.text, "network is unreachable")
  {
    forall i | 0 <= i < |RETRYABLE_TEXTS|
      ensures Contains(err.text, RETRYABLE_TEXTS[i]) <==> Within(err.text, RETRYABLE_TEXTS[i])
    {
      ContainsIsWithin(err.text, RETRYABLE_TEXTS[i]);
    }
    SevenTexts();
  }

  lemma SevenTexts()
    ensures |RETRYABLE_TEXTS| == 7
    ensures RETRYABLE_TEXTS[0] == "connection refused" && RETRYABLE_TEXTS[1] == "connection reset"
    ensures RETRYABLE_TEXTS[2] == "broken pipe" && RETRYABLE_TEXTS[3] == "timeout"
    ensures RETRYABLE_TEXTS[4] == "too many connections" && RETRYABLE_TEXTS[5] == "temporary failure"
    ensures RETRYABLE_TEXTS[6] == "network is unreachable"
  {
  }

  // The sync function's answers in the order of its calls, and what converting
  // 2^n to a 64-bit integer gives when it does not fit (n >= 63).
  datatype World<!T> = World(answer: nat -> Result<T, Error>, oddPower: nat -> int)

  // ----- One sync ------------------------------------------------------------

  // time.Duration(math.Pow(2, n)) * time.Second
  function PauseNs<T>(w: World<T>, n: nat): (r: int)
    ensures InRange(Int64, r)
  {
    if n <= 62 then BackoffNs(n) else WrapTo(Int64, WrapTo(Int64, w.oddPower(n)) * SECOND)
  }

  datatype Synced<T> = Synced(calls: nat, waitedNs: nat, result: Result<T, Error>)

  // The retry loop from `attempt`; it fails with the last error.
  function Sync<T>(w: World<T>, calls: nat, maxRetries: nat, attempt: nat): Synced<T>
    requires attempt < maxRetries
    decreases maxRetries - attempt
  {
    var waited := if attempt > 0 then Waited(PauseNs(w, attempt - 1)) else 0;
    var r := w.answer(calls);
    if r.Ok? || !IsRetryable(r.error) || attempt + 1 == maxRetries then Synced(calls + 1, waited, r)
    else
      Longer(waited, Sync(w, calls + 1, maxRetries, attempt + 1))
  }

  function Longer<T>(waited: nat, s: Synced<T>): Synced<T> {
    s.(waitedNs := waited + s.waitedNs)
  }

  lemma PauseBounded<T>(w: World<T>, n: nat)
    ensures Waited(PauseNs(w, n)) <= Pow2(n) * SECOND
  {
    if n <= 62 {
      BackoffBounded(n);
    } else {
      Pow2At33();
      Pow2Monotone(34, n);
    }
  }

  // A sync makes between one and maxRetries calls and stops at the first answer
  // that is a success or an error not worth retrying: all answers before the
  // last are retryable errors, and the last is final or the maxRetries-th.
  lemma {:induction false} SyncShape<T>(w: World<T>, calls: nat, maxRetries: nat, attempt: nat)
    requires attempt < maxRetries
    ensures var s := Sync(w, calls, maxRetries, attempt);
            var made := s.calls - calls;
            1 <= made <= maxRetries - attempt
            && (forall i :: calls <= i < s.calls - 1 ==> w.answer(i).Err? && IsRetryable(w.answer(i).error))
            && s.result == w.answer(s.calls - 1)
            && (s.result.Ok? || !IsRetryable(s.result.error) || made == maxRetries - attempt)
    decreases maxRetries - attempt
  {
    var r := w.answer(calls);
    if r.Err? && IsRetryable(r.error) && attempt + 1 < maxRetries {
      SyncShape(w, calls + 1, maxRetries, attempt + 1);
    }
  }

  // The pauses before `made` calls in a row, the first of them that of `attempt`:
  // none before the very first call of a sync.
  function PauseSum<T>(w: World<T>, attempt: nat, made: nat): nat
    decreases made
  {
    if made == 0 then 0
    else (if attempt > 0 then Waited(PauseNs(w, attempt - 1)) else 0) + PauseSum(w, attempt + 1, made - 1)
  }

  // A sync pauses between two calls and nowhere else.
  lemma {:induction false} SyncPausesExactly<T>(w: World<T>, calls: nat, maxRetries: nat, attempt: nat)
    requires attempt < maxRetries
    ensures var s := Sync(w, calls, maxRetries, attempt);
            s.calls > calls && s.waitedNs == PauseSum(w, attempt, s.calls - calls)
    decreases maxRetries - attempt
  {
    var r := w.answer(calls);
    if r.Err? && IsRetryable(r.error) && attempt + 1 < maxRetries {
      SyncPausesExactly(w, calls + 1, maxRetries, attempt + 1);
    }
  }

  lemma {:induction false} PauseSumFrom<T>(w: World<T>, attempt: nat, made: nat)
    requires 1 <= attempt && attempt + made <= 35
    ensures PauseSum(w, attempt, made) == (Pow2(attempt + made - 1) - Pow2(attempt - 1)) * SECOND
    decreases made
  {
    if made > 0 {
      BackoffExact(attempt - 1);
      PauseSumFrom(w, attempt + 1, made - 1);
    }
  }

  // The pauses of a sync that makes `made` calls, at most 35, add up to
  // 2^(made-1) - 1 seconds.
  lemma PausesInSeconds<T>(w: World<T>, calls: nat, maxRetries: nat, made: nat)
    requires maxRetries >= 1 && 1 <= made <= 35 && Sync(w, calls, maxRetries, 0).calls == calls + made
    ensures Sync(w, calls, maxRetries, 0).waitedNs == (Pow2(made - 1) - 1) * SECOND
  {
    SyncPausesExactly(w, calls, maxRetries, 0);
    PauseSumFrom(w, 1, made - 1);
  }

  // The seconds a sync may still pause from this attempt on.
  function PauseBudget(maxRetries: nat, attempt: nat): int
    requires attempt < maxRetries
  {
    Pow2(maxRetries - 1) - (if attempt == 0 then 1 else Pow2(attempt - 1))
  }

  lemma BudgetStep(maxRetries: nat, attempt: nat)
    requires attempt < maxRetries
    ensures PauseBudget(maxRetries, attempt) >= (if attempt == 0 then 0 else Pow2(attempt - 1))
    ensures attempt + 1 < maxRetries ==>
              PauseBudget(maxRetries, attempt)
              == PauseBudget(maxRetries, attempt + 1) + (if attempt == 0 then 0 else Pow2(attempt - 1))
  {
    Pow2Monotone(attempt, maxRetries - 1);
  }

  // A sync's pauses add up to less than 2^(maxRetries-1) seconds.
  lemma {:induction false} SyncPauses<T>(w: World<T>, calls: nat, maxRetries: nat, attempt: nat)
    requires attempt < maxRetries
    ensures Sync(w, calls, maxRetries, attempt).waitedNs <= PauseBudget(maxRetries, attempt) * SECOND
    decreases maxRetries - attempt
  {
    BudgetStep(maxRetries, attempt);
    if attempt > 0 { PauseBounded(w, attempt - 1); }
    var r := w.answer(calls);
    if r.Err? && IsRetryable(r.error) && attempt + 1 < maxRetries {
      SyncPauses(w, calls + 1, maxRetries, attempt + 1);
    }
  }

  // ----- Starting and stopping -----------------------------------------------

  // Every Start makes a context of its own, the latest being the one Stop can
  // cancel: how many there are, which are cancelled, which have a goroutine, and
  // whether Stop was called.
  datatype Life = Life(contexts: nat, cancelled: set<nat>, loops: set<nat>, stopped: bool)

  datatype LifeCall = StartCall(ok: bool) | StopCall

  const UNBORN := Life(0, {}, {}, false)

  function LifeNext(l: Life, c: LifeCall): Life {
    match c
    case StartCall(ok) =>
      if ok then l.(contexts := l.contexts + 1, loops := l.loops + {l.contexts})
      else l.(contexts := l.contexts + 1, cancelled := l.cancelled + {l.contexts})
    case StopCall =>
      if l.stopped || l.contexts == 0 then l.(stopped := true)
      else l.(stopped := true, cancelled := l.cancelled + {l.contexts - 1})
  }

  function LifeAfter(l: Life, calls: seq<LifeCall>): Life {
    if calls == [] then l else LifeNext(LifeAfter(l, calls[..|calls| - 1]), calls[|calls| - 1])
  }

  // The periodic syncs that nothing has told to stop.
  function Running(l: Life): set<nat> {
    l.loops - l.cancelled
  }

  // Which of these calls started a periodic sync.
  function Started(calls: seq<LifeCall>): set<nat> {
    set i: nat | i < |calls| && calls[i] == StartCall(true)
  }

  predicate OnlyStarts(calls: seq<LifeCall>) {
    forall i :: 0 <= i < |calls| ==> calls[i].StartCall?
  }

  predicate Numbered(l: Life) {
    (forall c :: c in l.loops ==> c < l.contexts) && (forall c :: c in l.cancelled ==> c < l.contexts)
  }

  lemma StartAdds(l: Life, ok: bool)
    requires Numbered(l)
    ensures var n := LifeNext(l, StartCall(ok));
            Numbered(n) && Running(n) == Running(l) + (if ok then {l.contexts} else {})
  {
    var n := LifeNext(l, StartCall(ok));
    assert l.contexts !in l.loops && l.contexts !in l.cancelled;
    forall c ensures c in Running(n) <==> c in Running(l) || (ok && c == l.contexts) {
    }
  }

  lemma StopTakesLatest(l: Life)
    requires Numbered(l)
    ensures var n := LifeNext(l, StopCall);
            n.stopped && Numbered(n) && n.contexts == l.contexts
            && Running(n) == if l.stopped || l.contexts == 0 then Running(l) else Running(l) - {l.contexts - 1}
  {
  }

  lemma StartedOneMore(calls: seq<LifeCall>, c: LifeCall)
    ensures Started(calls + [c]) == Started(calls) + (if c == StartCall(true) then {|calls|} else {})
  {
  }

  lemma {:induction false} BeforeStop(calls: seq<LifeCall>)
    requires OnlyStarts(calls)
    ensures var l := LifeAfter(UNBORN, calls);
            l.contexts == |calls| && !l.stopped && Numbered(l) && Running(l) == Started(calls)
  {
    if calls == [] {
      assert Running(UNBORN) == Started([]) == {};
    } else {
      var n := |calls| - 1;
      var before := LifeAfter(UNBORN, calls[..n]);
      BeforeStop(calls[..n]);
      StartAdds(before, calls[n].ok);
      StartedOneMore(calls[..n], calls[n]);
      assert calls == calls[..n] + [calls[n]];
    }
  }

  lemma {:induction false} AfterStop(l: Life, calls: seq<LifeCall>)
    requires l.stopped && Numbered(l)
    ensures LifeAfter(l, calls).stopped && Numbered(LifeAfter(l, calls))
    ensures Running(LifeAfter(l, calls)) == {} <==> Running(l) == {} && Started(calls) == {}
  {
    if calls == [] {
      assert Started([]) == {};
    } else {
      var n := |calls| - 1;
      var before := LifeAfter(l, calls[..n]);
      AfterStop(l, calls[..n]);
      StartedOneMore(calls[..n], calls[n]);
      assert calls == calls[..n] + [calls[n]];
      if calls[n].StartCall? { StartAdds(before, calls[n].ok); }
    }
  }

  lemma {:induction false} LifeConcat(l: Life, a: seq<LifeCall>, b: seq<LifeCall>)
    ensures LifeAfter(l, a + b) == LifeAfter(LifeAfter(l, a), b)
  {
    if b == [] {
      assert a + b == a;
    } else {
      assert (a + b)[..|a + b| - 1] == a + b[..|b| - 1];
      LifeConcat(l, a, b[..|b| - 1]);
    }
  }

  lemma EarlierStarts(calls: seq<LifeCall>)
    requires OnlyStarts(calls)
    ensures calls == [] ==> Started(calls) == {}
    ensures calls != [] ==>
              (Started(calls) - {|calls| - 1} == {} <==> forall i :: 0 <= i < |calls| - 1 ==> !calls[i].ok)
  {
    if calls != [] {
      var earlier := Started(calls) - {|calls| - 1};
      assert forall i: nat :: i in earlier <==> i < |calls| - 1 && calls[i] == StartCall(true);
      if i: nat :| i < |calls| - 1 && calls[i].ok { assert i in earlier; }
    }
  }

  lemma AtTheStop(starts: seq<LifeCall>)
    requires OnlyStarts(starts)
    ensures var l := LifeAfter(UNBORN, starts + [StopCall]);
            l.stopped && Numbered(l)
            && (Running(l) == {} <==> forall i :: 0 <= i < |starts| - 1 ==> !starts[i].ok)
  {
    BeforeStop(starts);
    StopTakesLatest(LifeAfter(UNBORN, starts));
    assert (starts + [StopCall])[..|starts|] == starts;
    EarlierStarts(starts);
  }

  // With a first Stop after the calls `starts`: no periodic sync is left running
  // if and only if none was started by any call but the last one before that
  // Stop. A second Start, failed or not, loses hold of what the first started,
  // and what starts after a Stop can no longer be stopped.
  lemma StoppedExactlyWhen(starts: seq<LifeCall>, later: seq<LifeCall>)
    requires OnlyStarts(starts)
    ensures Running(LifeAfter(UNBORN, starts + [StopCall] + later)) == {}
       <==> (forall i :: 0 <= i < |starts| - 1 ==> !starts[i].ok) && Started(later) == {}
  {
    AtTheStop(starts);
    LifeConcat(UNBORN, starts + [StopCall], later);
    AfterStop(LifeAfter(UNBORN, starts + [StopCall]), later);
  }

  // ----- The cache object ----------------------------------------------------

  class SyncableCache<T> {
    const world: World<T>
    const maxRetries: nat
    var cache: T
    var calls: nat
    var contexts: nat
    var cancelled: set<nat>
    var loops: set<nat>
    var stopped: bool
    ghost var stores: seq<T>
    ghost const initial: T

    // The cache holds what was stored last.
    ghost predicate Valid()
      reads this
    {
      maxRetries >= 1 && cache == (if stores == [] then initial else stores[|stores| - 1])
    }

    function Lifetime(): Life
      reads this
    {
      Life(contexts, cancelled, loops, stopped)
    }

    // zero is the zero value of T; the configuration's validation asks for at
    // least one attempt.
    constructor (world: World<T>, maxRetries: nat, zero: T)
      requires maxRetries >= 1
      ensures Valid() && this.world == world && this.maxRetries == maxRetries && cache == zero && stores == []
      ensures Lifetime() == UNBORN
    {
      this.world, this.maxRetries := world, maxRetries;
      this.initial, cache, stores := zero, zero, [];
      calls, contexts, cancelled, loops, stopped := 0, 0, {}, {}, false;
    }

    method Get() returns (v: T)
      requires Valid()
      ensures v == if stores == [] then initial else stores[|stores| - 1]
    {
      v := cache;
    }

    // On success the new data replaces the old; on failure nothing changes.
    method SyncWithRetry() returns (err: Option<Error>, ghost waited: nat)
      requires Valid()
      modifies this`cache, this`calls, this`stores
      ensures Valid()
      ensures var s := Sync(world, old(calls), maxRetries, 0);
              calls == s.calls && waited == s.waitedNs
              && match s.result
                 case Ok(data) => err == None && cache == data && stores == old(stores) + [data]
                 case Err(e) => err == Some(e) && cache == old(cache) && stores == old(stores)
    {
      ghost var all := Sync(world, calls, maxRetries, 0);
      waited := 0;
      for attempt := 0 to maxRetries
        invariant cache == old(cache) && stores == old(stores)
        invariant attempt < maxRetries
        invariant all == Longer(waited, Sync(world, calls, maxRetries, attempt))
      {
        if attempt > 0 {
          waited := waited + Waited(PauseNs(world, attempt - 1));
        }
        var r := world.answer(calls);
        calls := calls + 1;
        if r.Ok? {
          cache, stores := r.value, stores + [r.value];
          return None, waited;
        }
        if !IsRetryable(r.error) || attempt + 1 == maxRetries {
          return Some(r.error), waited;
        }
      }
      assert false;
    }

    // A new context; the periodic sync starts in it only after a first successful
    // sync, and a failed one cancels it.
    method Start() returns (err: Option<Error>)
      requires Valid()
      modifies this
      ensures Valid()
      ensures err.None? <==> Sync(world, old(calls), maxRetries, 0).result.Ok?
      ensures Lifetime() == LifeNext(old(Lifetime()), StartCall(err.None?))
      ensures if err.None? then |stores| == |old(stores)| + 1 else cache == old(cache)
    {
      var context := contexts;
      contexts := contexts + 1;
      ghost var waited;
      err, waited := SyncWithRetry();
      if err.None? {
        loops := loops + {context};
      } else {
        cancelled := cancelled + {context};
      }
    }

    // Only the first Stop does anything, and it cancels the latest context only.
    method Stop()
      modifies this`stopped, this`cancelled
      ensures Lifetime() == LifeNext(old(Lifetime()), StopCall)
    {
      if !stopped {
        stopped := true;
        if contexts > 0 {
          cancelled := cancelled + {contexts - 1};
        }
      }
    }
  }

  // ----- Interleaved syncs and reads ----------------------------------------

  // A sync under way, with the answers it got so far: it will call again, or it
  // is about to store the data of the last one under the lock.
  datatype Process<T> = Calling(answers: seq<Result<T, Error>>) | Storing(answers: seq<Result<T, Error>>, data: T)

  datatype State<T> = State(
    cache: T,
    syncs: map<nat, Process<T>>,
    // History: the initial value, the stores in lock order, the answers of the
    // syncs that ended, in the order of their ends, and each read with the number
    // of stores before it.
    initial: T,
    stores: seq<T>,
    ended: seq<seq<Result<T, Error>>>,
    gets: seq<(T, nat)>)

  datatype Action<T> =
    | Begin(id: nat)
    | Call(id: nat, answer: Result<T, Error>)
    | Store(id: nat)
    | Get

  predicate Enabled<T>(s: State<T>, a: Action<T>) {
    match a
    case Begin(id) => id !in s.syncs
    case Call(id, _) => id in s.syncs && s.syncs[id].Calling?
    case Store(id) => id in s.syncs && s.syncs[id].Storing?
    case Get => true
  }

  function Next<T>(maxRetries: nat, s: State<T>, a: Action<T>): State<T>
    requires Enabled(s, a)
  {
    match a
    case Begin(id) => s.(syncs := s.syncs[id := Calling([])])
    case Call(id, r) =>
      var answers := s.syncs[id].answers + [r];
      if r.Ok? then s.(syncs := s.syncs[id := Storing(answers, r.value)])
      else if !IsRetryable(r.error) || |answers| >= maxRetries then
        s.(syncs := s.syncs - {id}, ended := s.ended + [answers])
      else s.(syncs := s.syncs[id := Calling(answers)])
    case Store(id) =>
      var p := s.syncs[id];
      s.(cache := p.data, stores := s.stores + [p.data], syncs := s.syncs - {id}, ended := s.ended + [p.answers])
    case Get => s.(gets := s.gets + [(s.cache, |s.stores|)])
  }

  // What a read sees after the first n stores.
  function After<T>(initial: T, stores: seq<T>, n: nat): T
    requires n <= |stores|
  {
    if n == 0 then initial else stores[n - 1]
  }

  // The data of the ended syncs whose last answer was a success, in order.
  function Fetched<T>(ended: seq<seq<Result<T, Error>>>): seq<T> {
    if ended == [] then []
    else
      var answers := ended[|ended| - 1];
      Fetched(ended[..|ended| - 1])
      + (if answers != [] && answers[|answers| - 1].Ok? then [answers[|answers| - 1].value] else [])
  }

  // Errors worth another call.
  predicate AllRetryable<T>(answers: seq<Result<T, Error>>) {
    forall i :: 0 <= i < |answers| ==> answers[i].Err? && IsRetryable(answers[i].error)
  }

  // The answers of a whole sync: one to maxRetries of them, all before the last
  // retryable errors, the last a success, an error not worth retrying, or the
  // maxRetries-th.
  predicate WholeSync<T>(maxRetries: nat, answers: seq<Result<T, Error>>) {
    1 <= |answers| <= maxRetries
    && AllRetryable(answers[..|answers| - 1])
    && var last := answers[|answers| - 1];
       last.Ok? || !IsRetryable(last.error) || |answers| == maxRetries
  }

  ghost predicate Underway<T>(maxRetries: nat, p: Process<T>) {
    match p
    case Calling(answers) => |answers| < maxRetries && AllRetryable(answers)
    case Storing(answers, data) => WholeSync(maxRetries, answers) && answers[|answers| - 1] == Ok(data)
  }

  // Every read returned the data of the latest store before it, or the initial
  // value; what was stored is exactly the data the successful syncs were answered
  // last, in order; and every sync made the calls it should.
  ghost predicate Register<T>(maxRetries: nat, s: State<T>) {
    s.cache == After(s.initial, s.stores, |s.stores|)
    && (forall i :: 0 <= i < |s.gets| ==>
          s.gets[i].1 <= |s.stores| && s.gets[i].0 == After(s.initial, s.stores, s.gets[i].1))
    && (forall i, j :: 0 <= i < j < |s.gets| ==> s.gets[i].1 <= s.gets[j].1)
    && s.stores == Fetched(s.ended)
    && (forall i :: 0 <= i < |s.ended| ==> WholeSync(maxRetries, s.ended[i]))
    && (forall id :: id in s.syncs ==> Underway(maxRetries, s.syncs[id]))
  }

  function Exec<T>(maxRetries: nat, s: State<T>, run: seq<Action<T>>): Option<State<T>> {
    if run == [] then Some(s)
    else match Exec(maxRetries, s, run[..|run| - 1])
      case None => None
      case Some(t) =>
        var a := run[|run| - 1];
        if Enabled(t, a) then Some(Next(maxRetries, t, a)) else None
  }

  lemma FetchedOneMore<T>(ended: seq<seq<Result<T, Error>>>, answers: seq<Result<T, Error>>)
    requires answers != []
    ensures var last := answers[|answers| - 1];
            Fetched(ended + [answers]) == Fetched(ended) + (if last.Ok? then [last.value] else [])
  {
    assert (ended + [answers])[..|ended|] == ended;
  }

  lemma OneMoreAnswer<T>(maxRetries: nat, before: seq<Result<T, Error>>, r: Result<T, Error>)
    requires |before| < maxRetries && AllRetryable(before)
    ensures var final := r.Ok? || !IsRetryable(r.error) || |before| + 1 >= maxRetries;
            if final then WholeSync(maxRetries, before + [r]) else AllRetryable(before + [r])
  {
    assert (before + [r])[..|before|] == before;
  }

  lemma CallKeepsRegister<T>(maxRetries: nat, s: State<T>, id: nat, r: Result<T, Error>)
    requires Register(maxRetries, s) && Enabled(s, Call(id, r))
    ensures Register(maxRetries, Next(maxRetries, s, Call(id, r)))
  {
    var before := s.syncs[id].answers;
    assert Underway(maxRetries, s.syncs[id]);
    OneMoreAnswer(maxRetries, before, r);
    FetchedOneMore(s.ended, before + [r]);
  }

  lemma NextKeepsRegister<T>(maxRetries: nat, s: State<T>, a: Action<T>)
    requires maxRetries >= 1 && Register(maxRetries, s) && Enabled(s, a)
    ensures Register(maxRetries, Next(maxRetries, s, a))
  {
    match a
    case Call(id, r) => CallKeepsRegister(maxRetries, s, id, r);
    case Store(id) => FetchedOneMore(s.ended, s.syncs[id].answers);
    case _ =>
  }

  lemma {:induction false} RunKeepsRegister<T>(maxRetries: nat, s: State<T>, run: seq<Action<T>>)
    requires maxRetries >= 1 && Register(maxRetries, s)
    ensures var r := Exec(maxRetries, s, run); r.Some? ==> Register(maxRetries, r.value)
  {
    if run != [] {
      var before := run[..|run| - 1];
      RunKeepsRegister(maxRetries, s, before);
      var t := Exec(maxRetries, s, before);
      if t.Some? && Enabled(t.value, run[|run| - 1]) { NextKeepsRegister(maxRetries, t.value, run[|run| - 1]); }
    }
  }

  // A new cache.
  ghost predicate Initial<T>(s: State<T>) {
    s.cache == s.initial && s.syncs == map[] && s.stores == [] && s.ended == [] && s.gets == []
  }

  // In every interleaving of syncs and reads of a new cache it is a register.
  lemma CacheIsARegister<T>(maxRetries: nat, s0: State<T>, run: seq<Action<T>>)
    requires maxRetries >= 1 && Initial(s0)
    ensures var r := Exec(maxRetries, s0, run); r.Some? ==> Register(maxRetries, r.value)
  {
    RunKeepsRegister(maxRetries, s0, run);
  }

  // And each of its syncs is a run of the retry loop: answered the same, the loop
  // makes as many calls and ends with the same result.
  lemma {:induction false} EndedIsASync<T>(w: World<T>, calls: nat, maxRetries: nat, attempt: nat,
                                           answers: seq<Result<T, Error>>)
    requires attempt < maxRetries && WholeSync(maxRetries - attempt, answers)
    requires forall i :: 0 <= i < |answers| ==> w.answer(calls + i) == answers[i]
    ensures var s := Sync(w, calls, maxRetries, attempt);
            s.calls == calls + |answers| && s.result == answers[|answers| - 1]
    decreases |answers|
  {
    assert w.answer(calls + 0) == answers[0];
    if |answers| > 1 {
      assert answers[..|answers| - 1][0] == answers[0];
      var rest := answers[1..];
      forall i | 0 <= i < |rest| ensures w.answer(calls + 1 + i) == rest[i] {
        assert w.answer(calls + (1 + i)) == answers[1 + i];
      }
      forall i | 0 <= i < |rest| - 1 ensures rest[i].Err? && IsRetryable(rest[i].error) {
        assert rest[i] == answers[..|answers| - 1][i + 1];
      }
      EndedIsASync(w, calls + 1, maxRetries, attempt + 1, rest);
    }
  }
}
