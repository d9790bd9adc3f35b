// The schema cache of ch/writer.go under concurrent refreshes: the flush loop,
// the periodic refresh and manual refreshes all describe tables and store what
// they got; a refresh describes outside the lock and stores inside it.
module SchemaCache {
  import opened Common
  import opened Columns
  import opened Flush
  import opened InsertErrors

  // A refresh between its DESCRIBE and its store.
  datatype Refresh = Refresh(table: string, columns: seq<TableColumn>, index: nat)

  datatype State = State(
    cache: map<string, seq<TableColumn>>,
    refreshing: map<nat, Refresh>,
    // History: every DESCRIBE answer in order, and for each cached table the
    // number of the answer its entry came from.
    answers: seq<(string, DescribeReply)>,
    origin: map<string, nat>)

  datatype Action =
    | Lookup(table: string, reply: DescribeReply)          // getTableColumns, under the lock
    | RefreshFetch(id: nat, table: string, reply: DescribeReply)
    | RefreshStore(id: nat)

  predicate Enabled(s: State, a: Action) {
    match a
    case Lookup(_, _) => true
    case RefreshFetch(id, _, _) => id !in s.refreshing
    case RefreshStore(id) => id in s.refreshing
  }

  function Next(lib: ColumnLib, s: State, a: Action): State
    requires Enabled(s, a)
  {
    match a
    case Lookup(t, reply) =>
      if t in s.cache then s
      else
        var s1 := s.(answers := s.answers + [(t, reply)]);
        (match reply
         case DescribeFailed(_) => s1
         case Described(rows, _) =>
           s1.(cache := s.cache[t := ParseSchema(lib, rows)], origin := s.origin[t := |s.answers|]))
    case RefreshFetch(id, t, reply) =>
      var s1 := s.(answers := s.answers + [(t, reply)]);
      (match reply
       case DescribeFailed(_) => s1
       case Described(rows, _) =>
         s1.(refreshing := s.refreshing[id := Refresh(t, ParseSchema(lib, rows), |s.answers|)]))
    case RefreshStore(id) =>
      var f := s.refreshing[id];
      s.(cache := s.cache[f.table := f.columns], origin := s.origin[f.table := f.index],
         refreshing := s.refreshing - {id})
  }

  type Answers = seq<(string, DescribeReply)>

  // columns is the parse of the successful answer `index`, for table t.
  predicate ParseOf(lib: ColumnLib, answers: Answers, t: string, columns: seq<TableColumn>, index: nat) {
    index < |answers| && answers[index].0 == t && answers[index].1.Described?
    && columns == ParseSchema(lib, answers[index].1.rows)
  }

  predicate CacheFrom(lib: ColumnLib, answers: Answers, cache: map<string, seq<TableColumn>>,
                      origin: map<string, nat>)
  {
    cache.Keys == origin.Keys
    && forall t :: t in cache ==> ParseOf(lib, answers, t, cache[t], origin[t])
  }

  predicate RefreshesFrom(lib: ColumnLib, answers: Answers, refreshing: map<nat, Refresh>) {
    forall id :: id in refreshing ==>
      ParseOf(lib, answers, refreshing[id].table, refreshing[id].columns, refreshing[id].index)
  }

  // Every cached entry and every refresh under way holds the parse of an answer
  // that was received for its own table.
  predicate Agrees(lib: ColumnLib, s: State) {
    CacheFrom(lib, s.answers, s.cache, s.origin) && RefreshesFrom(lib, s.answers, s.refreshing)
  }

  lemma MoreAnswers(lib: ColumnLib, s: State, answer: (string, DescribeReply))
    requires Agrees(lib, s)
    ensures Agrees(lib, s.(answers := s.answers + [answer]))
  {
  }

  lemma NextAgrees(lib: ColumnLib, s: State, a: Action)
    requires Agrees(lib, s) && Enabled(s, a)
    ensures Agrees(lib, Next(lib, s, a))
    ensures s.cache.Keys <= Next(lib, s, a).cache.Keys
  {
    match a
    case Lookup(t, reply) =>
      if t !in s.cache {
        MoreAnswers(lib, s, (t, reply));
        if reply.Described? {
          assert ParseOf(lib, s.answers + [(t, reply)], t, ParseSchema(lib, reply.rows), |s.answers|);
        }
      }
    case RefreshFetch(id, t, reply) =>
      MoreAnswers(lib, s, (t, reply));
      if reply.Described? {
        assert ParseOf(lib, s.answers + [(t, reply)], t, ParseSchema(lib, reply.rows), |s.answers|);
      }
    case RefreshStore(id) =>
  }

  function Exec(lib: ColumnLib, s: State, run: seq<Action>): Option<State> {
    if run == [] then Some(s)
    else match Exec(lib, s, run[..|run| - 1])
      case None => None
      case Some(t) =>
        var a := run[|run| - 1];
        if Enabled(t, a) then Some(Next(lib, t, a)) else None
  }

  // In every interleaving each cached entry is the order-preserving filter and
  // parse of an earlier successful DESCRIBE of that very table, and no entry is
  // ever removed.
  lemma {:induction false} CacheAgrees(lib: ColumnLib, s: State, run: seq<Action>)
    requires Agrees(lib, s)
    ensures var r := Exec(lib, s, run); r.Some? ==> (Agrees(lib, r.value) && s.cache.Keys <= r.value.cache.Keys)
  {
    if run != [] {
      var before := run[..|run| - 1];
      CacheAgrees(lib, s, before);
      var t := Exec(lib, s, before);
      if t.Some? && Enabled(t.value, run[|run| - 1]) { NextAgrees(lib, t.value, run[|run| - 1]); }
    }
  }

  // The table an action can change, if any.
  function Touches(s: State, a: Action): Option<string>
    requires Enabled(s, a)
  {
    match a
    case Lookup(t, reply) => if t in s.cache || reply.DescribeFailed? then None else Some(t)
    case RefreshFetch(_, _, _) => None
    case RefreshStore(id) => Some(s.refreshing[id].table)
  }

  // A failed DESCRIBE and a refresh of another table leave an entry alone.
  lemma OthersUnchanged(lib: ColumnLib, s: State, a: Action, t: string)
    requires Enabled(s, a) && Touches(s, a) != Some(t)
    ensures t in Next(lib, s, a).cache <==> t in s.cache
    ensures t in s.cache ==> Next(lib, s, a).cache[t] == s.cache[t]
  {
  }

  // The number of t's latest successful answer; -1 if it has none.
  function LatestAnswer(answers: seq<(string, DescribeReply)>, t: string): (i: int)
    ensures -1 <= i < |answers|
    ensures i >= 0 ==> answers[i].0 == t && answers[i].1.Described?
    ensures forall j :: i < j < |answers| ==> !(answers[j].0 == t && answers[j].1.Described?)
  {
    if answers == [] then -1
    else
      var n := |answers| - 1;
      if answers[n].0 == t && answers[n].1.Described? then n else LatestAnswer(answers[..n], t)
  }

  lemma LatestOfMore(answers: Answers, x: (string, DescribeReply), t: string)
    ensures LatestAnswer(answers + [x], t)
         == if x.0 == t && x.1.Described? then |answers| else LatestAnswer(answers, t)
  {
    assert (answers + [x])[..|answers|] == answers;
  }

  // ----- When the cache holds the latest schema ------------------------------

  predicate PendingAs(s: State, id: nat, t: string) {
    id in s.refreshing && s.refreshing[id].table == t
  }

  ghost predicate Pending(s: State, t: string) {
    exists id :: PendingAs(s, id, t)
  }

  // The cache holds t's latest answer, or nothing if there was none.
  predicate IsLatest(s: State, t: string) {
    if t in s.cache then t in s.origin && s.origin[t] == LatestAnswer(s.answers, t)
    else LatestAnswer(s.answers, t) == -1
  }

  // The action brings an answer for t.
  predicate BringsAnswer(s: State, a: Action, t: string) {
    match a
    case Lookup(u, reply) => u == t && t !in s.cache && reply.Described?
    case RefreshFetch(_, u, reply) => u == t && reply.Described?
    case RefreshStore(_) => false
  }

  // Another answer for t arrives while a refresh of t is under way.
  ghost predicate Overlaps(s: State, a: Action, t: string) {
    Pending(s, t) && BringsAnswer(s, a, t)
  }

  ghost predicate NoOverlap(lib: ColumnLib, s: State, run: seq<Action>, t: string) {
    run == [] ||
    (var before := run[..|run| - 1];
     NoOverlap(lib, s, before, t)
     && match Exec(lib, s, before)
        case None => true
        case Some(r) => !Overlaps(r, run[|run| - 1], t))
  }

  // At most one refresh of t is under way, and it has t's latest answer.
  ghost predicate Fresh(s: State, t: string) {
    (forall id :: PendingAs(s, id, t) ==> s.refreshing[id].index == LatestAnswer(s.answers, t))
    && (forall i, j :: PendingAs(s, i, t) && PendingAs(s, j, t) ==> i == j)
    && (!Pending(s, t) ==> IsLatest(s, t))
  }

  // A new cache.
  predicate New(s: State) {
    s.cache == map[] && s.refreshing == map[] && s.answers == [] && s.origin == map[]
  }

  lemma LookupKeepsFresh(lib: ColumnLib, s: State, u: string, reply: DescribeReply, t: string)
    requires Fresh(s, t) && !Overlaps(s, Lookup(u, reply), t)
    ensures Fresh(Next(lib, s, Lookup(u, reply)), t)
  {
    var n := Next(lib, s, Lookup(u, reply));
    LatestOfMore(s.answers, (u, reply), t);
    assert n.refreshing == s.refreshing;
    assert forall id :: PendingAs(n, id, t) <==> PendingAs(s, id, t);
    assert Pending(n, t) <==> Pending(s, t);
  }

  lemma FetchKeepsFresh(lib: ColumnLib, s: State, id: nat, u: string, reply: DescribeReply, t: string)
    requires Fresh(s, t) && id !in s.refreshing && !Overlaps(s, RefreshFetch(id, u, reply), t)
    ensures Fresh(Next(lib, s, RefreshFetch(id, u, reply)), t)
  {
    var n := Next(lib, s, RefreshFetch(id, u, reply));
    LatestOfMore(s.answers, (u, reply), t);
    if reply.Described? && u == t {
      assert n.refreshing[id].index == |s.answers|;
      assert forall i :: PendingAs(n, i, t) ==> PendingAs(s, i, t) || i == id;
      assert PendingAs(n, id, t);
    } else {
      assert forall i :: PendingAs(n, i, t) <==> PendingAs(s, i, t);
      assert Pending(n, t) <==> Pending(s, t);
    }
  }

  lemma StoreKeepsFresh(lib: ColumnLib, s: State, id: nat, t: string)
    requires Fresh(s, t) && id in s.refreshing
    ensures Fresh(Next(lib, s, RefreshStore(id)), t)
  {
    var n := Next(lib, s, RefreshStore(id));
    if s.refreshing[id].table == t {
      assert PendingAs(s, id, t);
      StoreEnds(lib, s, id, t);
    } else {
      assert forall i :: PendingAs(n, i, t) <==> PendingAs(s, i, t);
      assert Pending(n, t) <==> Pending(s, t);
    }
  }

  lemma NextKeepsFresh(lib: ColumnLib, s: State, a: Action, t: string)
    requires Fresh(s, t) && Enabled(s, a) && !Overlaps(s, a, t)
    ensures Fresh(Next(lib, s, a), t)
  {
    match a
    case Lookup(u, reply) => LookupKeepsFresh(lib, s, u, reply, t);
    case RefreshFetch(id, u, reply) => FetchKeepsFresh(lib, s, id, u, reply, t);
    case RefreshStore(id) => StoreKeepsFresh(lib, s, id, t);
  }

  lemma {:induction false} RunKeepsFresh(lib: ColumnLib, s: State, run: seq<Action>, t: string)
    requires Fresh(s, t) && NoOverlap(lib, s, run, t)
    ensures var r := Exec(lib, s, run); r.Some? ==> Fresh(r.value, t)
  {
    if run != [] {
      var before := run[..|run| - 1];
      RunKeepsFresh(lib, s, before, t);
      var r := Exec(lib, s, before);
      if r.Some? && Enabled(r.value, run[|run| - 1]) { NextKeepsFresh(lib, r.value, run[|run| - 1], t); }
    }
  }

  // In every run of a new cache in which no answer for t arrives while a refresh
  // of t is under way: whenever none is, the cache holds the parse of the latest
  // answer for t, or nothing if there was none.
  lemma CacheIsLatest(lib: ColumnLib, s0: State, run: seq<Action>, t: string)
    requires New(s0) && NoOverlap(lib, s0, run, t) && Exec(lib, s0, run).Some?
    ensures var s := Exec(lib, s0, run).value;
            !Pending(s, t) ==>
              (IsLatest(s, t)
               && (t in s.cache ==> ParseOf(lib, s.answers, t, s.cache[t], LatestAnswer(s.answers, t))))
  {
    RunKeepsFresh(lib, s0, run, t);
    CacheAgrees(lib, s0, run);
  }

  // A run without further overlaps that leaves no refresh of t under way ends
  // with the latest schema.
  ghost predicate EndsLatest(lib: ColumnLib, s: State, run: seq<Action>, t: string) {
    var r := Exec(lib, s, run);
    NoOverlap(lib, s, run, t) && r.Some? && !Pending(r.value, t) ==> IsLatest(r.value, t)
  }

  lemma LookupCanGoBack(lib: ColumnLib, s: State, reply: DescribeReply, id: nat, t: string)
    requires Fresh(s, t) && PendingAs(s, id, t) && s.refreshing[id].index < |s.answers|
    requires BringsAnswer(s, Lookup(t, reply), t)
    ensures !EndsLatest(lib, Next(lib, s, Lookup(t, reply)), [RefreshStore(id)], t)
  {
    var n := Next(lib, s, Lookup(t, reply));
    LatestOfMore(s.answers, (t, reply), t);
    assert n.refreshing == s.refreshing;
    assert forall i :: PendingAs(n, i, t) ==> PendingAs(s, i, t);
    OneAction(lib, n, RefreshStore(id), t);
    StoreEnds(lib, n, id, t);
  }

  lemma FetchCanGoBack(lib: ColumnLib, s: State, id2: nat, reply: DescribeReply, id: nat, t: string)
    requires Fresh(s, t) && PendingAs(s, id, t) && s.refreshing[id].index < |s.answers|
    requires id2 !in s.refreshing && BringsAnswer(s, RefreshFetch(id2, t, reply), t)
    ensures !EndsLatest(lib, Next(lib, s, RefreshFetch(id2, t, reply)), [RefreshStore(id2), RefreshStore(id)], t)
  {
    var n := Next(lib, s, RefreshFetch(id2, t, reply));
    var m := Next(lib, n, RefreshStore(id2));
    LatestOfMore(s.answers, (t, reply), t);
    assert m.refreshing == s.refreshing;
    assert forall i :: PendingAs(m, i, t) ==> PendingAs(s, i, t);
    OneAction(lib, n, RefreshStore(id2), t);
    OneAction(lib, m, RefreshStore(id), t);
    assert [RefreshStore(id2), RefreshStore(id)][..1] == [RefreshStore(id2)];
    StoreEnds(lib, m, id, t);
  }

  lemma OverlapCanGoBack(lib: ColumnLib, s: State, a: Action, t: string) returns (run: seq<Action>)
    requires Agrees(lib, s) && Fresh(s, t) && Enabled(s, a) && Overlaps(s, a, t)
    ensures !EndsLatest(lib, Next(lib, s, a), run, t)
  {
    var id :| PendingAs(s, id, t);
    assert s.refreshing[id].index < |s.answers|;
    match a
    case Lookup(_, reply) =>
      run := [RefreshStore(id)];
      LookupCanGoBack(lib, s, reply, id, t);
    case RefreshFetch(id2, _, reply) =>
      run := [RefreshStore(id2), RefreshStore(id)];
      FetchCanGoBack(lib, s, id2, reply, id, t);
  }

  lemma OneAction(lib: ColumnLib, s: State, a: Action, t: string)
    requires Enabled(s, a) && !Overlaps(s, a, t)
    ensures Exec(lib, s, [a]) == Some(Next(lib, s, a)) && NoOverlap(lib, s, [a], t)
  {
    assert [a][..0] == [];
  }

  // Storing the only refresh of t under way leaves its own answer cached.
  lemma StoreEnds(lib: ColumnLib, s: State, id: nat, t: string)
    requires PendingAs(s, id, t) && forall i :: PendingAs(s, i, t) ==> i == id
    ensures var r := Next(lib, s, RefreshStore(id));
            !Pending(r, t) && t in r.cache && t in r.origin && r.origin[t] == s.refreshing[id].index
  {
    var r := Next(lib, s, RefreshStore(id));
    assert forall i :: PendingAs(r, i, t) ==> PendingAs(s, i, t) && i != id;
  }

  // And the condition is exact: as long as there was no overlap, the next action
  // leaves every such continuation with the latest schema if and only if it is
  // not an overlap itself.
  lemma LatestExactlyWhen(lib: ColumnLib, s0: State, run: seq<Action>, a: Action, t: string)
    requires New(s0) && NoOverlap(lib, s0, run, t)
    requires Exec(lib, s0, run).Some? && Enabled(Exec(lib, s0, run).value, a)
    ensures var s := Exec(lib, s0, run).value;
            (forall more :: EndsLatest(lib, Next(lib, s, a), more, t)) <==> !Overlaps(s, a, t)
  {
    var s := Exec(lib, s0, run).value;
    RunKeepsFresh(lib, s0, run, t);
    CacheAgrees(lib, s0, run);
    if Overlaps(s, a, t) {
      var more := OverlapCanGoBack(lib, s, a, t);
    } else {
      NextKeepsFresh(lib, s, a, t);
      forall more ensures EndsLatest(lib, Next(lib, s, a), more, t) {
        if NoOverlap(lib, Next(lib, s, a), more, t) { RunKeepsFresh(lib, Next(lib, s, a), more, t); }
      }
    }
  }

  // In the same runs: the cached schema is that of an answer received whole exactly
  // when the latest answer for the table was not cut off, however many whole ones
  // came before it.
  lemma WholeExactlyWhen(lib: ColumnLib, s0: State, run: seq<Action>, t: string)
    requires New(s0) && NoOverlap(lib, s0, run, t) && Exec(lib, s0, run).Some?
    requires var s := Exec(lib, s0, run).value; !Pending(s, t) && t in s.cache
    ensures var s := Exec(lib, s0, run).value;
            var latest := LatestAnswer(s.answers, t);
            0 <= latest && t in s.origin && s.origin[t] < |s.answers| && s.answers[s.origin[t]].1.Described?
            && (s.answers[s.origin[t]].1.cutOff.None? <==> s.answers[latest].1.cutOff.None?)
  {
    CacheIsLatest(lib, s0, run, t);
  }

  // A DESCRIBE cut off in the middle counts as a success: the columns that
  // arrived become the table's schema, and no later lookup asks again.
  lemma ACutOffSchemaStays(lib: ColumnLib, s: State, t: string, rows: seq<DescribeRow>, e: Error,
                           later: DescribeReply)
    requires t !in s.cache
    ensures var r := Next(lib, s, Lookup(t, Described(rows, Some(e))));
            r.cache == s.cache[t := ParseSchema(lib, rows)] && Next(lib, r, Lookup(t, later)) == r
  {
  }

  // When no refresh is under way, a refresh that runs without interruption
  // leaves the schema it was just answered with, and it is the latest.
  lemma UninterruptedRefresh(lib: ColumnLib, s: State, id: nat, t: string, rows: seq<DescribeRow>,
                             cutOff: Option<Error>)
    requires Agrees(lib, s) && id !in s.refreshing
    ensures var s1 := Next(lib, s, RefreshFetch(id, t, Described(rows, cutOff)));
            Enabled(s1, RefreshStore(id))
            && var s2 := Next(lib, s1, RefreshStore(id));
               s2.cache == s.cache[t := ParseSchema(lib, rows)] && s2.refreshing == s.refreshing
               && s2.origin[t] == LatestAnswer(s2.answers, t)
  {
    var s1 := Next(lib, s, RefreshFetch(id, t, Described(rows, cutOff)));
    assert s.refreshing[id := s1.refreshing[id]] - {id} == s.refreshing;
  }

  // Of two overlapping refreshes of a table the last to store wins, even when it
  // was answered first; the cache then goes back to an older schema.
  lemma OverlappingRefreshesCanGoBack(lib: ColumnLib, s: State, older: nat, newer: nat)
    requires Agrees(lib, s) && older in s.refreshing && newer in s.refreshing
    requires s.refreshing[older].table == s.refreshing[newer].table
    requires s.refreshing[older].index < s.refreshing[newer].index
    ensures var t, s1 := s.refreshing[older].table, Next(lib, s, RefreshStore(newer));
            Enabled(s1, RefreshStore(older))
            && var s2 := Next(lib, s1, RefreshStore(older));
               s2.cache[t] == s.refreshing[older].columns && s2.origin[t] < LatestAnswer(s2.answers, t)
  {
    var f := s.refreshing[newer];
    assert s.answers[f.index].0 == f.table && s.answers[f.index].1.Described?;
  }

  // The writer's own sequential steps are such actions: a cache lookup is a
  // Lookup, and RefreshTableSchema a fetch directly followed by its store.
  lemma WriterStepsAreActions(env: Env, sink: Sink, s: State, id: nat, t: string)
    requires s.cache == sink.cache && id !in s.refreshing
    ensures GetColumns(env, sink, t).sink.cache
         == Next(env.lib, s, Lookup(t, env.server.describe(sink.clock, t))).cache
    ensures var s1 := Next(env.lib, s, RefreshFetch(id, t, env.server.describe(sink.clock, t)));
            RefreshSchema(env, sink, t).sink.cache
            == if Enabled(s1, RefreshStore(id)) then Next(env.lib, s1, RefreshStore(id)).cache else s1.cache
  {
  }
}
