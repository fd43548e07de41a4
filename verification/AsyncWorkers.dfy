/** The async exporter's two pieces of code that handle batches, ExportLogs and the worker's loop, each run against
    arbitrary steps of all other callers, workers and the pool. Valid says that what happened so far is a run of
    AsyncBatches, so every guarantee proved there holds here. */
module AsyncWorkers {
  import opened Prelude
  import opened AsyncBatches

  /** Whose code is running; the others are the environment. */
  datatype Party = Caller(c: CallId) | Worker(w: nat)

  predicate Belongs(a: Action, me: Party) {
    match a
    case ExportLogs(c, _) => me == Caller(c)
    case GetFromPool(c, _) => me == Caller(c)
    case GetNew(c, _) => me == Caller(c)
    case AppendInPlace(c) => me == Caller(c)
    case AppendGrow(c, _, _) => me == Caller(c)
    case Send(c) => me == Caller(c)
    case Receive(w) => me == Worker(w)
    case Export(w, _) => me == Worker(w)
    case Put(w) => me == Worker(w)
    case Leave(w) => me == Worker(w)
    case PoolDrops(_) => false
    case Close => false
  }

  /** Where a party stands; only the party itself moves. */
  ghost predicate SameStanding(me: Party, s: State, t: State) {
    && |t.workers| == |s.workers|
    && match me
       case Caller(c) =>
         && (c in t.calls <==> c in s.calls) && (c in s.calls ==> t.calls[c] == s.calls[c])
         && (c in t.panicked <==> c in s.panicked)
       case Worker(w) => w < |s.workers| ==> t.workers[w] == s.workers[w]
  }

  /** History is never rewritten. */
  ghost predicate Later(s: State, t: State) {
    && s.accepted <= t.accepted && s.takenBy <= t.takenBy
    && (forall k :: k in s.exports ==> k in t.exports && t.exports[k] == s.exports[k])
    && (forall k :: k in s.verdicts ==> k in t.verdicts && t.verdicts[k] == s.verdicts[k])
    && (s.closed ==> t.closed) && s.panicked <= t.panicked
  }

  lemma OthersApart(me: Party, s: State, a: Action)
    requires Enabled(s, a) && !Belongs(a, me)
    ensures SameStanding(me, s, Apply(s, a))
  {}

  lemma StepLater(s: State, a: Action)
    requires Enabled(s, a) && PlaceInv(s) && SumInv(s)
    ensures Later(s, Apply(s, a))
  {
    if a.Export? {
      assert WorkerInv(s, a.w);
      assert s.workers[a.w].batch !in s.verdicts;
    }
  }

  lemma LaterRefl(s: State)
    ensures Later(s, s)
  {}

  lemma LaterTrans(s: State, t: State, u: State)
    requires Later(s, t) && Later(t, u)
    ensures Later(s, u)
  {}

  /** A round of a worker's loop: where in the trace it looks at the channel, and where it ends. */
  datatype Round = Round(start: nat, stop: nat)

  /** How a call ended: its batch sent, a panic on the closed channel, or still waiting for room. */
  datatype CallEnd = Sent | Panicked | Waiting

  datatype History = History(accepted: seq<seq<Log>>, takenBy: seq<nat>, exports: map<nat, seq<Log>>,
                             verdicts: map<nat, bool>, owner: map<ArrayId, Owner>)

  lemma FreshExists(heap: map<ArrayId, Array>)
    ensures exists arr: ArrayId :: arr !in heap
  {
    var n := BoundOf(heap.Keys);
    assert n !in heap;
  }

  lemma {:induction false} BoundOf(ids: set<ArrayId>) returns (n: nat)
    ensures forall i :: i in ids ==> i < n
    decreases |ids|
  {
    if ids == {} {
      n := 0;
    } else {
      var i :| i in ids;
      var m := BoundOf(ids - {i});
      n := if m <= i then i + 1 else m;
      forall j | j in ids
        ensures j < n
      {
        assert j == i || j in ids - {i};
      }
    }
  }

  class Exporter {
    const concurrency: nat

    var heap: map<ArrayId, Array>
    var logsBatchPool: set<ArrayId>
    var logsBatchCh: seq<Slice>
    var closed: bool
    var calls: map<CallId, CallPc>
    var panicked: set<CallId>
    var workers: seq<WorkerPc>
    var success: nat
    var failed: nat
    var log: History

    ghost var trace: seq<Action>

    // the scheduler: what the others do at each pause, whether the pool has something, and how far append grows an
    // array
    const others: nat -> seq<Action>
    const choice: nat -> bool
    const spare: nat -> nat
    var clock: nat

    function View(): (r: State)
      reads this
    {
      State(heap, logsBatchPool, logsBatchCh, closed, calls, panicked, workers, success, failed,
            log.accepted, log.takenBy, log.exports, log.verdicts, log.owner)
    }

    ghost predicate Valid()
      reads this
    {
      RunFrom(Init(concurrency), trace) == Some(View())
    }

    constructor (concurrency: nat, others: nat -> seq<Action>, choice: nat -> bool, spare: nat -> nat)
      ensures Valid() && this.concurrency == concurrency && workers == seq(concurrency, _ => Idle)
    {
      this.concurrency, this.others, this.choice, this.spare := concurrency, others, choice, spare;
      heap, logsBatchPool, logsBatchCh, closed, calls, panicked := map[], {}, [], false, map[], {};
      workers, success, failed := seq(concurrency, _ => Idle), 0, 0;
      log, trace, clock := History([], [], map[], map[], map[]), [], 0;
    }

    lemma Sound()
      requires Valid()
      ensures Reachable(concurrency, View()) && Inv(View())
    {
      ReachableInv(concurrency, View());
    }

    lemma NothingRewritten(a: Action)
      requires Valid() && Enabled(View(), a)
      ensures Later(View(), Apply(View(), a))
    {
      hide RunFrom, PlaceInv, SumInv, Apply, Enabled, Later;
      Sound();
      StepLater(View(), a);
    }

    method Other(a: Action, me: Party)
      requires Valid() && Enabled(View(), a) && !Belongs(a, me)
      modifies this
      ensures Valid() && trace == old(trace) + [a] && View() == Apply(old(View()), a)
    {
      hide Apply, Enabled, RunFrom;
      RunExtend(Init(concurrency), trace, a);
      Assign(Apply(View(), a));
      trace := trace + [a];
    }

    method Assign(s: State)
      modifies this`heap, this`logsBatchPool, this`logsBatchCh, this`closed, this`calls, this`panicked, this`workers,
        this`success, this`failed, this`log
      ensures View() == s
    {
      heap, logsBatchPool, logsBatchCh, closed, calls := s.heap, s.pool, s.channel, s.closed, s.calls;
      panicked, workers, success, failed := s.panicked, s.workers, s.success, s.failed;
      log := History(s.accepted, s.takenBy, s.exports, s.verdicts, s.owner);
    }

    /** The other goroutines run, and the garbage collector may empty the pool. */
    method Pause(me: Party)
      requires Valid()
      modifies this
      ensures Valid() && old(trace) <= trace
      ensures SameStanding(me, old(View()), View()) && Later(old(View()), View())
    {
      hide RunFrom, Inv, Later, Apply, Enabled;
      LaterRefl(View());
      var acts := others(clock);
      for i := 0 to |acts|
        invariant Valid() && old(trace) <= trace
        invariant SameStanding(me, old(View()), View()) && Later(old(View()), View())
      {
        if Enabled(View(), acts[i]) && !Belongs(acts[i], me) {
          OthersApart(me, View(), acts[i]);
          NothingRewritten(acts[i]);
          LaterTrans(old(View()), View(), Apply(View(), acts[i]));
          Other(acts[i], me);
        }
      }
      clock := clock + 1;
    }

    // ----- ExportLogs

    method EnterCall(c: CallId, logs: seq<Log>)
      requires Valid() && c !in calls && c !in panicked
      modifies this
      ensures Valid() && trace == old(trace) + [Action.ExportLogs(c, logs)] && c in calls && calls[c] == Entered(logs)
      ensures panicked == old(panicked) && closed == old(closed)
      ensures log.accepted == old(log.accepted)
    {
      RunExtend(Init(concurrency), trace, Action.ExportLogs(c, logs));
      hide RunFrom;
      calls := calls[c := Entered(logs)];
      trace := trace + [Action.ExportLogs(c, logs)];
    }

    /** An array of the pool if it has one to give, else a new one. */
    method GetBatchSlice(c: CallId) returns (arr: ArrayId)
      requires Valid() && c in calls && calls[c].Entered?
      modifies this
      ensures Valid() && old(trace) <= trace && c in calls && calls[c] == Holding(arr, old(calls[c].logs))
      ensures panicked == old(panicked) && closed == old(closed)
      ensures log.accepted == old(log.accepted)
      ensures if arr in old(logsBatchPool) then
          heap == old(heap) && logsBatchPool == old(logsBatchPool) - {arr}
        else
          && arr !in old(heap) && heap == old(heap)[arr := Array(512, [])]
          && logsBatchPool == old(logsBatchPool)
    {
      if logsBatchPool != {} && choice(clock) {
        arr :| arr in logsBatchPool;
        TakeFromPool(c, arr);
      } else {
        FreshExists(heap);
        arr :| arr !in heap;
        PoolKnown();
        MakeArray(c, arr);
      }
    }

    lemma PoolKnown()
      requires Valid()
      ensures logsBatchPool <= heap.Keys
    {
      Sound();
      forall arr | arr in logsBatchPool
        ensures arr in heap
      {
        assert Owns(View(), arr, InPool);
      }
    }

    method TakeFromPool(c: CallId, arr: ArrayId)
      requires Valid() && c in calls && calls[c].Entered? && arr in logsBatchPool
      modifies this`logsBatchPool, this`calls, this`log, this`trace
      ensures Valid() && trace == old(trace) + [GetFromPool(c, arr)] && log.accepted == old(log.accepted)
      ensures logsBatchPool == old(logsBatchPool) - {arr} && calls == old(calls)[c := Holding(arr, old(calls[c].logs))]
    {
      PoolKnown();
      RunExtend(Init(concurrency), trace, GetFromPool(c, arr));
      hide RunFrom;
      logsBatchPool := logsBatchPool - {arr};
      calls := calls[c := Holding(arr, calls[c].logs)];
      log := log.(owner := log.owner[arr := ByCall(c)]);
      trace := trace + [GetFromPool(c, arr)];
    }

    method MakeArray(c: CallId, arr: ArrayId)
      requires Valid() && c in calls && calls[c].Entered? && arr !in heap
      modifies this`heap, this`calls, this`log, this`trace
      ensures Valid() && trace == old(trace) + [GetNew(c, arr)] && log.accepted == old(log.accepted)
      ensures heap == old(heap)[arr := Array(MAX_EXPORT_BATCH_SIZE, [])]
      ensures calls == old(calls)[c := Holding(arr, old(calls[c].logs))]
    {
      RunExtend(Init(concurrency), trace, GetNew(c, arr));
      hide RunFrom;
      heap := heap[arr := Array(MAX_EXPORT_BATCH_SIZE, [])];
      calls := calls[c := Holding(arr, calls[c].logs)];
      log := log.(owner := log.owner[arr := ByCall(c)]);
      trace := trace + [GetNew(c, arr)];
    }

    /** append(batch, logs...): in place if the array is large enough, where the cells behind the logs stay as they
        were, else into a larger one. */
    method Append(c: CallId) returns (slice: Slice)
      requires Valid() && c in calls && calls[c].Holding?
      modifies this
      ensures Valid() && old(trace) <= trace && c in calls && calls[c] == Filled(slice, old(calls[c].logs))
      ensures old(calls[c].arr) in old(heap) && slice.arr in heap
      ensures var logs, was, now := old(calls[c].logs), old(heap[calls[c].arr]), heap[slice.arr].cells;
        if |logs| <= was.cap then
          && slice.arr == old(calls[c].arr) && logs <= now
          && (forall k :: |logs| <= k < |was.cells| ==> k < |now| && now[k] == was.cells[k])
        else slice.arr !in old(heap) && now == logs
      ensures panicked == old(panicked) && closed == old(closed)
      ensures log.accepted == old(log.accepted)
    {
      hide RunFrom;
      var arr, logs := calls[c].arr, calls[c].logs;
      HeldIsThere(c);
      if |logs| <= heap[arr].cap {
        slice := WriteInPlace(c);
      } else {
        FreshExists(heap);
        var larger: ArrayId :| larger !in heap;
        slice := WriteLarger(c, larger, |logs| + spare(clock));
      }
    }

    lemma HeldIsThere(c: CallId)
      requires Valid() && c in calls && calls[c].Holding?
      ensures calls[c].arr in heap
    {
      Sound();
      assert CallInv(View(), c);
    }

    method WriteInPlace(c: CallId) returns (slice: Slice)
      requires Valid() && Enabled(View(), AppendInPlace(c))
      modifies this`heap, this`calls, this`trace
      ensures Valid() && trace == old(trace) + [AppendInPlace(c)]
      ensures var Holding(arr, logs) := old(calls)[c];
        && slice == Slice(arr, |logs|) && calls == old(calls)[c := Filled(slice, logs)]
        && heap == old(heap)[arr := Array(old(heap)[arr].cap, Overwrite(old(heap)[arr].cells, logs))]
    {
      RunExtend(Init(concurrency), trace, AppendInPlace(c));
      hide RunFrom, Overwrite;
      var Holding(arr, logs) := calls[c];
      heap := heap[arr := Array(heap[arr].cap, Overwrite(heap[arr].cells, logs))];
      slice := Slice(arr, |logs|);
      calls := calls[c := Filled(slice, logs)];
      trace := trace + [AppendInPlace(c)];
    }

    method WriteLarger(c: CallId, larger: ArrayId, cap: nat) returns (slice: Slice)
      requires Valid() && Enabled(View(), AppendGrow(c, larger, cap))
      modifies this`heap, this`calls, this`log, this`trace
      ensures Valid() && trace == old(trace) + [AppendGrow(c, larger, cap)] && log.accepted == old(log.accepted)
      ensures var Holding(_, logs) := old(calls)[c];
        && slice == Slice(larger, |logs|) && calls == old(calls)[c := Filled(slice, logs)]
        && heap == old(heap)[larger := Array(cap, logs)]
    {
      RunExtend(Init(concurrency), trace, AppendGrow(c, larger, cap));
      hide RunFrom;
      var Holding(arr, logs) := calls[c];
      heap := heap[larger := Array(cap, logs)];
      log := log.(owner := log.owner[arr := Garbage][larger := ByCall(c)]);
      slice := Slice(larger, |logs|);
      calls := calls[c := Filled(slice, logs)];
      trace := trace + [AppendGrow(c, larger, cap)];
    }

    /** One call, up to its send, at any time before or after Shutdown closes the channel. Sent, its logs are the last
        batch accepted; on the closed channel it panics and nothing is accepted; a send that would have to wait, the
        channel being full, is reported as waiting. */
    method ExportLogs(c: CallId, logs: seq<Log>) returns (r: CallEnd)
      requires Valid() && c !in calls && c !in panicked
      modifies this
      ensures Valid() && old(trace) <= trace && old(log.accepted) <= log.accepted
      ensures r.Sent? ==> c !in calls && !closed && trace != [] && trace[|trace| - 1] == Send(c)
      ensures r.Sent? ==> |log.accepted| > |old(log.accepted)| && log.accepted[|log.accepted| - 1] == logs
      ensures r.Panicked? <==> c in panicked
      ensures r.Panicked? ==> closed && c !in calls
      ensures r.Waiting? ==> !closed && |logsBatchCh| >= 2 * |workers|
      ensures r.Waiting? ==> c in calls && calls[c].Filled? && calls[c].logs == logs
      ensures old(closed) ==> r.Panicked?
    {
      hide RunFrom, Inv;
      EnterCall(c, logs);
      Pause(Caller(c));
      var arr := GetBatchSlice(c);
      Pause(Caller(c));
      var slice := Append(c);
      Pause(Caller(c));
      if closed {
        PanicInSend(c);
        return Panicked;
      }
      if |logsBatchCh| < 2 * |workers| {
        SendBatch(c);
        return Sent;
      }
      return Waiting;
    }

    method SendBatch(c: CallId)
      requires Valid() && c in calls && calls[c].Filled? && !closed && |logsBatchCh| < 2 * |workers|
      modifies this
      ensures Valid() && trace == old(trace) + [Send(c)] && c !in calls && panicked == old(panicked) && !closed
      ensures log.accepted == old(log.accepted) + [old(calls[c].logs)]
    {
      RunExtend(Init(concurrency), trace, Send(c));
      hide RunFrom;
      var slice, logs := calls[c].slice, calls[c].logs;
      logsBatchCh := logsBatchCh + [slice];
      calls := calls - {c};
      log := log.(owner := log.owner[slice.arr := InChannel(|log.accepted|)], accepted := log.accepted + [logs]);
      trace := trace + [Send(c)];
    }

    /** The recover lets the panic through: the text it compares with is never that of the runtime. */
    method PanicInSend(c: CallId)
      requires Valid() && c in calls && calls[c].Filled? && closed
      modifies this
      ensures Valid() && trace == old(trace) + [Send(c)] && c !in calls && panicked == old(panicked) + {c} && closed
      ensures log.accepted == old(log.accepted)
    {
      RunExtend(Init(concurrency), trace, Send(c));
      hide RunFrom;
      var slice := calls[c].slice;
      calls := calls - {c};
      panicked := panicked + {c};
      log := log.(owner := log.owner[slice.arr := Garbage]);
      trace := trace + [Send(c)];
    }

    // ----- the worker

    method ReceiveBatch(w: nat) returns (slice: Slice, batch: nat)
      requires Valid() && w < |workers| && workers[w].Idle? && logsBatchCh != []
      modifies this
      ensures Valid() && trace == old(trace) + [Receive(w)] && |workers| == |old(workers)|
      ensures w < |workers| && workers[w] == Exporting(slice, batch) && batch == |old(log.takenBy)|
      ensures log.accepted == old(log.accepted) && log.takenBy == old(log.takenBy) + [w]
      ensures slice == old(logsBatchCh)[0]
    {
      RunExtend(Init(concurrency), trace, Receive(w));
      hide RunFrom;
      slice, batch := logsBatchCh[0], |log.takenBy|;
      logsBatchCh := logsBatchCh[1..];
      workers := workers[w := Exporting(slice, batch)];
      log := log.(takenBy := log.takenBy + [w], owner := log.owner[slice.arr := ByWorker(w)]);
      trace := trace + [Receive(w)];
    }

    /** What the worker is about to export is what one call was given. */
    lemma BatchInHand(w: nat)
      requires Valid() && w < |workers| && workers[w].Exporting?
      ensures forall ok :: Enabled(View(), Export(w, ok))
      ensures workers[w].slice.arr in heap && workers[w].slice.len <= |heap[workers[w].slice.arr].cells|
      ensures workers[w].batch < |log.accepted| && workers[w].batch !in log.exports
      ensures Content(heap, workers[w].slice) == log.accepted[workers[w].batch]
    {
      hide RunFrom, Inv;
      Sound();
      WorkerSeesOneCall(concurrency, View(), w);
    }

    method CountLogs(size: nat, ok: bool)
      modifies this`success, this`failed
      ensures success == old(success) + (if ok then size else 0)
      ensures failed == old(failed) + (if ok then 0 else size)
    {
      if ok {
        success := success + size;
      } else {
        failed := failed + size;
      }
    }

    /** Hands the worker's slice to the collector and counts its logs; what goes out are the logs of the call that
        filled the slice. */
    method ExportBatch(w: nat, ok: bool) returns (sent: seq<Log>)
      requires Valid() && w < |workers| && workers[w].Exporting?
      modifies this
      ensures Valid() && old(trace) <= trace
      ensures |workers| == |old(workers)| && workers[w] == Counted(old(workers[w].slice))
      ensures old(workers[w].batch) < |log.accepted| && sent == log.accepted[old(workers[w].batch)]
      ensures log.exports == old(log.exports)[old(workers[w].batch) := sent]
      ensures log.verdicts == old(log.verdicts)[old(workers[w].batch) := ok] && log.takenBy == old(log.takenBy)
      ensures success == old(success) + (if ok then |sent| else 0)
      ensures failed == old(failed) + (if ok then 0 else |sent|)
    {
      hide Inv;
      BatchInHand(w);
      RunExtend(Init(concurrency), trace, Export(w, ok));
      hide RunFrom, Enabled;
      var slice, batch := workers[w].slice, workers[w].batch;
      sent := heap[slice.arr].cells[..slice.len];
      log := log.(exports := log.exports[batch := sent], verdicts := log.verdicts[batch := ok]);
      CountLogs(slice.len, ok);
      workers := workers[w := Counted(slice)];
      trace := trace + [Export(w, ok)];
    }

    method PutBatchSlice(w: nat)
      requires Valid() && w < |workers| && workers[w].Counted?
      modifies this
      ensures Valid() && trace == old(trace) + [Put(w)] && |workers| == |old(workers)| && workers[w].Idle?
      ensures logsBatchPool == old(logsBatchPool) + {old(workers[w].slice.arr)}
      ensures log.accepted == old(log.accepted) && log.takenBy == old(log.takenBy)
      ensures log.exports == old(log.exports) && log.verdicts == old(log.verdicts)
    {
      RunExtend(Init(concurrency), trace, Put(w));
      hide RunFrom;
      var slice := workers[w].slice;
      logsBatchPool := logsBatchPool + {slice.arr};
      log := log.(owner := log.owner[slice.arr := InPool]);
      workers := workers[w := Idle];
      trace := trace + [Put(w)];
    }

    method LeaveLoop(w: nat)
      requires Valid() && w < |workers| && workers[w].Idle? && closed && logsBatchCh == []
      modifies this
      ensures Valid() && trace == old(trace) + [Leave(w)] && |workers| == |old(workers)| && workers[w].Done?
      ensures closed && logsBatchCh == []
    {
      RunExtend(Init(concurrency), trace, Leave(w));
      hide RunFrom;
      workers := workers[w := Done];
      trace := trace + [Leave(w)];
    }

    /** One round of the loop of worker `w`; `ok` says how the collector ends the export, if there is one. On the open,
        empty channel the worker goes on waiting. */
    method RunRound(w: nat, ok: bool)
      requires Valid() && w < |workers| && workers[w].Idle?
      modifies this
      ensures Valid() && old(trace) <= trace && w < |workers| && (workers[w].Idle? || workers[w].Done?)
      ensures RoundDone(w, ok, old(View()), View())
    {
      hide RunFrom, Inv;
      if logsBatchCh != [] {
        TakeAndExport(w, ok);
      } else if closed {
        LeaveLoop(w);
      }
    }

    method TakeAndExport(w: nat, ok: bool)
      requires Valid() && w < |workers| && workers[w].Idle? && logsBatchCh != []
      modifies this
      ensures Valid() && old(trace) <= trace && w < |workers|
      ensures Handled(w, ok, old(View()), View())
    {
      hide RunFrom, Inv;
      var slice, batch := ReceiveBatch(w);
      Pause(Worker(w));
      var sent := ExportBatch(w, ok);
      Pause(Worker(w));
      PutBatchSlice(w);
    }

    /** The loop of worker `w`; `verdicts` says how the collector ends each round's export. A round with a batch in the
        channel exports it, and the loop ends once the channel is closed and empty. */
    method ExportBatches(w: nat, verdicts: seq<bool>) returns (ghost rounds: seq<Round>)
      requires Valid() && w < |workers| && workers[w].Idle?
      modifies this
      ensures Valid() && old(trace) <= trace && w < |workers|
      ensures if workers[w].Done? then closed && logsBatchCh == [] else workers[w].Idle? && |rounds| == |verdicts|
      ensures RoundsDone(concurrency, w, |old(trace)|, trace, verdicts, rounds)
    {
      hide RunFrom, Inv, RoundDone;
      rounds := [];
      for r := 0 to |verdicts|
        invariant Valid() && old(trace) <= trace && w < |workers| && workers[w].Idle? && |rounds| == r
        invariant RoundsDone(concurrency, w, |old(trace)|, trace, verdicts, rounds)
      {
        ghost var sofar := trace;
        Pause(Worker(w));
        ghost var t := trace;
        RunRound(w, verdicts[r]);
        assert trace[..|t|] == t && trace[..|trace|] == trace;
        NextRound(concurrency, w, |old(trace)|, sofar, trace, verdicts, rounds, Round(|t|, |trace|));
        rounds := rounds + [Round(|t|, |trace|)];
        if workers[w].Done? {
          LeftEmpty(w);
          return;
        }
      }
    }

    lemma LeftEmpty(w: nat)
      requires Valid() && w < |workers| && workers[w].Done?
      ensures closed && logsBatchCh == []
    {
      hide RunFrom;
      Sound();
      assert WorkerInv(View(), w);
    }
  }

  /** The batch at the head of the channel was exported by worker `w`, as the call that sent it had given it, its end is
      on record, and its array is back in the pool. */
  ghost predicate Handled(w: nat, ok: bool, before: State, after: State)
    requires before.channel != []
  {
    var k := |before.takenBy|;
    && w < |after.workers| && after.workers[w].Idle?
    && k < |after.takenBy| && after.takenBy[k] == w && k < |after.accepted|
    && k in after.exports && after.exports[k] == after.accepted[k]
    && k in after.verdicts && after.verdicts[k] == ok
    && before.channel[0].arr in after.pool
  }

  /** What a round of worker `w` does, given the states when it looks at the channel and at its end. */
  ghost predicate RoundDone(w: nat, ok: bool, before: State, after: State) {
    if before.channel != [] then Handled(w, ok, before, after)
    else if before.closed then w < |after.workers| && after.workers[w].Done?
    else after == before
  }

  ghost predicate RoundAt(concurrency: nat, w: nat, trace: seq<Action>, ok: bool, r: Round) {
    && r.start <= r.stop <= |trace|
    && RunFrom(Init(concurrency), trace[..r.start]).Some? && RunFrom(Init(concurrency), trace[..r.stop]).Some?
    && RoundDone(w, ok, RunFrom(Init(concurrency), trace[..r.start]).value,
                 RunFrom(Init(concurrency), trace[..r.stop]).value)
  }

  /** The rounds follow each other from the point `begin` of the trace on, and each does its part. */
  ghost predicate RoundsDone(concurrency: nat, w: nat, begin: nat, trace: seq<Action>, verdicts: seq<bool>,
                             rounds: seq<Round>)
  {
    && |rounds| <= |verdicts|
    && (forall i :: 0 <= i < |rounds| ==>
          RoundAt(concurrency, w, trace, verdicts[i], rounds[i]) && begin <= rounds[i].start)
    && (forall i :: 0 < i < |rounds| ==> rounds[i - 1].stop <= rounds[i].start)
  }

  lemma NextRound(concurrency: nat, w: nat, begin: nat, t: seq<Action>, t': seq<Action>, verdicts: seq<bool>,
                  rounds: seq<Round>, r: Round)
    requires begin <= |t| && t <= t' && |rounds| < |verdicts|
    requires RoundsDone(concurrency, w, begin, t, verdicts, rounds)
    requires |t| <= r.start && RoundAt(concurrency, w, t', verdicts[|rounds|], r)
    ensures RoundsDone(concurrency, w, begin, t', verdicts, rounds + [r])
  {
    hide RunFrom, RoundDone;
    forall i | 0 <= i < |rounds|
      ensures RoundAt(concurrency, w, t', verdicts[i], rounds[i])
    {
      assert RoundAt(concurrency, w, t, verdicts[i], rounds[i]);
      assert t'[..rounds[i].start] == t[..rounds[i].start] && t'[..rounds[i].stop] == t[..rounds[i].stop];
    }
  }
}
