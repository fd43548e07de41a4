/** The processor's code as written, run against arbitrary interference: the worker's loops, OnEnd and ForceFlush.

    The fields are those of the processor; `worker` and `calls` say where every goroutine stands, `log` is history.
    Between any two steps of the code at hand, Pause and Interlude let the other goroutines take any steps they like.
    Valid says that what happened so far is a run of SpanPipeline, so every guarantee proved there holds here. */
module SpanProcessor {
  import opened Prelude
  import opened SpanPipeline
  import opened SpanInvariants
  import opened SpanTheorems
  import opened SpanGuarantees

  /** Where the callers stand. */
  datatype Calls = Calls(clients: map<ClientId, ClientPc>, flushed: set<ClientId>, shutdown: ShutdownPc)

  datatype History = History(accepted: seq<Item>, exported: seq<seq<Item>>, returned: nat, runExports: nat)

  datatype Branch = OnStop | OnTick | OnQueue

  /** A round of the run loop: where in the trace its select takes a case, and where it ends. */
  datatype Round = Round(start: nat, stop: nat)

  class BatchSpanProcessor {
    const o: Options

    var queue: seq<Item>
    var closed: bool
    var stopped: bool
    var batch: seq<Item>
    var batchedSize: int
    var mutex: Holder
    var timer: Timer
    var dropped: nat
    var worker: WorkerPc
    var calls: Calls
    var log: History

    ghost var trace: seq<Action>

    // the scheduler: what the others do at each pause, how an export ends, and whether a select of a ForceFlush call
    // takes the call's done context
    const others: nat -> seq<Action>
    const result: nat -> bool
    const done: nat -> bool
    var clock: nat

    function View(): (r: State)
      reads this
    {
      State(queue, closed, stopped, batch, batchedSize, mutex, timer.armed, timer.tick, dropped, worker,
            calls.clients, calls.flushed, calls.shutdown, log.accepted, log.exported, log.returned, log.runExports)
    }

    ghost predicate Valid()
      reads this
    {
      RunFrom(o, Init(), trace) == Some(View())
    }

    constructor (o: Options, others: nat -> seq<Action>, result: nat -> bool, done: nat -> bool)
      ensures Valid() && this.o == o && worker.Select?
    {
      this.o, this.others, this.result, this.done := o, others, result, done;
      queue, closed, stopped, batch, batchedSize, mutex, timer := [], false, false, [], 0, Free, Timer(true, false);
      dropped, worker, calls, log, trace, clock := 0, Select, Calls(map[], {}, NotCalled), History([], [], 0, 0), [], 0;
    }

    /** The worker's step `work`, taken now, extends the run and uses up one of the steps left. */
    lemma Next(work: WorkerStep)
      requires Valid() && WorkerEnabled(View(), work)
      ensures RunFrom(o, Init(), trace + [Worker(work)]) == Some(WorkerEffect(o, View(), work))
      ensures !Running(worker) ==> StepsLeft(WorkerEffect(o, View(), work)) < StepsLeft(View())
    {
      RunExtend(o, Init(), trace, Worker(work));
      if !Running(worker) {
        StepsLeftWorker(o, View(), work);
      }
    }

    lemma Sound()
      requires Valid()
      ensures Reachable(o, View()) && Inv(o, View())
    {
      ReachableInv(o, View());
    }

    /** Any enabled step of any goroutine. */
    method Take(a: Action)
      requires Valid() && Enabled(o, View(), a)
      modifies this`queue, this`closed, this`stopped, this`batch, this`batchedSize, this`mutex, this`timer,
        this`dropped, this`worker, this`calls, this`log, this`trace
      ensures Valid() && trace == old(trace) + [a] && View() == Apply(o, old(View()), a)
    {
      hide Apply, Enabled, RunFrom;
      RunExtend(o, Init(), trace, a);
      Assign(Apply(o, View(), a));
      trace := trace + [a];
    }

    method Assign(s: State)
      modifies this`queue, this`closed, this`stopped, this`batch, this`batchedSize, this`mutex, this`timer,
        this`dropped, this`worker, this`calls, this`log
      ensures View() == s
    {
      queue, closed, stopped, batch, batchedSize, mutex, timer :=
        s.queue, s.closed, s.stopped, s.batch, s.batchedSize, s.mutex, Timer(s.armed, s.tick);
      dropped, worker, calls := s.dropped, s.worker, Calls(s.clients, s.flushed, s.shutdown);
      log := History(s.accepted, s.exported, s.returned, s.runExports);
    }

    /** Other goroutines run. */
    method Pause()
      requires Valid()
      modifies this
      ensures Valid() && old(trace) <= trace && worker == old(worker) && Received(View()) == old(Received(View()))
      ensures !Running(worker) ==> StepsLeft(View()) <= old(StepsLeft(View()))
    {
      var acts := others(clock);
      for i := 0 to |acts|
        invariant Valid() && old(trace) <= trace && worker == old(worker)
        invariant Received(View()) == old(Received(View()))
        invariant !Running(worker) ==> StepsLeft(View()) <= old(StepsLeft(View()))
      {
        if !acts[i].Worker? && Enabled(o, View(), acts[i]) {
          if !Running(worker) {
            Sound();
            StepsLeftStep(o, View(), acts[i]);
          }
          OthersLeaveWorker(o, View(), acts[i]);
          Take(acts[i]);
        }
      }
      clock := clock + 1;
    }

    /** The worker waits for the mutex: a ForceFlush export that holds it returns. */
    method AwaitMutex()
      requires Valid() && !worker.Exporting?
      modifies this
      ensures Valid() && old(trace) <= trace && worker == old(worker) && mutex.Free?
      ensures Received(View()) == old(Received(View()))
      ensures !Running(worker) ==> StepsLeft(View()) <= old(StepsLeft(View()))
    {
      Pause();
      Sound();
      if mutex.ByClient? {
        var a := Client(mutex.c, ClientExported(result(clock)));
        OthersLeaveWorker(o, View(), a);
        if !Running(worker) {
          StepsLeftStep(o, View(), a);
        }
        OthersLeaveWorker(o, View(), a);
        Take(a);
      }
    }

    /** Resets the timer, then exports the batch under the mutex if there is one. Afterwards the batch is empty and all
        that had been batched before belongs to calls of the exporter that have returned. */
    method ExportSpans(caller: Caller)
      requires Valid() && worker == ExportReset(caller)
      modifies this
      ensures Valid() && old(trace) <= trace && worker == AfterExport(caller)
      ensures batch == [] && mutex.Free? && log.returned == |log.exported| && Received(View()) == old(Received(View()))
      ensures Spans(Batched(old(View()))) <= Spans(Flatten(log.exported))
      ensures !caller.InRun? ==> StepsLeft(View()) < old(StepsLeft(View()))
    {
      hide RunFrom, StepsLeft, Spans, Flatten, Batched;
      ghost var t, s := trace, View();
      TimerReset(caller);
      AwaitMutex();
      ExportHeld(caller);
      HandedOver(t, s);
    }

    /** The part that holds the mutex. */
    method ExportHeld(caller: Caller)
      requires Valid() && worker == ExportLock(caller) && mutex.Free?
      modifies this
      ensures Valid() && old(trace) <= trace && worker == AfterExport(caller) && batch == [] && mutex.Free?
      ensures Received(View()) == old(Received(View()))
      ensures !caller.InRun? ==> StepsLeft(View()) < old(StepsLeft(View()))
    {
      hide RunFrom, StepsLeft;
      if |batch| > 0 {
        BeginExportSpans(caller);
        Pause();
        EndExportSpans(caller, result(clock));
      } else {
        NothingToExport(caller);
      }
    }

    lemma HandedOver(t: seq<Action>, s: State)
      requires Valid() && batch == [] && mutex.Free?
      requires t <= trace && RunFrom(o, Init(), t) == Some(s)
      ensures log.returned == |log.exported| && Spans(Batched(s)) <= Spans(Flatten(log.exported))
    {
      hide RunFrom, Spans, Flatten;
      Sound();
      assert Reachable(o, s);
      ReachableInv(o, s);
      BatchedGrows(o, t, trace);
      AllHanded(o, s, View());
    }

    method TimerReset(caller: Caller)
      requires Valid() && worker == ExportReset(caller)
      modifies this`timer, this`worker, this`trace
      ensures Valid() && trace == old(trace) + [Worker(ResetTimer)] && worker == ExportLock(caller) && timer.armed
      ensures !caller.InRun? ==> StepsLeft(View()) < old(StepsLeft(View()))
    {
      Next(ResetTimer);
      hide RunFrom, StepsLeft;
      timer := timer.(armed := true);
      worker := ExportLock(caller);
      trace := trace + [Worker(ResetTimer)];
    }

    method NothingToExport(caller: Caller)
      requires Valid() && worker == ExportLock(caller) && mutex.Free? && batch == []
      modifies this`worker, this`trace
      ensures Valid() && trace == old(trace) + [Worker(Lock)] && worker == AfterExport(caller)
      ensures !caller.InRun? ==> StepsLeft(View()) < old(StepsLeft(View()))
    {
      Next(Lock);
      hide RunFrom, StepsLeft;
      worker := AfterExport(caller);
      trace := trace + [Worker(Lock)];
    }

    method BeginExportSpans(caller: Caller)
      requires Valid() && worker == ExportLock(caller) && mutex.Free? && batch != []
      modifies this`mutex, this`log, this`worker, this`trace
      ensures Valid() && trace == old(trace) + [Worker(Lock)] && worker == Exporting(caller)
      ensures log.exported == old(log.exported) + [batch] && log.returned == old(log.returned)
      ensures log.accepted == old(log.accepted)
      ensures !caller.InRun? ==> StepsLeft(View()) < old(StepsLeft(View()))
    {
      Next(Lock);
      hide RunFrom, StepsLeft;
      mutex := ByWorker;
      if Running(worker) {
        log := log.(runExports := |log.exported| + 1);
      }
      log := log.(exported := log.exported + [batch]);
      worker := Exporting(caller);
      trace := trace + [Worker(Lock)];
    }

    method EndExportSpans(caller: Caller, ok: bool)
      requires Valid() && worker == Exporting(caller)
      modifies this`mutex, this`batch, this`batchedSize, this`log, this`worker, this`trace
      ensures Valid() && trace == old(trace) + [Worker(Exported(ok))] && worker == AfterExport(caller)
      ensures batch == [] && mutex.Free? && log == old(log).(returned := old(log.returned) + 1)
      ensures !caller.InRun? ==> StepsLeft(View()) < old(StepsLeft(View()))
    {
      hide RunFrom, StepsLeft, WorkerEffect, AfterExport;
      StillDraining(caller);
      Next(Exported(ok));
      ExportedEffect(o, View(), caller, ok);
      batch := [];
      batchedSize := 0;
      mutex := Free;
      log := log.(returned := log.returned + 1);
      worker := AfterExport(caller);
      trace := trace + [Worker(Exported(ok))];
    }

    method AppendToBatch(item: Item) returns (shouldExport: bool)
      requires Valid() && worker == Holding(item) && mutex.Free?
      modifies this`batch, this`batchedSize, this`worker, this`trace
      ensures Valid() && trace == old(trace) + [Worker(Append)] && Received(View()) == old(Received(View()))
      ensures worker == if shouldExport then StopTimer else Select
      ensures batch == old(batch) + [item] && batchedSize == old(batchedSize) + SizeOf(item)
      ensures shouldExport <==> |batch| == o.maxExportBatchSize || batchedSize >= o.maxPacketSize
    {
      Next(Append);
      hide RunFrom, StepsLeft;
      batch := batch + [item];
      batchedSize := batchedSize + SizeOf(item);
      shouldExport := ShouldExport(o, batch, batchedSize);
      worker := if shouldExport then StopTimer else Select;
      trace := trace + [Worker(Append)];
    }

    /** `if !timer.Stop() { <-timer.C }`: the receive needs no waiting. */
    method StopAndDrainTimer()
      requires Valid() && worker.StopTimer?
      modifies this
      ensures Valid() && old(trace) <= trace && worker == ExportReset(InRun)
      ensures Received(View()) == old(Received(View()))
    {
      hide RunFrom, StepsLeft;
      var active := TimerStop();
      if !active {
        Pause();
        TickThere();
        TimerReceive();
      }
    }

    lemma TickThere()
      requires Valid() && worker.AwaitTick?
      ensures timer.tick
    {
      hide RunFrom;
      Sound();
    }

    method TimerStop() returns (active: bool)
      requires Valid() && worker.StopTimer?
      modifies this`timer, this`worker, this`trace
      ensures Valid() && trace == old(trace) + [Worker(Stop)]
      ensures worker == (if active then ExportReset(InRun) else AwaitTick) && (active <==> old(timer.armed))
    {
      Next(Stop);
      hide RunFrom, StepsLeft;
      active := timer.armed;
      timer := timer.(armed := false);
      worker := if active then ExportReset(InRun) else AwaitTick;
      trace := trace + [Worker(Stop)];
    }

    method TimerReceive()
      requires Valid() && timer.tick && (worker.AwaitTick? || worker.Select?)
      modifies this`timer, this`worker, this`trace
      ensures Valid() && old(trace) <= trace && worker == ExportReset(InRun) && !timer.tick
    {
      Next(if worker.AwaitTick? then Tick else TakeTick);
      hide RunFrom, StepsLeft;
      trace := trace + [Worker(if worker.AwaitTick? then Tick else TakeTick)];
      timer := timer.(tick := false);
      worker := ExportReset(InRun);
    }

    method LeaveRun()
      requires Valid() && worker.Select? && stopped
      modifies this`timer, this`worker, this`trace
      ensures Valid() && trace == old(trace) + [Worker(TakeStop)] && worker.Draining? && !timer.armed
    {
      Next(TakeStop);
      hide RunFrom, StepsLeft;
      timer := timer.(armed := false);
      worker := Draining;
      trace := trace + [Worker(TakeStop)];
    }

    /** Takes the head of the queue; a marker is closed on the spot. */
    method ReceiveInRun() returns (item: Item)
      requires Valid() && worker.Select? && queue != []
      modifies this`queue, this`calls, this`worker, this`trace
      ensures Valid() && trace == old(trace) + [Worker(Receive)] && item == old(queue)[0]
      ensures Received(View()) == old(Received(View())) + 1
      ensures worker == if item.Marker? then Select else Holding(item)
      ensures item.Marker? ==> item.owner in calls.flushed
    {
      Next(Receive);
      hide RunFrom, StepsLeft;
      item := queue[0];
      queue := queue[1..];
      if item.Marker? {
        calls := calls.(flushed := calls.flushed + {item.owner});
      } else {
        worker := Holding(item);
      }
      trace := trace + [Worker(Receive)];
    }

    /** A round of the loop that takes an item from the queue. */
    method ReceiveAndBatch()
      requires Valid() && worker.Select? && queue != []
      modifies this
      ensures Valid() && old(trace) <= trace && worker.Select? && Received(View()) == old(Received(View())) + 1
      ensures Spans(Batched(View())) == old(Spans(Batched(View()))) + Spans([old(queue)[0]])
      ensures old(queue)[0].Marker? ==> old(queue)[0].owner in calls.flushed
    {
      hide RunFrom, StepsLeft, Spans, Batched, Received;
      ghost var t, s := trace, View();
      var item := ReceiveInRun();
      if item.Data? {
        AwaitMutex();
        var shouldExport := AppendToBatch(item);
        if shouldExport {
          Pause();
          StopAndDrainTimer();
          ExportSpans(InRun);
        }
      }
      HeadBatched(t, s);
    }

    lemma HeadBatched(t: seq<Action>, s: State)
      requires Valid() && worker.Select? && t <= trace && RunFrom(o, Init(), t) == Some(s)
      requires s.worker.Select? && s.queue != [] && Received(View()) == Received(s) + 1
      ensures Spans(Batched(View())) == Spans(Batched(s)) + Spans([s.queue[0]])
    {
      hide RunFrom, Spans, Batched;
      Sound();
      assert Reachable(o, s);
      ReachableInv(o, s);
      BatchedGrows(o, t, trace);
      OneMoreBatched(o, s, View());
    }

    /** One round, given the case its select takes; a case that is not ready leaves everything as it is. */
    method RunRound(pick: Branch)
      requires Valid() && worker.Select?
      modifies this
      ensures Valid() && old(trace) <= trace && (worker.Select? || worker.Draining?)
      ensures RoundDone(old(View()), pick, View())
    {
      hide RunFrom, StepsLeft, Spans, Flatten;
      match pick
      case OnStop =>
        if stopped {
          LeaveRun();
        }
      case OnTick =>
        if timer.tick {
          TimerReceive();
          ExportSpans(InRun);
        }
      case OnQueue =>
        if queue != [] {
          ReceiveAndBatch();
        }
    }

    /** The run loop; `picks` are the cases its selects take, round by round. Every round does what its case asks for,
        and only a stop ends the loop. */
    method ProcessQueue(picks: seq<Branch>) returns (ghost rounds: seq<Round>)
      requires Valid() && worker.Select?
      modifies this
      ensures Valid() && old(trace) <= trace && (worker.Select? || worker.Draining?)
      ensures |rounds| <= |picks| && (|rounds| < |picks| ==> worker.Draining?)
      ensures RoundsDone(o, |old(trace)|, trace, picks, rounds)
      ensures rounds == [] || rounds[|rounds| - 1].stop == |trace|
    {
      hide RunFrom, StepsLeft, RoundDone;
      rounds := [];
      for r := 0 to |picks|
        invariant Valid() && old(trace) <= trace && worker.Select? && |rounds| == r
        invariant RoundsDone(o, |old(trace)|, trace, picks, rounds)
        invariant rounds == [] || rounds[|rounds| - 1].stop == |trace|
      {
        ghost var sofar := trace;
        Pause();
        ghost var t, s := trace, View();
        RunRound(picks[r]);
        assert trace[..|t|] == t && trace[..|trace|] == trace;
        NextRound(o, |old(trace)|, sofar, trace, picks, rounds, Round(|t|, |trace|));
        rounds := rounds + [Round(|t|, |trace|)];
        if worker.Draining? {
          return;
        }
      }
    }

    method DrainOne() returns (item: Item)
      requires Valid() && worker.Draining? && queue != []
      modifies this`queue, this`worker, this`trace
      ensures Valid() && trace == old(trace) + [Worker(DrainReceive)] && worker == DrainHolding(item)
      ensures StepsLeft(View()) < old(StepsLeft(View()))
    {
      Next(DrainReceive);
      hide RunFrom, StepsLeft;
      item := queue[0];
      queue := queue[1..];
      worker := DrainHolding(item);
      trace := trace + [Worker(DrainReceive)];
    }

    method AppendInDrain(item: Item) returns (shouldExport: bool)
      requires Valid() && worker == DrainHolding(item) && mutex.Free?
      modifies this`batch, this`worker, this`trace
      ensures Valid() && trace == old(trace) + [Worker(DrainAppend)]
      ensures worker == if shouldExport then ExportReset(InDrain) else Draining
      ensures batch == old(batch) + [item] && (shouldExport <==> |batch| == o.maxExportBatchSize)
      ensures StepsLeft(View()) < old(StepsLeft(View()))
    {
      Next(DrainAppend);
      hide RunFrom, StepsLeft;
      batch := batch + [item];
      shouldExport := |batch| == o.maxExportBatchSize;
      worker := if shouldExport then ExportReset(InDrain) else Draining;
      trace := trace + [Worker(DrainAppend)];
    }

    /** The select finds the open queue empty and takes its default branch. */
    method NoticeEmpty()
      requires Valid() && worker.Draining? && queue == [] && !closed
      modifies this`worker, this`trace
      ensures Valid() && trace == old(trace) + [Worker(SeeEmpty)] && worker.Closing?
      ensures StepsLeft(View()) < old(StepsLeft(View()))
    {
      Next(SeeEmpty);
      hide RunFrom, StepsLeft;
      worker := Closing;
      trace := trace + [Worker(SeeEmpty)];
    }

    /** The close that follows, whatever was sent in between; it never meets a closed queue, where it would panic. */
    method CloseTheQueue()
      requires Valid() && worker.Closing?
      modifies this`closed, this`worker, this`trace
      ensures Valid() && trace == old(trace) + [Worker(CloseQueue)] && worker.Draining? && !old(closed) && closed
      ensures StepsLeft(View()) < old(StepsLeft(View()))
    {
      Next(CloseQueue);
      ClosedOnce(o, View());
      hide RunFrom, StepsLeft;
      closed := true;
      worker := Draining;
      trace := trace + [Worker(CloseQueue)];
    }

    /** The receive from the closed, empty queue. */
    method LeaveDrain()
      requires Valid() && worker.Draining? && queue == [] && closed
      modifies this`worker, this`trace
      ensures Valid() && trace == old(trace) + [Worker(DrainEnd)] && worker == ExportReset(AtEnd)
      ensures StepsLeft(View()) < old(StepsLeft(View()))
    {
      Next(DrainEnd);
      hide RunFrom, StepsLeft;
      worker := ExportReset(AtEnd);
      trace := trace + [Worker(DrainEnd)];
    }

    /** A round of the drain loop that finds a queued item. */
    method DrainReady()
      requires Valid() && worker.Draining? && queue != []
      modifies this
      ensures Valid() && old(trace) <= trace && worker.Draining? && StepsLeft(View()) < old(StepsLeft(View()))
    {
      hide RunFrom, StepsLeft, Spans, Flatten, Batched;
      var item := DrainOne();
      AwaitMutex();
      var shouldExport := AppendInDrain(item);
      if shouldExport {
        ExportSpans(InDrain);
      }
    }

    /** The drain loop ends whatever the other goroutines do meanwhile, and then every accepted span has been
        handed to the exporter exactly once, in order. */
    method DrainQueue()
      requires Valid() && worker.Draining?
      modifies this
      ensures Valid() && old(trace) <= trace && worker.Ended?
      ensures closed && queue == [] && batch == [] && mutex.Free?
      ensures Spans(log.accepted) == Spans(Flatten(log.exported)) && log.returned == |log.exported|
    {
      hide RunFrom, StepsLeft, Spans, Flatten, Batched;
      while worker.Draining?
        invariant Valid() && old(trace) <= trace && (worker.Draining? || worker.Ended?)
        decreases StepsLeft(View())
      {
        Pause();
        DrainRound();
      }
      AllExported();
    }

    /** A round: an item if there is one, else the close, else, on the closed, empty queue, the last export. */
    method DrainRound()
      requires Valid() && worker.Draining?
      modifies this
      ensures Valid() && old(trace) <= trace && (worker.Draining? || worker.Ended?)
      ensures StepsLeft(View()) < old(StepsLeft(View()))
      ensures worker.Ended? ==> old(queue) == [] && old(closed)
    {
      hide RunFrom, StepsLeft, Spans, Flatten, Batched;
      if queue != [] {
        DrainReady();
      } else if !closed {
        NoticeEmpty();
        Pause();
        CloseTheQueue();
      } else {
        LeaveDrain();
        ExportSpans(AtEnd);
      }
    }

    lemma AllExported()
      requires Valid() && worker.Ended?
      ensures closed && queue == [] && batch == [] && mutex.Free?
      ensures Spans(log.accepted) == Spans(Flatten(log.exported)) && log.returned == |log.exported|
    {
      assert Reachable(o, View());
      hide RunFrom, Spans, Flatten;
      WorkerEndComplete(o, View());
    }

    // ----- OnEnd, ForceFlush and Shutdown; here the worker is one of the others

    /** Other goroutines run while the call `c` stands still. */
    method Interlude(c: ClientId, ghost since: State)
      requires Valid() && Later(since, View())
      modifies this
      ensures Valid() && old(trace) <= trace && SameCall(c, old(View()), View()) && Later(since, View())
      ensures clock == old(clock) + 1
    {
      hide RunFrom, Later;
      var acts := others(clock);
      for i := 0 to |acts|
        invariant Valid() && old(trace) <= trace && SameCall(c, old(View()), View()) && Later(since, View())
        invariant clock == old(clock)
      {
        if Enabled(o, View(), acts[i]) && !(acts[i].Client? && acts[i].c == c) {
          OthersLeaveCall(o, View(), acts[i], c);
          LaterTrans(since, View(), Apply(o, View(), acts[i]));
          hide Apply, Enabled;
          Take(acts[i]);
        }
      }
      clock := clock + 1;
    }

    /** A step of the call itself. */
    method Step(c: ClientId, step: ClientStep, ghost since: State)
      requires Valid() && ClientEnabled(o, View(), c, step) && Later(since, View())
      modifies this
      ensures Valid() && trace == old(trace) + [Client(c, step)] && Later(since, View())
      ensures c in calls.clients && calls.clients[c] == ClientNext(o, old(View()), c, step)
      ensures View() == Apply(o, old(View()), Client(c, step)) && clock == old(clock)
    {
      ClientLater(o, View(), c, step);
      LaterTrans(since, View(), Apply(o, View(), Client(c, step)));
      hide RunFrom, Later;
      Take(Client(c, step));
    }

    /** The stop check, then the send: blocking, or dropping the span when the queue is full. The source returns true
        for Sent and false for the rest. `patience` bounds the wait for room. */
    method EnqueueBlockOnQueueFull(c: ClientId, block: bool, patience: nat, ghost since: State)
        returns (r: EnqueueResult)
      requires Valid() && c in calls.clients && calls.clients[c].Check? && Later(since, View())
      requires block <==> calls.clients[c].call.Flush? || o.block
      modifies this
      ensures Valid() && old(trace) <= trace && Later(since, View())
      ensures AfterEnqueue(o, View(), since, c, old(calls.clients[c].call), r)
      ensures since.stopped ==> r.SawStop?
      ensures block ==> !r.SawFull?
      ensures !block ==> !r.Waiting?
      ensures clock >= old(clock) && (r.SawDone? ==> DoneWithin(old(clock)))
      ensures old(calls.clients[c].call).Flush? && !r.SawDone? ==> NotDone(old(clock) + 1, clock)
      ensures r.Waiting? ==> clock > old(clock) + 1 + patience
    {
      hide RunFrom, Later, AfterEnqueue, Apply;
      ghost var call := calls.clients[c].call;
      Interlude(c, since);
      LaterStopped(since, View());
      var refused := stopped;
      CheckKeepsStop(o, View(), c);
      Step(c, CheckStop, since);
      if refused {
        StoppedPlace(o, View(), since, c, call);
        return SawStop;
      }
      for round := 0 to patience + 1
        invariant Valid() && old(trace) <= trace && Later(since, View())
        invariant c in calls.clients && calls.clients[c] == ClientPc.Send(call)
        invariant (round > 0 ==> block && !closed && |queue| >= o.maxQueueSize) && clock > old(clock) + round
        invariant call.Flush? ==> NotDone(old(clock) + 1, clock)
      {
        r := TrySend(c, block, since);
        if !r.Waiting? {
          return;
        }
      }
      WaitingPlace(o, View(), since, c, call);
      return Waiting;
    }

    /** A select of the call took its done context, at some time from `t0` on. */
    ghost predicate DoneWithin(t0: nat)
      reads this
    {
      exists t :: t0 <= t <= clock && done(t)
    }

    /** No select after the time `t0`, up to `t1`, took a done context. */
    ghost predicate NotDone(t0: nat, t1: nat) {
      forall t :: t0 < t <= t1 ==> !done(t)
    }

    lemma NotDoneYet(t: nat)
      ensures NotDone(t, t)
    {}

    lemma NotDoneJoin(t0: nat, t1: nat, t2: nat)
      requires NotDone(t0, t1) && (NotDone(t1, t2) || (t2 == t1 + 1 && !done(t2)))
      ensures NotDone(t0, t2)
    {}

    /** One try: a done context, if the select takes it, else the send if it can go on, else the default branch of a
        call that does not block. */
    method TrySend(c: ClientId, block: bool, ghost since: State) returns (r: EnqueueResult)
      requires Valid() && c in calls.clients && calls.clients[c].Send? && Later(since, View())
      requires block <==> calls.clients[c].call.Flush? || o.block
      modifies this
      ensures Valid() && old(trace) <= trace && Later(since, View())
      ensures AfterEnqueue(o, View(), since, c, old(calls.clients[c].call), r)
      ensures r.Waiting? ==> block && c in calls.clients && calls.clients[c] == old(calls.clients[c])
      ensures r.Waiting? ==> !closed && |queue| >= o.maxQueueSize
      ensures old(calls.clients[c].call).Flush? && !r.SawDone? ==> NotDone(old(clock), clock)
      ensures !r.SawStop? && (block ==> !r.SawFull?)
      ensures clock > old(clock) && (r.SawDone? ==> DoneWithin(old(clock)))
    {
      hide RunFrom, Later, AfterEnqueue;
      ghost var call := calls.clients[c].call;
      Interlude(c, since);
      if calls.clients[c].call.Flush? && done(clock) {
        Step(c, Cancel, since);
        RefusedPlace(o, View(), since, c, call, SawDone);
        return SawDone;
      }
      if closed || |queue| < o.maxQueueSize {
        r := SendNow(c, since);
        return;
      }
      if !block {
        Step(c, Drop, since);
        RefusedPlace(o, View(), since, c, call, SawFull);
        return SawFull;
      }
      WaitingPlace(o, View(), since, c, call);
      return Waiting;
    }

    /** A send on the closed queue panics and is recovered. */
    method SendNow(c: ClientId, ghost since: State) returns (r: EnqueueResult)
      requires Valid() && c in calls.clients && calls.clients[c].Send? && Later(since, View())
      requires closed || |queue| < o.maxQueueSize
      modifies this
      ensures Valid() && old(trace) <= trace && Later(since, View()) && clock == old(clock)
      ensures AfterEnqueue(o, View(), since, c, old(calls.clients[c].call), r) && (r.Sent? || r.SawClosed?)
    {
      hide RunFrom, Later;
      LaterAccepted(since, View());
      var panicked := closed;
      Step(c, SendItem, since);
      return if panicked then SawClosed else Sent;
    }

    method OnEnd(c: ClientId, span: Span, patience: nat) returns (r: EnqueueResult)
      requires Valid() && c !in calls.clients
      modifies this
      ensures Valid() && old(trace) <= trace && Later(old(View()), View())
      ensures AfterEnqueue(o, View(), old(View()), c, Call.End(span), r)
      ensures old(stopped) ==> r.SawStop?
      ensures if o.block then !r.SawFull? else !r.Waiting?
    {
      LaterRefl(View());
      hide RunFrom, Later, AfterEnqueue;
      ghost var since := View();
      Step(c, StartOnEnd(span), since);
      r := EnqueueBlockOnQueueFull(c, o.block, patience, since);
    }

    /** Waits for the marker to be closed or the context to be done; it stops looking only while neither is the case. */
    method AwaitFlushed(c: ClientId, patience: nat, ghost since: State) returns (r: FlushResult)
      requires Valid() && c in calls.clients && calls.clients[c].WaitFlushed? && Later(since, View())
      modifies this
      ensures Valid() && old(trace) <= trace && Later(since, View()) && c in calls.clients
      ensures r.FlushedNil? ==> calls.clients[c] == FlushReset(Some(old(calls.clients[c].pos)), true)
      ensures r == FlushedNil || (r == ContextDone && DoneWithin(old(clock))) || (r == NotReturned && Blocked(c))
      ensures clock > old(clock) && (r != ContextDone ==> NotDone(old(clock), clock))
      ensures r == ContextDone ==> c in calls.clients && calls.clients[c] == Cancelled(old(calls.clients[c].pos))
      ensures r == NotReturned ==> clock > old(clock) + patience
    {
      hide RunFrom, Later, Apply, NotDone;
      NotDoneYet(clock);
      for round := 0 to patience + 1
        invariant Valid() && old(trace) <= trace && Later(since, View()) && clock >= old(clock) + round
        invariant c in calls.clients && calls.clients[c] == old(calls.clients[c])
        invariant (round > 0 ==> c !in calls.flushed) && NotDone(old(clock), clock)
      {
        Interlude(c, since);
        if done(clock) {
          Step(c, Cancel, since);
          return ContextDone;
        }
        NotDoneJoin(old(clock), clock - 1, clock);
        if c in calls.flushed {
          Step(c, SeeFlushed, since);
          return FlushedNil;
        }
      }
      return NotReturned;
    }

    /** exportSpans in the goroutine a ForceFlush call starts. The call returns when the export does or, earlier, when
        it takes its done context; the export then goes on without it. `verdict` says how the exporter ends the export,
        if there is one, and `lock` is where in the run the call took the mutex for it. */
    method ExportInCall(c: ClientId, patience: nat, verdict: bool, ghost since: State)
        returns (r: FlushResult, ghost lock: Option<nat>)
      requires Valid() && c in calls.clients && calls.clients[c].FlushReset? && calls.clients[c].waiting
      requires Later(since, View())
      modifies this
      ensures Valid() && old(trace) <= trace && Later(since, View()) && c in calls.clients && clock > old(clock)
      ensures ExportEnd(calls.clients[c], old(calls.clients[c].marker), r)
      ensures if r == ContextDone then DoneWithin(old(clock)) else NotDone(old(clock), clock)
      ensures r == NotReturned ==> Blocked(c) && clock > old(clock) + patience
      ensures ReportsVerdict(o, trace, c, lock, verdict, r)
    {
      hide RunFrom, Later, Apply, ReportsVerdict, NotDone, ExportEnd, DoneWithin;
      ghost var marker := calls.clients[c].marker;
      Step(c, ClientReset, since);
      NotDoneYet(clock);
      for round := 0 to patience + 1
        invariant Valid() && old(trace) <= trace && Later(since, View()) && clock >= old(clock) + round
        invariant c in calls.clients && calls.clients[c] == FlushLock(marker, true)
        invariant (round > 0 ==> !mutex.Free?) && NotDone(old(clock), clock)
      {
        ghost var before := clock;
        r, lock := TryExport(c, verdict, since, marker);
        if r == ContextDone {
          DoneLater(old(clock), before);
          return;
        }
        NotDoneJoin(old(clock), before, clock);
        if !r.NotReturned? {
          return;
        }
      }
      WaitsForMutex(c, marker);
      NoVerdict(o, trace, c, verdict, NotReturned);
      return NotReturned, None;
    }

    /** One try: a done context, if the select takes it, else the export if the mutex is free. */
    method TryExport(c: ClientId, verdict: bool, ghost since: State, ghost marker: Option<nat>)
        returns (r: FlushResult, ghost lock: Option<nat>)
      requires Valid() && c in calls.clients && Later(since, View()) && calls.clients[c] == FlushLock(marker, true)
      modifies this
      ensures Valid() && old(trace) <= trace && Later(since, View()) && c in calls.clients && clock > old(clock)
      ensures r.NotReturned? ==> calls.clients[c] == FlushLock(marker, true) && !mutex.Free?
      ensures ExportEnd(calls.clients[c], marker, r)
      ensures if r == ContextDone then DoneWithin(old(clock)) else NotDone(old(clock), clock)
      ensures ReportsVerdict(o, trace, c, lock, verdict, r)
    {
      hide RunFrom, Later, Apply, ReportsVerdict;
      Interlude(c, since);
      if done(clock) {
        GiveUp(c, since);
        NoVerdict(o, trace, c, verdict, ContextDone);
        return ContextDone, None;
      }
      if mutex.Free? {
        r, lock := LockAndExport(c, verdict, since, marker);
        return;
      }
      NoVerdict(o, trace, c, verdict, NotReturned);
      return NotReturned, None;
    }

    method LockAndExport(c: ClientId, verdict: bool, ghost since: State, ghost marker: Option<nat>)
        returns (r: FlushResult, ghost lock: Option<nat>)
      requires Valid() && c in calls.clients && Later(since, View())
      requires calls.clients[c] == FlushLock(marker, true) && mutex.Free?
      modifies this
      ensures Valid() && old(trace) <= trace && Later(since, View()) && c in calls.clients && clock >= old(clock)
      ensures ExportEnd(calls.clients[c], marker, r) && !r.NotReturned?
      ensures if r == ContextDone then DoneWithin(old(clock)) else NotDone(old(clock), clock)
      ensures ReportsVerdict(o, trace, c, lock, verdict, r)
    {
      hide RunFrom, Later, Apply, ClientNext, ExportEnd, DoneWithin, NotDone;
      ghost var t, found := trace, batch;
      LockStands(o, View(), c);
      Step(c, ClientLock, since);
      r := ExportUnderLock(c, verdict, since, marker);
      assert trace[..|t|] == t && trace[|t|] == Client(c, ClientLock);
      assert Locks(o, trace, c, |t|, found);
      lock := Some(|t|);
    }

    /** The export under the mutex, if there is one, and the return; the context is watched all along. */
    method ExportUnderLock(c: ClientId, verdict: bool, ghost since: State, ghost marker: Option<nat>)
        returns (r: FlushResult)
      requires Valid() && c in calls.clients && Later(since, View())
      requires calls.clients[c] == FlushExporting(marker, true) || calls.clients[c] == Finished(marker, true, true)
      modifies this
      ensures Valid() && old(trace) <= trace && Later(since, View()) && c in calls.clients && clock >= old(clock)
      ensures ExportEnd(calls.clients[c], marker, r) && !r.NotReturned?
      ensures if r == ContextDone then DoneWithin(old(clock)) else NotDone(old(clock), clock)
      ensures r != ContextDone ==>
        (r == ExportFailed <==> old(calls.clients[c]) == FlushExporting(marker, true) && !verdict)
    {
      hide RunFrom, Later, Apply, DoneWithin, NotDone;
      NotDoneYet(clock);
      if calls.clients[c].FlushExporting? {
        Interlude(c, since);
        if done(clock) {
          GiveUp(c, since);
          DoneNow(old(clock));
          return ContextDone;
        }
        NotDoneJoin(old(clock), old(clock), clock);
        Step(c, ClientExported(verdict), since);
      }
      ghost var before := clock;
      r := ReturnFrom(c, since, marker);
      if r == ContextDone {
        DoneLater(old(clock), before);
      } else {
        NotDoneJoin(old(clock), before, clock);
      }
    }

    method GiveUp(c: ClientId, ghost since: State)
      requires Valid() && c in calls.clients && Cancellable(calls.clients[c]) && Later(since, View())
      requires !calls.clients[c].Send?
      modifies this
      ensures Valid() && old(trace) <= trace && Later(since, View()) && clock == old(clock)
      ensures c in calls.clients && GaveUp(calls.clients[c])
    {
      hide RunFrom, Later, Apply;
      Step(c, Cancel, since);
    }

    method ReturnFrom(c: ClientId, ghost since: State, ghost marker: Option<nat>) returns (r: FlushResult)
      requires Valid() && c in calls.clients && Later(since, View())
      requires calls.clients[c].Finished? && calls.clients[c].waiting && calls.clients[c].marker == marker
      modifies this
      ensures Valid() && old(trace) <= trace && Later(since, View()) && c in calls.clients && clock >= old(clock)
      ensures ExportEnd(calls.clients[c], marker, r) && !r.NotReturned?
      ensures if r == ContextDone then DoneWithin(old(clock)) else NotDone(old(clock), clock)
      ensures r != ContextDone ==> (r == ExportFailed <==> !old(calls.clients[c].ok))
    {
      hide RunFrom, Later, Apply;
      Interlude(c, since);
      if done(clock) {
        GiveUp(c, since);
        return ContextDone;
      }
      Step(c, Deliver, since);
      return if calls.clients[c].ok then FlushedNil else ExportFailed;
    }

    lemma WaitsForMutex(c: ClientId, marker: Option<nat>)
      requires c in calls.clients && calls.clients[c] == FlushLock(marker, true) && !mutex.Free?
      ensures Blocked(c) && ExportEnd(calls.clients[c], marker, NotReturned)
    {}

    lemma DoneNow(t0: nat)
      requires t0 <= clock && done(clock)
      ensures DoneWithin(t0)
    {}

    lemma DoneLater(t0: nat, t1: nat)
      requires t0 <= t1 && DoneWithin(t1)
      ensures DoneWithin(t0)
    {}

    /** The call is blocked: on the full queue, on its marker, or on the mutex. */
    ghost predicate Blocked(c: ClientId)
      reads this
    {
      && c in calls.clients
      && match calls.clients[c]
         case Send(_) => !closed && |queue| >= o.maxQueueSize
         case WaitFlushed(_) => c !in calls.flushed
         case FlushLock(_, _) => !mutex.Free?
         case _ => false
    }

    /** If it returns nil, everything accepted before the call belongs to ExportSpans calls that have returned, unless
        the processor was stopped by then or a select of the call took its done context. Having taken the mutex, a call
        that its context does not end reports how the export of what it found ended, and nil if it found nothing. It has
        not returned only while it is blocked and its context is not done. */
    method ForceFlush(c: ClientId, patience: nat, verdict: bool) returns (r: FlushResult, ghost lock: Option<nat>)
      requires Valid() && c !in calls.clients
      modifies this
      ensures Valid() && old(trace) <= trace && Later(old(View()), View())
      ensures r.FlushedNil? ==> c in calls.clients && calls.clients[c].Returned? && calls.clients[c].ok
      ensures r.FlushedNil? ==> Delivered(View(), old(log.accepted)) || stopped || DoneWithin(old(clock))
      ensures r == ContextDone ==> DoneWithin(old(clock)) && c in calls.clients && GaveUp(calls.clients[c])
      ensures r != ContextDone ==> !done(clock)
      ensures r == NotReturned ==> Blocked(c)
      ensures ReportsVerdict(o, trace, c, lock, verdict, r)
    {
      LaterRefl(View());
      hide RunFrom, Later, Delivered, ReportsVerdict;
      ghost var since := View();
      Step(c, StartForceFlush, since);
      var sent := EnqueueBlockOnQueueFull(c, true, patience, since);
      if sent.Waiting? {
        NoVerdict(o, trace, c, verdict, NotReturned);
        return NotReturned, None;
      }
      if sent.Sent? {
        r := AwaitFlushed(c, patience, since);
        if !r.FlushedNil? {
          NoVerdict(o, trace, c, verdict, r);
          return r, None;
        }
        r, lock := ExportInCall(c, patience, verdict, since);
        if r.FlushedNil? {
          FlushCovers(o, View(), since, c);
        }
      } else {
        r, lock := ExportUnsent(c, patience, verdict, since, sent);
      }
    }

    /** The rest of a ForceFlush call that sent no marker. */
    method ExportUnsent(c: ClientId, patience: nat, verdict: bool, ghost since: State, ghost sent: EnqueueResult)
        returns (r: FlushResult, ghost lock: Option<nat>)
      requires Valid() && c in calls.clients && calls.clients[c] == FlushReset(None, true) && Later(since, View())
      requires (sent.SawStop? && stopped) || (sent.SawClosed? && closed) || sent.SawDone?
      modifies this
      ensures Valid() && old(trace) <= trace && Later(since, View()) && clock >= old(clock)
      ensures r.FlushedNil? ==> c in calls.clients && calls.clients[c] == Returned(None, true)
      ensures stopped || sent.SawDone?
      ensures r == ContextDone ==> DoneWithin(old(clock)) && c in calls.clients && GaveUp(calls.clients[c])
      ensures r != ContextDone ==> !done(clock)
      ensures r == NotReturned ==> Blocked(c)
      ensures ReportsVerdict(o, trace, c, lock, verdict, r)
    {
      hide RunFrom, ReportsVerdict;
      ghost var mid := View();
      if closed {
        Sound();
      }
      LaterRefl(mid);
      r, lock := ExportInCall(c, patience, verdict, mid);
      LaterTrans(since, mid, View());
    }
  }

  // ----- what the rounds of the run loop do

  /** How many items have left the queue. */
  function Received(s: State): (r: int) {
    |s.accepted| - |s.queue|
  }

  /** What a round does, given the states when it takes its case and at its end: a stop leads to the drain loop; a tick
      exports everything batched so far; the head of the queue is batched behind the spans batched before, or closed if
      it is a marker. */
  ghost predicate RoundDone(before: State, pick: Branch, after: State) {
    match pick
    case OnStop => if before.stopped then after.worker.Draining? && !after.armed else after == before
    case OnTick =>
      if before.tick then
        && after.worker.Select? && Received(after) == Received(before)
        && after.batch == [] && after.returned == |after.exported|
        && Spans(Batched(before)) <= Spans(Flatten(after.exported))
      else after == before
    case OnQueue =>
      if before.queue != [] then
        && after.worker.Select? && Received(after) == Received(before) + 1
        && Spans(Batched(after)) == Spans(Batched(before)) + Spans([before.queue[0]])
        && (before.queue[0].Marker? ==> before.queue[0].owner in after.flushed)
      else after == before
  }

  ghost predicate RoundAt(o: Options, trace: seq<Action>, pick: Branch, r: Round) {
    && r.start <= r.stop <= |trace|
    && RunFrom(o, Init(), trace[..r.start]).Some? && RunFrom(o, Init(), trace[..r.stop]).Some?
    && RoundDone(RunFrom(o, Init(), trace[..r.start]).value, pick, RunFrom(o, Init(), trace[..r.stop]).value)
  }

  /** The rounds follow each other from the point `begin` of the trace on, and each does what its case asks for. */
  ghost predicate RoundsDone(o: Options, begin: nat, trace: seq<Action>, picks: seq<Branch>, rounds: seq<Round>) {
    && |rounds| <= |picks|
    && (forall i :: 0 <= i < |rounds| ==> RoundAt(o, trace, picks[i], rounds[i]) && begin <= rounds[i].start)
    && (forall i :: 0 < i < |rounds| ==> rounds[i - 1].stop <= rounds[i].start)
  }

  lemma NextRound(o: Options, begin: nat, t: seq<Action>, t': seq<Action>, picks: seq<Branch>, rounds: seq<Round>,
                  r: Round)
    requires begin <= |t| && t <= t' && |rounds| < |picks| && RoundsDone(o, begin, t, picks, rounds)
    requires |t| <= r.start && RoundAt(o, t', picks[|rounds|], r)
    ensures RoundsDone(o, begin, t', picks, rounds + [r])
  {
    hide RunFrom, RoundDone;
    forall i | 0 <= i < |rounds|
      ensures RoundAt(o, t', picks[i], rounds[i])
    {
      assert RoundAt(o, t, picks[i], rounds[i]);
      assert t'[..rounds[i].start] == t[..rounds[i].start] && t'[..rounds[i].stop] == t[..rounds[i].stop];
    }
  }

  lemma HandEmpty(s: State)
    requires ConservationInv(s) && s.worker.Select?
    ensures Spans(s.accepted) == Spans(Batched(s)) + Spans(s.queue)
  {
    hide Batched;
    assert Spans(Hand(s.worker)) == [];
  }

  lemma BatchedIsReceived(s: State)
    requires ConservationInv(s) && QueueInv(s) && s.worker.Select?
    ensures 0 <= Received(s) <= |s.accepted| && Spans(Batched(s)) == Spans(s.accepted[..Received(s)])
  {
    HandEmpty(s);
    hide Spans, Batched, ConservationInv;
    var k := Received(s);
    assert s.accepted == s.accepted[..k] + s.queue;
    SpansConcat(s.accepted[..k], s.queue);
    SameTail(Spans(Batched(s)), Spans(s.accepted[..k]), Spans(s.queue));
  }

  lemma SameTail<T>(a: seq<T>, b: seq<T>, c: seq<T>)
    requires a + c == b + c
    ensures a == b
  {
    assert |a| == |a + c| - |c| == |b|;
    assert a == (a + c)[..|a|] && b == (b + c)[..|b|];
  }

  /** With the worker at its select, one more item received is one more item batched, behind the others. */
  lemma OneMoreBatched(o: Options, s: State, s': State)
    requires Inv(o, s) && Inv(o, s') && s.worker.Select? && s'.worker.Select? && s.queue != []
    requires s.accepted <= s'.accepted && Received(s') == Received(s) + 1
    ensures Spans(Batched(s')) == Spans(Batched(s)) + Spans([s.queue[0]])
  {
    hide Spans, Batched, ConservationInv;
    BatchedIsReceived(s);
    BatchedIsReceived(s');
    var k := Received(s);
    assert s'.accepted[..k + 1] == s.accepted[..k] + [s.queue[0]];
    SpansConcat(s.accepted[..k], [s.queue[0]]);
  }

  // ----- how calls end

  /** At the point `k` of the run the call `c` takes the mutex for its export and finds `batch`. */
  ghost predicate Locks(o: Options, trace: seq<Action>, c: ClientId, k: nat, batch: seq<Item>) {
    && k < |trace| && trace[k] == Client(c, ClientLock)
    && RunFrom(o, Init(), trace[..k]).Some? && RunFrom(o, Init(), trace[..k]).value.batch == batch
  }

  /** A call that took the mutex at `lock` and was not ended by its context returns the verdict on what it exported,
      and nil if it found nothing to export; without the mutex it neither succeeds nor fails. */
  ghost predicate ReportsVerdict(o: Options, trace: seq<Action>, c: ClientId, lock: Option<nat>, verdict: bool,
                                 r: FlushResult) {
    match lock
    case None => r.ContextDone? || r.NotReturned?
    case Some(k) =>
      exists batch :: Locks(o, trace, c, k, batch)
        && (r == ContextDone || r == if batch == [] || verdict then FlushedNil else ExportFailed)
  }

  lemma NoVerdict(o: Options, trace: seq<Action>, c: ClientId, verdict: bool, r: FlushResult)
    requires r.ContextDone? || r.NotReturned?
    ensures ReportsVerdict(o, trace, c, None, verdict, r)
  {}

  lemma LockStands(o: Options, s: State, c: ClientId)
    requires ClientEnabled(o, s, c, ClientLock)
    ensures ClientNext(o, s, c, ClientLock) == var pc := s.clients[c];
      if s.batch == [] then Finished(pc.marker, pc.waiting, true) else FlushExporting(pc.marker, pc.waiting)
  {}

  /** How an enqueue ended: sent, refused by the stop check, by the closed or the full queue, given up because the
      context was done, or still waiting for room. */
  datatype EnqueueResult = Sent | SawStop | SawClosed | SawFull | SawDone | Waiting

  datatype FlushResult = FlushedNil | ExportFailed | ContextDone | NotReturned

  ghost predicate Delivered(s: State, accepted: seq<Item>) {
    s.returned <= |s.exported| && Spans(accepted) <= Spans(Flatten(s.exported[..s.returned]))
  }

  lemma FlushCovers(o: Options, s: State, since: State, c: ClientId)
    requires Reachable(o, s) && c in s.clients && s.clients[c].Returned? && s.clients[c].marker.Some?
    requires |since.accepted| <= s.clients[c].marker.value && Later(since, s)
    ensures Delivered(s, since.accepted)
  {
    hide Reachable, Spans, Flatten;
    ForceFlushDelivers(o, s, c);
    var pos := s.clients[c].marker.value;
    assert s.accepted[..pos][..|since.accepted|] == since.accepted;
    SpansPrefix(s.accepted[..pos], |since.accepted|);
  }

  /** The call stands where it stood. */
  ghost predicate SameCall(c: ClientId, s: State, t: State) {
    && (c in t.clients <==> c in s.clients)
    && (c in s.clients ==> t.clients[c] == s.clients[c])
  }

  /** What only ever grows or stays set. */
  ghost predicate Later(s: State, t: State) {
    && s.accepted <= t.accepted && s.exported <= t.exported && s.flushed <= t.flushed
    && (s.stopped ==> t.stopped) && (s.closed ==> t.closed)
  }

  /** What became of the item of call `c` since the state `since`: sent, it is the last one accepted; otherwise
      something stood in its way. */
  ghost predicate AfterEnqueue(o: Options, s: State, since: State, c: ClientId, call: Call, r: EnqueueResult) {
    c in s.clients
    && (!r.Sent? && !r.Waiting? ==> s.clients[c] == NotEnqueued(call))
    && match r
       case Sent =>
         && |s.accepted| > |since.accepted| && s.accepted[|s.accepted| - 1] == ItemOf(c, call)
         && s.clients[c] == if call.End? then EndDone(true) else WaitFlushed(|s.accepted| - 1)
       case SawStop => s.stopped
       case SawClosed => s.closed
       case SawFull => |s.queue| >= o.maxQueueSize && call.End? && !o.block
       case SawDone => call.Flush?
       case Waiting => s.clients[c] == ClientPc.Send(call) && !s.closed && |s.queue| >= o.maxQueueSize
  }

  /** How an export in a ForceFlush call ended for the call. */
  ghost predicate ExportEnd(pc: ClientPc, marker: Option<nat>, r: FlushResult) {
    match r
    case FlushedNil => pc == Returned(marker, true)
    case ExportFailed => pc == Returned(marker, false)
    case ContextDone => GaveUp(pc)
    case NotReturned => !pc.Returned?
  }

  /** The call has returned with its context's error; its export, if it is under way, goes on without it. */
  predicate GaveUp(pc: ClientPc) {
    match pc
    case FlushReset(_, waiting) => !waiting
    case FlushLock(_, waiting) => !waiting
    case FlushExporting(_, waiting) => !waiting
    case Finished(_, waiting, _) => !waiting
    case Cancelled(_) => true
    case _ => false
  }

  lemma RefusedPlace(o: Options, s: State, since: State, c: ClientId, call: Call, r: EnqueueResult)
    requires c in s.clients && s.clients[c] == NotEnqueued(call)
    requires (r.SawDone? && call.Flush?) || (r.SawFull? && |s.queue| >= o.maxQueueSize && call.End? && !o.block)
    ensures AfterEnqueue(o, s, since, c, call, r)
  {}

  lemma StoppedPlace(o: Options, s: State, since: State, c: ClientId, call: Call)
    requires c in s.clients && s.clients[c] == NotEnqueued(call) && s.stopped
    ensures AfterEnqueue(o, s, since, c, call, SawStop)
  {}

  lemma WaitingPlace(o: Options, s: State, since: State, c: ClientId, call: Call)
    requires c in s.clients && s.clients[c] == ClientPc.Send(call) && !s.closed && |s.queue| >= o.maxQueueSize
    ensures AfterEnqueue(o, s, since, c, call, Waiting)
  {}

  lemma CheckKeepsStop(o: Options, s: State, c: ClientId)
    requires ClientEnabled(o, s, c, CheckStop)
    ensures Apply(o, s, Client(c, CheckStop)).stopped == s.stopped
  {}

  lemma LaterStopped(s: State, t: State)
    requires Later(s, t)
    ensures s.stopped ==> t.stopped
  {}

  // ----- what an export leaves behind

  /** From one point of a run to a later one, what was accepted and what was batched only grow. */
  lemma {:induction false} BatchedGrows(o: Options, t: seq<Action>, t': seq<Action>)
    requires t <= t' && RunFrom(o, Init(), t').Some?
    ensures RunFrom(o, Init(), t).Some?
    ensures var s, s' := RunFrom(o, Init(), t).value, RunFrom(o, Init(), t').value;
      s.accepted <= s'.accepted && |Spans(Batched(s))| <= |Spans(Batched(s'))|
    decreases |t'|
  {
    hide Spans, Batched, Apply;
    if t == t' {
    } else {
      var init, a := t'[..|t'| - 1], t'[|t'| - 1];
      BatchedGrows(o, t, init);
      var m := RunFrom(o, Init(), init).value;
      hide RunFrom;
      assert Reachable(o, m);
      BatchedGrowsStep(o, m, a);
    }
  }

  lemma BatchedGrowsStep(o: Options, s: State, a: Action)
    requires Reachable(o, s) && Enabled(o, s, a)
    ensures s.accepted <= Apply(o, s, a).accepted && |Spans(Batched(s))| <= |Spans(Batched(Apply(o, s, a)))|
  {
    hide Spans, Flatten;
    ReachableInv(o, s);
    hide BoundsInv, PacketInv, WaitingInv, FlushInv1, ConservationInv, QueueInv, TimerInv, MarkerFreeInv, PhaseInv;
    match a
    case Client(c, step) => ClientGrows(o, s, c, step);
    case Worker(work) => WorkerGrows(o, s, work);
    case _ => assert Batched(Apply(o, s, a)) == Batched(s);
  }

  lemma BatchedPrefix(s: State)
    requires ConservationInv(s)
    ensures Spans(Batched(s)) <= Spans(s.accepted)
  {
    hide Spans, Batched;
  }

  lemma AllHanded(o: Options, s: State, s': State)
    requires Inv(o, s) && Inv(o, s') && s'.batch == [] && s'.mutex.Free?
    requires s.accepted <= s'.accepted && |Spans(Batched(s))| <= |Spans(Batched(s'))|
    ensures s'.returned == |s'.exported| && Spans(Batched(s)) <= Spans(Flatten(s'.exported))
  {
    hide Spans, Flatten;
    assert Batched(s') == Flatten(s'.exported) + [] == Flatten(s'.exported);
    assert s'.accepted[..|s.accepted|] == s.accepted;
    SpansPrefix(s'.accepted, |s.accepted|);
    BatchedPrefix(s);
    BatchedPrefix(s');
    ShorterPrefix(Spans(Batched(s)), Spans(Batched(s')), Spans(s'.accepted));
  }

  lemma LaterRefl(s: State)
    ensures Later(s, s)
  {}

  lemma LaterTrans(s: State, t: State, u: State)
    requires Later(s, t) && Later(t, u)
    ensures Later(s, u)
  {}

  lemma LaterAccepted(s: State, t: State)
    requires Later(s, t)
    ensures s.accepted <= t.accepted
  {}

  lemma OthersLeaveCall(o: Options, s: State, a: Action, c: ClientId)
    requires Enabled(o, s, a) && !(a.Client? && a.c == c)
    ensures SameCall(c, s, Apply(o, s, a)) && Later(s, Apply(o, s, a))
  {
    match a
    case Client(d, step) => ClientLater(o, s, d, step);
    case Worker(work) => WorkerLater(o, s, work);
    case _ =>
  }

  lemma ClientLater(o: Options, s: State, c: ClientId, step: ClientStep)
    requires ClientEnabled(o, s, c, step)
    ensures Later(s, Apply(o, s, Client(c, step)))
  {}

  lemma WorkerLater(o: Options, s: State, work: WorkerStep)
    requires WorkerEnabled(s, work)
    ensures Later(s, WorkerEffect(o, s, work)) && WorkerEffect(o, s, work).clients == s.clients
  {
    match work
    case TakeStop =>
    case TakeTick =>
    case Receive =>
    case Append =>
    case Stop =>
    case Tick =>
    case ResetTimer =>
    case Lock =>
    case Exported(_) =>
    case DrainReceive =>
    case DrainAppend =>
    case SeeEmpty =>
    case CloseQueue =>
    case DrainEnd =>
  }

  lemma StillDraining(caller: Caller)
    ensures Running(Exporting(caller)) <==> caller.InRun?
  {}

  lemma ExportedEffect(o: Options, s: State, caller: Caller, ok: bool)
    requires s.worker == Exporting(caller)
    ensures WorkerEffect(o, s, Exported(ok))
         == s.(mutex := Free, batch := [], batchedSize := 0, returned := s.returned + 1, worker := AfterExport(caller))
  {}

  lemma OthersLeaveWorker(o: Options, s: State, a: Action)
    requires Enabled(o, s, a) && !a.Worker?
    ensures Apply(o, s, a).worker == s.worker && Received(Apply(o, s, a)) == Received(s)
  {
    match a
    case Client(c, step) => ClientLeavesWorker(o, s, c, step);
    case _ =>
  }

  lemma ClientLeavesWorker(o: Options, s: State, c: ClientId, step: ClientStep)
    requires ClientEnabled(o, s, c, step)
    ensures var s' := Apply(o, s, Client(c, step)); s'.worker == s.worker && Received(s') == Received(s)
  {}
}
