/** The promises of the batch span processor, as statements about reachable states and whole runs. */
module SpanGuarantees {
  import opened Prelude
  import opened SpanPipeline
  import opened SpanInvariants
  import opened SpanTheorems

  /** Under every interleaving the accepted spans are, in order, those of the batches handed to the exporter,
      then the current batch, the worker's hand and the queue. */
  lemma NothingLost(o: Options, s: State)
    requires Reachable(o, s)
    ensures Spans(s.accepted)
         == Spans(Flatten(s.exported)) + Spans(Pending(s)) + Spans(Hand(s.worker)) + Spans(s.queue)
    ensures Spans(Flatten(s.exported)) <= Spans(s.accepted)
    ensures Running(s.worker) ==> forall i :: 0 <= i < |s.exported| ==> AllData(s.exported[i])
  {
    ReachableInv(o, s);
    SpansConcat(Flatten(s.exported), Pending(s));
  }

  /** Once the export that ends a ForceFlush call is over, every span accepted before the call's marker belongs
      to an ExportSpans call that has returned, whoever made it. */
  lemma ForceFlushDelivers(o: Options, s: State, c: ClientId)
    requires Reachable(o, s) && c in s.clients
    requires (s.clients[c].Finished? || s.clients[c].Returned?) && s.clients[c].marker.Some?
    ensures var pos := s.clients[c].marker.value;
      && pos < |s.accepted| && s.accepted[pos] == Marker(c) && s.returned <= |s.exported|
      && Spans(s.accepted[..pos]) <= Spans(Flatten(s.exported[..s.returned]))
  {
    ReachableInv(o, s);
    NothingLost(o, s);
    assert FlushInv1(s, c);
    hide Spans, Flatten, Inv;
    var pos := s.clients[c].marker.value;
    assert s.exported[..|s.exported|] == s.exported;
    FlattenMonotone(s.exported, s.returned, |s.exported|);
    SpansPrefix(s.accepted, pos);
    ShorterPrefix(Spans(s.accepted[..pos]), Spans(Flatten(s.exported[..s.returned])), Spans(s.accepted));
  }

  lemma SpansPrefix(xs: seq<Item>, n: nat)
    requires n <= |xs|
    ensures Spans(xs[..n]) <= Spans(xs)
  {
    assert xs == xs[..n] + xs[n..];
    SpansConcat(xs[..n], xs[n..]);
  }

  lemma ShorterPrefix<T>(a: seq<T>, b: seq<T>, whole: seq<T>)
    requires a <= whole && b <= whole && |a| <= |b|
    ensures a <= b
  {}

  /** A flush marker is closed in exactly one way: processQueue receives it. */
  lemma MarkerClosedOnlyByProcessQueue(o: Options, s: State, a: Action, c: ClientId)
    requires Enabled(o, s, a) && c !in s.flushed
    ensures c in Apply(o, s, a).flushed <==> a == Worker(Receive) && s.queue[0] == Marker(c)
  {
    match a
    case Worker(work) => WorkerFrame(o, s, work);
    case _ =>
  }

  /** While processQueue runs, the marker of a waiting ForceFlush call that is not closed is still queued. */
  lemma WaitingMarkerQueued(o: Options, s: State, c: ClientId)
    requires Reachable(o, s) && Running(s.worker)
    requires c in s.clients && s.clients[c].WaitFlushed? && c !in s.flushed
    ensures Marker(c) in s.queue
  {
    ReachableInv(o, s);
    assert FlushInv1(s, c);
    TailHolds(s.accepted, s.queue, s.clients[c].pos);
  }

  lemma TailHolds(xs: seq<Item>, tail: seq<Item>, pos: nat)
    requires TailOf(tail, xs) && |xs| - |tail| <= pos < |xs|
    ensures xs[pos] in tail
  {
    assert tail[pos - (|xs| - |tail|)] == xs[pos];
  }

  /** The drain loop does not recognise markers: a call still waiting when processQueue has returned waits until
      its own context ends it. */
  lemma {:induction false} DrainNeverReleases(o: Options, s: State, acts: seq<Action>, c: ClientId)
    requires !Running(s.worker) && c in s.clients && s.clients[c].WaitFlushed? && c !in s.flushed
    requires RunFrom(o, s, acts).Some?
    ensures var s' := RunFrom(o, s, acts).value;
      && !Running(s'.worker) && c !in s'.flushed && c in s'.clients
      && (s'.clients[c] == s.clients[c] || s'.clients[c].Cancelled?)
    decreases |acts|
  {
    if acts != [] {
      var init, a := acts[..|acts| - 1], acts[|acts| - 1];
      DrainNeverReleases(o, s, init, c);
      NotReleased(o, RunFrom(o, s, init).value, a, c);
    }
  }

  lemma NotReleased(o: Options, s: State, a: Action, c: ClientId)
    requires Enabled(o, s, a) && !Running(s.worker) && c !in s.flushed
    requires c in s.clients && (s.clients[c].WaitFlushed? || s.clients[c].Cancelled?)
    ensures var s' := Apply(o, s, a);
      && !Running(s'.worker) && c !in s'.flushed && c in s'.clients
      && (s'.clients[c] == s.clients[c] || s'.clients[c].Cancelled?)
  {
    match a
    case Worker(work) =>
      WorkerFrame(o, s, work);
      StaysDraining(o, s, work);
    case _ =>
  }

  lemma StaysDraining(o: Options, s: State, work: WorkerStep)
    requires WorkerEnabled(s, work) && !Running(s.worker)
    ensures !work.Receive? && !Running(WorkerEffect(o, s, work).worker)
  {}

  // ----- timer and batches

  /** The receive after a Stop that found the timer expired never blocks, whenever ForceFlush resets the timer;
      and at the head of the select a tick is there or still to come. */
  lemma TimerNeverBlocks(o: Options, s: State)
    requires Reachable(o, s)
    ensures s.worker.AwaitTick? ==> WorkerEnabled(s, Tick)
    ensures s.worker.Select? ==> WorkerEnabled(s, TakeTick) || Enabled(o, s, Fire)
  {
    ReachableInv(o, s);
  }

  /** A batch never grows past MaxExportBatchSize, no exported batch is empty, and one exported while
      processQueue runs is, without its last span, below MaxPacketSize. */
  lemma BatchBounds(o: Options, s: State)
    requires Reachable(o, s)
    ensures forall i :: 0 <= i < |s.exported| ==> s.exported[i] != []
    ensures |s.queue| <= o.maxQueueSize
    ensures o.maxExportBatchSize >= 1 ==> |s.batch| <= o.maxExportBatchSize
    ensures o.maxExportBatchSize >= 1 ==> forall i :: 0 <= i < |s.exported| ==> |s.exported[i]| <= o.maxExportBatchSize
    ensures o.maxPacketSize > 0 && Running(s.worker) ==> forall i :: 0 <= i < |s.exported| ==> Fits(o, s.exported[i])
  {
    ReachableInv(o, s);
  }

  // ----- what the timer remembers

  predicate SetsTimer(a: Action) {
    match a
    case Fire => true
    case Worker(work) => work.ResetTimer? || work.Stop? || work.TakeStop?
    case Client(_, step) => step.ClientReset?
    case _ => false
  }

  predicate SetsTick(a: Action) {
    match a
    case Fire => true
    case Worker(work) => work.Tick? || work.TakeTick?
    case _ => false
  }

  /** The last action of the run that the predicate picks. */
  function LastOf(acts: seq<Action>, picks: Action -> bool): (r: Option<Action>) {
    if acts == [] then None
    else if picks(acts[|acts| - 1]) then Some(acts[|acts| - 1])
    else LastOf(acts[..|acts| - 1], picks)
  }

  /** In every run the timer is armed exactly if it was reset after it last fired or was stopped, or has done neither,
      and a tick waits in its channel exactly if none was received since it last fired: a stop leaves the tick there. */
  lemma {:induction false} TimerHistory(o: Options, acts: seq<Action>)
    requires RunFrom(o, Init(), acts).Some?
    ensures var s, last := RunFrom(o, Init(), acts).value, LastOf(acts, SetsTimer);
      && (s.armed <==> last.None? || last.value == Worker(ResetTimer)
                       || (last.value.Client? && last.value.step.ClientReset?))
      && (s.tick <==> LastOf(acts, SetsTick) == Some(Fire))
    decreases |acts|
  {
    if acts != [] {
      var init, a := acts[..|acts| - 1], acts[|acts| - 1];
      TimerHistory(o, init);
      TimerSet(o, RunFrom(o, Init(), init).value, a);
      hide Apply, Enabled;
    }
  }

  lemma TimerSet(o: Options, s: State, a: Action)
    requires Enabled(o, s, a)
    ensures var s' := Apply(o, s, a);
      && (s'.armed <==> if SetsTimer(a) then a == Worker(ResetTimer) || a.Client? else s.armed)
      && (s'.tick <==> if SetsTick(a) then a == Fire else s.tick)
  {
    match a
    case Client(c, step) => TimerClient(o, s, c, step);
    case Worker(work) => TimerWorker(o, s, work);
    case _ =>
  }

  lemma TimerClient(o: Options, s: State, c: ClientId, step: ClientStep)
    requires ClientEnabled(o, s, c, step)
    ensures var s' := Apply(o, s, Client(c, step)); s'.armed == (step.ClientReset? || s.armed) && s'.tick == s.tick
  {}

  lemma TimerWorker(o: Options, s: State, work: WorkerStep)
    requires WorkerEnabled(s, work)
    ensures var s' := WorkerEffect(o, s, work);
      && s'.armed == (if SetsTimer(Worker(work)) then work.ResetTimer? else s.armed)
      && s'.tick == (s.tick && !work.Tick? && !work.TakeTick?)
  {
    match work
    case Append =>
    case Receive =>
    case Lock =>
    case DrainAppend =>
    case _ =>
  }

  // ----- what is dropped

  /** How many OnEnd calls found the queue full and did not wait. */
  function Drops(acts: seq<Action>): (n: nat) {
    if acts == [] then 0
    else
      var a := acts[|acts| - 1];
      Drops(acts[..|acts| - 1]) + if a.Client? && a.step.Drop? then 1 else 0
  }

  /** Over every run the dropped counter counts these calls, and each of them met a queue that was open and full. */
  lemma {:induction false} DroppedCounted(o: Options, s: State, acts: seq<Action>)
    requires RunFrom(o, s, acts).Some?
    ensures RunFrom(o, s, acts).value.dropped == s.dropped + Drops(acts)
    ensures forall i :: 0 <= i < |acts| && acts[i].Client? && acts[i].step.Drop? ==>
      && RunFrom(o, s, acts[..i]).Some?
      && var m := RunFrom(o, s, acts[..i]).value; |m.queue| >= o.maxQueueSize && !m.closed && !o.block
    decreases |acts|
  {
    if acts != [] {
      var init, a := acts[..|acts| - 1], acts[|acts| - 1];
      DroppedCounted(o, s, init);
      var m := RunFrom(o, s, init).value;
      DroppedStep(o, m, a);
      hide Apply, Enabled, RunFrom;
      forall i | 0 <= i < |acts|
        ensures acts[..i] == if i < |init| then init[..i] else init
      {}
    }
  }

  lemma DroppedStep(o: Options, s: State, a: Action)
    requires Enabled(o, s, a)
    ensures Apply(o, s, a).dropped == s.dropped + if a.Client? && a.step.Drop? then 1 else 0
    ensures a.Client? && a.step.Drop? ==> |s.queue| >= o.maxQueueSize && !s.closed && !o.block
  {
    match a
    case Client(c, step) => DroppedClient(o, s, c, step);
    case Worker(work) => DroppedWorker(o, s, work);
    case _ =>
  }

  lemma DroppedClient(o: Options, s: State, c: ClientId, step: ClientStep)
    requires ClientEnabled(o, s, c, step)
    ensures Apply(o, s, Client(c, step)).dropped == s.dropped + if step.Drop? then 1 else 0
    ensures step.Drop? ==> |s.queue| >= o.maxQueueSize && !s.closed && !o.block
  {}

  lemma DroppedWorker(o: Options, s: State, work: WorkerStep)
    requires WorkerEnabled(s, work)
    ensures WorkerEffect(o, s, work).dropped == s.dropped
  {
    match work
    case Append =>
    case Receive =>
    case Lock =>
    case DrainAppend =>
    case _ =>
  }

  // ----- shutdown

  /** When the worker has ended, the queue is closed and empty, the batch is empty, and every accepted span was
      handed over once, in calls that have all returned. */
  lemma WorkerEndComplete(o: Options, s: State)
    requires Reachable(o, s) && s.worker.Ended?
    ensures s.closed && s.queue == [] && s.batch == [] && s.mutex.Free? && s.returned == |s.exported|
    ensures Spans(s.accepted) == Spans(Flatten(s.exported))
  {
    ReachableInv(o, s);
    NothingLost(o, s);
  }

  lemma EndedStep(o: Options, s: State, a: Action)
    requires Enabled(o, s, a) && s.worker.Ended? && s.closed && s.batch == [] && s.mutex.Free?
    requires forall c :: c in s.clients ==> !s.clients[c].FlushExporting?
    ensures var s' := Apply(o, s, a);
      && s'.worker.Ended? && s'.exported == s.exported && s'.returned == s.returned && s'.accepted == s.accepted
  {
    match a
    case Client(c, step) =>
    case _ =>
  }

  /** After the exporter's Shutdown no ExportSpans call is under way and none ever starts, whatever ForceFlush and
      OnEnd calls are in flight or come later; nothing more is accepted either. */
  lemma {:induction false} NoExportAfterShutdown(o: Options, s: State, acts: seq<Action>)
    requires Reachable(o, s) && s.shutdown.ExporterDown?
    requires RunFrom(o, s, acts).Some?
    ensures s.mutex.Free?
    ensures var s' := RunFrom(o, s, acts).value;
      s'.worker.Ended? && s'.exported == s.exported && s'.returned == |s'.exported| && s'.accepted == s.accepted
    decreases |acts|
  {
    ReachableInv(o, s);
    hide BoundsInv, PacketInv, WaitingInv, FlushInv, ConservationInv;
    if acts != [] {
      var init := acts[..|acts| - 1];
      NoExportAfterShutdown(o, s, init);
      InvRun(o, s, init);
      EndedStep(o, RunFrom(o, s, init).value, acts[|acts| - 1]);
    }
  }

  /** The drain loop closes the queue only once, although senders may fill it between its look and the close. */
  lemma ClosedOnce(o: Options, s: State)
    requires Reachable(o, s) && WorkerEnabled(s, CloseQueue)
    ensures !s.closed
  {
    ReachableInv(o, s);
  }

  /** A step of the worker, or the return of the ExportSpans call a ForceFlush is making. */
  predicate Advances(a: Action) {
    a.Worker? || (a.Client? && a.step.ClientExported?)
  }

  /** Once Shutdown was called the worker is never stuck: it, or the export it waits for, can always move. */
  lemma NoDeadlock(o: Options, s: State)
    requires Reachable(o, s) && !s.worker.Ended? && (s.worker.Select? ==> s.stopped)
    ensures exists a :: Enabled(o, s, a) && Advances(a)
  {
    ReachableInv(o, s);
    if s.mutex.ByClient? {
      assert Enabled(o, s, Client(s.mutex.c, ClientExported(true)));
    } else {
      var work :=
        match s.worker
        case Select => TakeStop
        case Holding(_) => Append
        case StopTimer => Stop
        case AwaitTick => Tick
        case ExportReset(_) => ResetTimer
        case ExportLock(_) => Lock
        case Exporting(_) => Exported(true)
        case Draining => if s.queue != [] then DrainReceive else if s.closed then DrainEnd else SeeEmpty
        case Closing => CloseQueue
        case DrainHolding(_) => DrainAppend
        case Ended => Stop;
      assert Enabled(o, s, Worker(work));
    }
  }

  // ----- the drain loop terminates

  /** Calls that passed the stop check and have yet to send. */
  function InFlight(s: State): (r: set<ClientId>) {
    set c | c in s.clients && s.clients[c].Send?
  }

  function Rank(s: State): (r: nat) {
    match s.worker
    case DrainHolding(_) => 10
    case ExportReset(caller) => if caller.AtEnd? then 3 else 9
    case ExportLock(caller) => if caller.AtEnd? then 2 else 8
    case Exporting(caller) => if caller.AtEnd? then 1 else 7
    case Draining => if s.closed then 4 else 6
    case Closing => 5
    case _ => 0
  }

  /** A bound on the steps the worker has left once it drains. */
  function StepsLeft(s: State): (r: nat) {
    10 * (|s.queue| + |InFlight(s)|) + Rank(s)
  }

  lemma {:induction false} SubsetSize<T>(a: set<T>, b: set<T>)
    requires a <= b
    ensures |a| <= |b|
  {
    assert b == a + (b - a);
  }

  lemma StepsLeftWorker(o: Options, s: State, work: WorkerStep)
    requires WorkerEnabled(s, work) && !Running(s.worker)
    ensures StepsLeft(WorkerEffect(o, s, work)) < StepsLeft(s)
  {
    WorkerFrame(o, s, work);
    assert InFlight(WorkerEffect(o, s, work)) == InFlight(s);
  }

  lemma InFlightClient(o: Options, s: State, c: ClientId, step: ClientStep)
    requires ClientEnabled(o, s, c, step) && s.stopped
    ensures var s' := Apply(o, s, Client(c, step));
      && s'.worker == s.worker && s'.closed == s.closed
      && InFlight(s') <= InFlight(s) && (step.SendItem? ==> InFlight(s') == InFlight(s) - {c} && c in InFlight(s))
      && |s'.queue| <= |s.queue| + (if step.SendItem? then 1 else 0)
  {
    match step
    case StartOnEnd(_) =>
    case StartForceFlush =>
    case CheckStop =>
    case SendItem =>
    case Drop =>
    case Cancel =>
    case SeeFlushed =>
    case ClientReset =>
    case ClientLock =>
    case ClientExported(_) =>
    case Deliver =>
  }

  lemma StepsLeftClient(o: Options, s: State, c: ClientId, step: ClientStep)
    requires ClientEnabled(o, s, c, step) && s.stopped
    ensures StepsLeft(Apply(o, s, Client(c, step))) <= StepsLeft(s)
  {
    InFlightClient(o, s, c, step);
    hide Apply, InFlight;
    var s' := Apply(o, s, Client(c, step));
    if !step.SendItem? {
      SubsetSize(InFlight(s'), InFlight(s));
    }
  }

  lemma StepsLeftStep(o: Options, s: State, a: Action)
    requires Enabled(o, s, a) && !Running(s.worker) && s.stopped
    ensures !Running(Apply(o, s, a).worker)
    ensures StepsLeft(Apply(o, s, a)) + (if a.Worker? then 1 else 0) <= StepsLeft(s)
  {
    match a
    case Client(c, step) =>
      StepsLeftClient(o, s, c, step);
      InFlightClient(o, s, c, step);
    case Worker(work) =>
      StepsLeftWorker(o, s, work);
      StaysDraining(o, s, work);
    case _ => assert InFlight(Apply(o, s, a)) == InFlight(s);
  }

  function WorkerSteps(acts: seq<Action>): (r: nat) {
    if acts == [] then 0
    else WorkerSteps(acts[..|acts| - 1]) + if acts[|acts| - 1].Worker? then 1 else 0
  }

  /** From the moment processQueue returns, the worker takes at most ten steps per item that is queued or about
      to be sent, plus ten, however the other goroutines interleave. */
  lemma {:induction false} DrainTerminates(o: Options, s: State, acts: seq<Action>)
    requires Reachable(o, s) && !Running(s.worker) && RunFrom(o, s, acts).Some?
    ensures var s' := RunFrom(o, s, acts).value;
      !Running(s'.worker) && WorkerSteps(acts) + StepsLeft(s') <= StepsLeft(s) <= 10 * (|s.queue| + |InFlight(s)|) + 10
    decreases |acts|
  {
    ReachableInv(o, s);
    hide MutexInv, BoundsInv, PacketInv, WaitingInv, FlushInv, ConservationInv, QueueInv, TimerInv, MarkerFreeInv;
    hide Apply;
    if acts != [] {
      var init, a := acts[..|acts| - 1], acts[|acts| - 1];
      DrainTerminates(o, s, init);
      InvRun(o, s, init);
      StepsLeftStep(o, RunFrom(o, s, init).value, a);
    }
  }

  // ----- a run that falls short

  lemma Extend(o: Options, acts: seq<Action>, s: State, a: Action) returns (acts': seq<Action>, s': State)
    requires RunFrom(o, Init(), acts) == Some(s) && Enabled(o, s, a)
    ensures s' == Apply(o, s, a) && RunFrom(o, Init(), acts') == Some(s')
  {
    acts', s' := acts + [a], Apply(o, s, a);
    RunExtend(o, Init(), acts, a);
  }

  /** A ForceFlush call sends its marker, then Shutdown stops processQueue before it receives the marker. */
  lemma StoppedBeforeMarker(o: Options) returns (acts: seq<Action>, s: State)
    requires o.maxQueueSize >= 1 && o.maxExportBatchSize >= 2
    ensures RunFrom(o, Init(), acts) == Some(s)
    ensures s == State([], false, true, [Marker(0)], 0, Free, false, false, 0, Draining, map[0 := WaitFlushed(0)], {},
                       AwaitWorker, [Marker(0)], [], 0, 0)
  {
    acts, s := Extend(o, [], Init(), Client(0, StartForceFlush));
    acts, s := Extend(o, acts, s, Client(0, CheckStop));
    acts, s := Extend(o, acts, s, Client(0, SendItem));
    acts, s := Extend(o, acts, s, Shutdown);
    acts, s := Extend(o, acts, s, Worker(TakeStop));
    acts, s := Extend(o, acts, s, Worker(DrainReceive));
    acts, s := Extend(o, acts, s, Worker(DrainAppend));
    assert s.clients == map[0 := WaitFlushed(0)];
  }

  /** A ForceFlush call caught by Shutdown: the worker ends, the marker itself was exported as if it were a span,
      and the call is still waiting. */
  lemma ForceFlushCanHang() returns (o: Options, s: State)
    ensures Reachable(o, s) && s.worker.Ended? && s.exported == [[Marker(0)]]
    ensures s.clients == map[0 := WaitFlushed(0)] && s.flushed == {}
  {
    o := Options(2048, 512, 2097152, false);
    var acts, s1 := StoppedBeforeMarker(o);
    acts, s1 := Extend(o, acts, s1, Worker(SeeEmpty));
    acts, s1 := Extend(o, acts, s1, Worker(CloseQueue));
    acts, s1 := Extend(o, acts, s1, Worker(DrainEnd));
    acts, s1 := Extend(o, acts, s1, Worker(ResetTimer));
    acts, s1 := Extend(o, acts, s1, Worker(Lock));
    acts, s := Extend(o, acts, s1, Worker(Exported(true)));
  }
}
