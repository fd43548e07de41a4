/** What the batch span processor guarantees in every reachable state and over every run. */
module SpanTheorems {
  import opened Prelude
  import opened SpanPipeline
  import opened SpanInvariants

  // ----- bounds on the queue and on batches

  /** The worker may still append to the batch. */
  predicate MayAppend(w: WorkerPc) {
    w.Select? || w.Holding? || w.Draining? || w.DrainHolding? || w.Closing?
  }

  ghost predicate BoundsInv(o: Options, s: State) {
    && |s.queue| <= o.maxQueueSize
    && (forall i :: 0 <= i < |s.exported| ==> s.exported[i] != [])
    && (o.maxExportBatchSize >= 1 ==>
          && |s.batch| <= o.maxExportBatchSize
          && (MayAppend(s.worker) ==> |s.batch| < o.maxExportBatchSize)
          && (forall i :: 0 <= i < |s.exported| ==> |s.exported[i]| <= o.maxExportBatchSize))
  }

  /** Without its last item the batch is below the packet limit. */
  ghost predicate Fits(o: Options, batch: seq<Item>) {
    batch != [] ==> TotalSize(batch[..|batch| - 1]) < o.maxPacketSize
  }

  ghost predicate PacketInv(o: Options, s: State) {
    && s.runExports <= |s.exported|
    && (Running(s.worker) ==> s.runExports == |s.exported| && s.batchedSize == TotalSize(s.batch))
    && (o.maxPacketSize > 0 ==>
          && (forall i :: 0 <= i < s.runExports ==> Fits(o, s.exported[i]))
          && (Running(s.worker) ==> Fits(o, s.batch))
          && (s.worker.Select? || s.worker.Holding? ==> s.batchedSize < o.maxPacketSize))
  }

  lemma BoundsClient(o: Options, s: State, c: ClientId, step: ClientStep)
    requires ClientEnabled(o, s, c, step) && BoundsInv(o, s)
    ensures BoundsInv(o, Apply(o, s, Client(c, step)))
  {}

  lemma BoundsWorker(o: Options, s: State, work: WorkerStep)
    requires WorkerEnabled(s, work) && BoundsInv(o, s)
    ensures BoundsInv(o, WorkerEffect(o, s, work))
  {
    match work
    case TakeStop =>
    case TakeTick =>
    case Receive =>
    case Append =>
    case Stop =>
    case Tick =>
    case ResetTimer =>
    case Lock =>
    case Exported(_) =>
    case DrainReceive =>
    case DrainAppend =>
    case SeeEmpty =>
    case CloseQueue =>
    case DrainEnd =>
  }

  lemma PacketClient(o: Options, s: State, c: ClientId, step: ClientStep)
    requires ClientEnabled(o, s, c, step) && PacketInv(o, s)
    ensures PacketInv(o, Apply(o, s, Client(c, step)))
  {}

  lemma PacketAppend(o: Options, s: State)
    requires WorkerEnabled(s, Append) && PacketInv(o, s)
    ensures PacketInv(o, WorkerEffect(o, s, Append))
  {
    assert (s.batch + [s.worker.item])[..|s.batch|] == s.batch;
  }

  lemma PacketLock(o: Options, s: State)
    requires WorkerEnabled(s, Lock) && PacketInv(o, s)
    ensures PacketInv(o, WorkerEffect(o, s, Lock))
  {}

  lemma PacketWorker(o: Options, s: State, work: WorkerStep)
    requires WorkerEnabled(s, work) && PacketInv(o, s)
    ensures PacketInv(o, WorkerEffect(o, s, work))
  {
    match work
    case TakeStop =>
    case TakeTick =>
    case Receive =>
    case Append => PacketAppend(o, s);
    case Stop =>
    case Tick =>
    case ResetTimer =>
    case Lock => PacketLock(o, s);
    case Exported(_) =>
    case DrainReceive =>
    case DrainAppend =>
    case SeeEmpty =>
    case CloseQueue =>
    case DrainEnd =>
  }

  // ----- unflushed markers

  /** While processQueue runs, a marker it has not closed is still in the queue. */
  ghost predicate WaitingInv(s: State) {
    Running(s.worker) ==>
      forall c :: c in s.clients && MarkerPos(s.clients[c]).Some? && c !in s.flushed ==>
        MarkerPos(s.clients[c]).value >= |s.accepted| - |s.queue|
  }

  lemma WaitingClient(o: Options, s: State, c: ClientId, step: ClientStep)
    requires ClientEnabled(o, s, c, step) && WaitingInv(s)
    ensures WaitingInv(Apply(o, s, Client(c, step)))
  {
    if c in s.clients {
      MarkerPosStays(o, s, c, step);
    }
  }

  lemma WaitingReceive(s: State)
    requires WorkerEnabled(s, Receive) && QueueInv(s) && FlushInv(s) && WaitingInv(s)
    ensures WaitingInv(ReceiveEffect(s))
  {
    var s' := ReceiveEffect(s);
    var pos := |s.accepted| - |s.queue|;
    assert s.accepted[pos] == s.queue[0];
    hide Spans, Flatten, Before, Batched, HandedCount, DoneCount;
    forall c | c in s'.clients && MarkerPos(s'.clients[c]).Some? && c !in s'.flushed
      ensures MarkerPos(s'.clients[c]).value >= |s'.accepted| - |s'.queue|
    {
      assert FlushInv1(s, c);
    }
  }

  lemma WaitingWorker(o: Options, s: State, work: WorkerStep)
    requires WorkerEnabled(s, work) && QueueInv(s) && FlushInv(s) && WaitingInv(s)
    ensures WaitingInv(WorkerEffect(o, s, work))
  {
    WorkerFrame(o, s, work);
    hide FlushInv, QueueInv;
    match work
    case Receive => WaitingReceive(s);
    case TakeStop =>
    case TakeTick =>
    case Append =>
    case Stop =>
    case Tick =>
    case ResetTimer =>
    case Lock =>
    case Exported(_) =>
    case DrainReceive =>
    case DrainAppend =>
    case SeeEmpty =>
    case CloseQueue =>
    case DrainEnd =>
  }

  // ----- every reachable state

  ghost predicate Inv(o: Options, s: State) {
    && MutexInv(s) && ConservationInv(s) && TimerInv(s) && PhaseInv(s) && MarkerFreeInv(s)
    && QueueInv(s) && FlushInv(s) && BoundsInv(o, s) && PacketInv(o, s) && WaitingInv(s)
  }

  lemma InvInit(o: Options)
    ensures Inv(o, Init())
  {
    assert Flatten(Init().exported) == [];
  }

  lemma InvClient(o: Options, s: State, c: ClientId, step: ClientStep)
    requires ClientEnabled(o, s, c, step) && Inv(o, s)
    ensures Inv(o, Apply(o, s, Client(c, step)))
  {
    var a := Client(c, step);
    MutexStep(o, s, a);
    ConservationStep(o, s, a);
    TimerStep(o, s, a);
    PhaseStep(o, s, a);
    MarkerFreeStep(o, s, a);
    QueueStep(o, s, a);
    FlushStep(o, s, a);
    BoundsClient(o, s, c, step);
    PacketClient(o, s, c, step);
    WaitingClient(o, s, c, step);
  }

  lemma InvWorker(o: Options, s: State, work: WorkerStep)
    requires WorkerEnabled(s, work) && Inv(o, s)
    ensures Inv(o, Apply(o, s, Worker(work)))
  {
    var a := Worker(work);
    MutexStep(o, s, a);
    ConservationStep(o, s, a);
    TimerStep(o, s, a);
    PhaseStep(o, s, a);
    MarkerFreeStep(o, s, a);
    QueueStep(o, s, a);
    FlushStep(o, s, a);
    BoundsWorker(o, s, work);
    PacketWorker(o, s, work);
    WaitingWorker(o, s, work);
  }

  lemma InvEnvironment(o: Options, s: State, a: Action)
    requires Enabled(o, s, a) && !a.Client? && !a.Worker? && Inv(o, s)
    ensures Inv(o, Apply(o, s, a))
  {
    MutexStep(o, s, a);
    ConservationStep(o, s, a);
    FlushStep(o, s, a);
    QueueStep(o, s, a);
  }

  lemma InvStep(o: Options, s: State, a: Action)
    requires Enabled(o, s, a) && Inv(o, s)
    ensures Inv(o, Apply(o, s, a))
  {
    hide Inv;
    match a
    case Client(c, step) => InvClient(o, s, c, step);
    case Worker(work) => InvWorker(o, s, work);
    case _ => InvEnvironment(o, s, a);
  }

  lemma {:induction false} InvRun(o: Options, s: State, acts: seq<Action>)
    requires Inv(o, s) && RunFrom(o, s, acts).Some?
    ensures Inv(o, RunFrom(o, s, acts).value)
    decreases |acts|
  {
    hide Inv;
    if acts != [] {
      var init := acts[..|acts| - 1];
      InvRun(o, s, init);
      InvStep(o, RunFrom(o, s, init).value, acts[|acts| - 1]);
    }
  }

  lemma ReachableInv(o: Options, s: State)
    requires Reachable(o, s)
    ensures Inv(o, s)
  {
    InvInit(o);
    var acts :| RunFrom(o, Init(), acts) == Some(s);
    InvRun(o, Init(), acts);
  }
}
