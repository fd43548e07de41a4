/** The inductive invariant of the batch span processor, one conjunct at a time. */
module SpanInvariants {
  import opened Prelude
  import opened SpanPipeline

  /** The mutex is held exactly while an ExportSpans call is under way, by the goroutine that made it, and the
      batch is that call's argument. */
  ghost predicate MutexInv(s: State) {
    && (s.worker.Exporting? <==> s.mutex.ByWorker?)
    && (forall c :: c in s.clients && s.clients[c].FlushExporting? ==> s.mutex == ByClient(c))
    && (s.mutex.ByClient? ==> s.mutex.c in s.clients && s.clients[s.mutex.c].FlushExporting?)
    && (!s.mutex.Free? ==> s.batch != [] && s.exported != [] && s.exported[|s.exported| - 1] == s.batch)
    && s.returned == |s.exported| - (if s.mutex.Free? then 0 else 1)
  }

  /** Nothing is lost, duplicated or reordered. */
  ghost predicate ConservationInv(s: State) {
    Spans(s.accepted) == Spans(Batched(s)) + Spans(Hand(s.worker)) + Spans(s.queue)
  }

  /** The worker's receive after a failed Stop finds a value. */
  ghost predicate TimerInv(s: State) {
    && (s.worker.Select? || s.worker.Holding? || s.worker.StopTimer? ==> s.armed || s.tick)
    && (s.worker.AwaitTick? ==> s.tick)
    && ((s.worker.ExportLock? || s.worker.Exporting?) && s.worker.caller.InRun? ==> s.armed || s.tick)
  }

  /** The drain loop has seen the closed, empty queue. */
  predicate Finishing(w: WorkerPc) {
    match w
    case ExportReset(caller) => caller.AtEnd?
    case ExportLock(caller) => caller.AtEnd?
    case Exporting(caller) => caller.AtEnd?
    case Ended => true
    case _ => false
  }

  ghost predicate PhaseInv(s: State) {
    && (s.stopped <==> !s.shutdown.NotCalled?)
    && (!Running(s.worker) ==> s.stopped)
    && (s.closed ==> !Running(s.worker))
    && (s.worker.Closing? ==> !s.closed)
    && (Finishing(s.worker) ==> s.closed && s.queue == [])
    && (s.worker.Ended? ==> s.batch == [])
    && (s.shutdown.ExporterDown? ==> s.worker.Ended?)
  }

  ghost predicate MarkerFreeInv(s: State) {
    Running(s.worker) ==>
      && AllData(s.batch) && AllData(Hand(s.worker))
      && (forall i :: 0 <= i < |s.exported| ==> AllData(s.exported[i]))
  }

  ghost predicate AllData(xs: seq<Item>) {
    forall i :: 0 <= i < |xs| ==> xs[i].Data?
  }

  lemma MutexClient(o: Options, s: State, c: ClientId, step: ClientStep)
    requires ClientEnabled(o, s, c, step) && MutexInv(s)
    ensures MutexInv(Apply(o, s, Client(c, step)))
  {}

  lemma MutexLock(o: Options, s: State)
    requires WorkerEnabled(s, Lock) && MutexInv(s)
    ensures MutexInv(WorkerEffect(o, s, Lock))
  {}

  lemma MutexExported(o: Options, s: State, ok: bool)
    requires WorkerEnabled(s, Exported(ok)) && MutexInv(s)
    ensures MutexInv(WorkerEffect(o, s, Exported(ok)))
  {}

  lemma MutexWorker(o: Options, s: State, work: WorkerStep)
    requires WorkerEnabled(s, work) && MutexInv(s)
    ensures MutexInv(WorkerEffect(o, s, work))
  {
    match work
    case Lock => MutexLock(o, s);
    case Exported(ok) => MutexExported(o, s, ok);
    case _ =>
      WorkerFrame(o, s, work);
      hide WorkerEffect;
  }

  lemma MutexStep(o: Options, s: State, a: Action)
    requires Enabled(o, s, a) && MutexInv(s)
    ensures MutexInv(Apply(o, s, a))
  {
    match a
    case Client(c, step) => MutexClient(o, s, c, step);
    case Worker(work) => MutexWorker(o, s, work);
    case _ =>
  }

  lemma TimerClient(o: Options, s: State, c: ClientId, step: ClientStep)
    requires ClientEnabled(o, s, c, step) && TimerInv(s)
    ensures TimerInv(Apply(o, s, Client(c, step)))
  {}

  lemma TimerWorker(o: Options, s: State, work: WorkerStep)
    requires WorkerEnabled(s, work) && TimerInv(s)
    ensures TimerInv(WorkerEffect(o, s, work))
  {
    match work
    case TakeStop =>
    case TakeTick =>
    case Receive =>
    case Append =>
    case Stop =>
    case Tick =>
    case ResetTimer =>
    case Lock =>
    case Exported(_) =>
    case DrainReceive =>
    case DrainAppend =>
    case SeeEmpty =>
    case CloseQueue =>
    case DrainEnd =>
  }

  lemma TimerStep(o: Options, s: State, a: Action)
    requires Enabled(o, s, a) && TimerInv(s)
    ensures TimerInv(Apply(o, s, a))
  {
    match a
    case Client(c, step) => TimerClient(o, s, c, step);
    case Worker(work) => TimerWorker(o, s, work);
    case _ =>
  }

  lemma PhaseClient(o: Options, s: State, c: ClientId, step: ClientStep)
    requires ClientEnabled(o, s, c, step) && MutexInv(s) && PhaseInv(s)
    ensures PhaseInv(Apply(o, s, Client(c, step)))
  {}

  lemma PhaseWorker(o: Options, s: State, work: WorkerStep)
    requires WorkerEnabled(s, work) && MutexInv(s) && PhaseInv(s)
    ensures PhaseInv(WorkerEffect(o, s, work))
  {
    match work
    case TakeStop =>
    case TakeTick =>
    case Receive =>
    case Append =>
    case Stop =>
    case Tick =>
    case ResetTimer =>
    case Lock =>
    case Exported(_) =>
    case DrainReceive =>
    case DrainAppend =>
    case SeeEmpty =>
    case CloseQueue =>
    case DrainEnd =>
  }

  lemma PhaseStep(o: Options, s: State, a: Action)
    requires Enabled(o, s, a) && MutexInv(s) && PhaseInv(s)
    ensures PhaseInv(Apply(o, s, a))
  {
    match a
    case Client(c, step) => PhaseClient(o, s, c, step);
    case Worker(work) => PhaseWorker(o, s, work);
    case _ =>
  }

  lemma MarkerFreeClient(o: Options, s: State, c: ClientId, step: ClientStep)
    requires ClientEnabled(o, s, c, step) && MarkerFreeInv(s)
    ensures MarkerFreeInv(Apply(o, s, Client(c, step)))
  {}

  lemma MarkerFreeAppend(o: Options, s: State)
    requires WorkerEnabled(s, Append) && MarkerFreeInv(s)
    ensures MarkerFreeInv(WorkerEffect(o, s, Append))
  {
    assert Hand(s.worker)[0].Data?;
  }

  lemma MarkerFreeLock(o: Options, s: State)
    requires WorkerEnabled(s, Lock) && MarkerFreeInv(s)
    ensures MarkerFreeInv(WorkerEffect(o, s, Lock))
  {}

  lemma MarkerFreeWorker(o: Options, s: State, work: WorkerStep)
    requires WorkerEnabled(s, work) && MarkerFreeInv(s)
    ensures MarkerFreeInv(WorkerEffect(o, s, work))
  {
    match work
    case TakeStop =>
    case TakeTick =>
    case Receive =>
    case Append => MarkerFreeAppend(o, s);
    case Stop =>
    case Tick =>
    case ResetTimer =>
    case Lock => MarkerFreeLock(o, s);
    case Exported(_) =>
    case DrainReceive =>
    case DrainAppend =>
    case SeeEmpty =>
    case CloseQueue =>
    case DrainEnd =>
  }

  lemma MarkerFreeStep(o: Options, s: State, a: Action)
    requires Enabled(o, s, a) && MarkerFreeInv(s)
    ensures MarkerFreeInv(Apply(o, s, a))
  {
    match a
    case Client(c, step) => MarkerFreeClient(o, s, c, step);
    case Worker(work) => MarkerFreeWorker(o, s, work);
    case _ =>
  }

  // ----- conservation

  lemma BeginExportKeeps(s: State, holder: Holder)
    requires s.mutex.Free? && !holder.Free?
    ensures Batched(BeginExport(s, holder)) == Batched(s)
  {
    FlattenAppend(s.exported, s.batch);
  }

  lemma AppendKeeps(s: State, x: Item)
    requires s.mutex.Free?
    ensures Spans(Flatten(s.exported) + (s.batch + [x])) == Spans(Batched(s)) + Spans([x])
  {
    assert Flatten(s.exported) + (s.batch + [x]) == Batched(s) + [x];
    SpansConcat(Batched(s), [x]);
  }

  ghost predicate SameData(s: State, s': State) {
    && s'.queue == s.queue && s'.accepted == s.accepted && Hand(s'.worker) == Hand(s.worker)
    && s'.batch == s.batch && s'.mutex == s.mutex && s'.exported == s.exported && s'.returned == s.returned
  }

  /** Client steps that leave the queue, the batch and the history alone. */
  predicate QuietClient(step: ClientStep) {
    !step.SendItem? && !step.ClientLock? && !step.ClientExported?
  }

  predicate QuietWorker(work: WorkerStep) {
    || work.TakeStop? || work.TakeTick? || work.Stop? || work.Tick? || work.ResetTimer?
    || work.SeeEmpty? || work.CloseQueue? || work.DrainEnd?
  }

  lemma QuietClientStep(o: Options, s: State, c: ClientId, step: ClientStep)
    requires ClientEnabled(o, s, c, step) && QuietClient(step)
    ensures SameData(s, Apply(o, s, Client(c, step)))
  {}

  lemma QuietWorkerStep(o: Options, s: State, work: WorkerStep)
    requires WorkerEnabled(s, work) && QuietWorker(work)
    ensures SameData(s, WorkerEffect(o, s, work))
  {}

  lemma ConservationSend(s: State, x: Item)
    requires ConservationInv(s)
    ensures ConservationInv(SendEffect(s, x))
  {
    hide Spans, Flatten;
    SpansConcat(s.queue, [x]);
    SpansConcat(s.accepted, [x]);
  }

  lemma FinishExportKeeps(s: State)
    requires !s.mutex.Free?
    ensures Batched(FinishExport(s)) == Batched(s)
  {}

  lemma ConservationClient(o: Options, s: State, c: ClientId, step: ClientStep)
    requires ClientEnabled(o, s, c, step) && MutexInv(s) && ConservationInv(s)
    ensures ConservationInv(Apply(o, s, Client(c, step)))
  {
    match step
    case SendItem => ConservationSend(s, ItemOf(c, s.clients[c].call));
    case ClientLock => BeginExportKeeps(s, ByClient(c));
    case ClientExported(_) => FinishExportKeeps(s);
    case _ => QuietClientStep(o, s, c, step);
  }

  lemma Shift<T>(a: seq<T>, b: seq<T>, c: seq<T>)
    ensures a + [] + (b + c) == a + b + c == (a + b) + [] + c
  {}

  lemma ConservationReceive(s: State, s': State)
    requires !s.worker.Holding? && !s.worker.DrainHolding? && s.queue != [] && ConservationInv(s)
    requires s'.mutex == s.mutex && s'.batch == s.batch && s'.exported == s.exported && s'.accepted == s.accepted
    requires s'.queue == s.queue[1..]
    requires Hand(s'.worker) == [s.queue[0]] || (s.queue[0].Marker? && Hand(s'.worker) == [])
    ensures ConservationInv(s')
  {
    TakeHead(s.queue);
    SpansEmpty();
    hide Spans, Flatten;
    assert Batched(s') == Batched(s);
    Shift(Spans(Batched(s)), Spans([s.queue[0]]), Spans(s'.queue));
  }

  lemma ConservationAppend(s: State, s': State, x: Item)
    requires s.mutex.Free? && Hand(s.worker) == [x] && ConservationInv(s)
    requires s'.mutex.Free? && s'.batch == s.batch + [x] && Hand(s'.worker) == []
    requires s'.exported == s.exported && s'.queue == s.queue && s'.accepted == s.accepted
    ensures ConservationInv(s')
  {
    AppendKeeps(s, x);
    SpansEmpty();
    hide Spans, Flatten;
    Shift(Spans(Batched(s)), Spans([x]), Spans(s.queue));
  }

  lemma ConservationWorker(o: Options, s: State, work: WorkerStep)
    requires WorkerEnabled(s, work) && MutexInv(s) && ConservationInv(s)
    ensures ConservationInv(WorkerEffect(o, s, work))
  {
    hide Spans, Flatten;
    match work
    case Receive => ConservationReceive(s, ReceiveEffect(s));
    case DrainReceive => ConservationReceive(s, WorkerEffect(o, s, DrainReceive));
    case Append => ConservationAppend(s, AppendEffect(o, s, s.worker.item), s.worker.item);
    case DrainAppend => ConservationAppend(s, DrainAppendEffect(o, s, s.worker.item), s.worker.item);
    case Lock => BeginExportKeeps(s, ByWorker);
    case Exported(_) => FinishExportKeeps(s);
    case _ => QuietWorkerStep(o, s, work);
  }

  lemma ConservationStep(o: Options, s: State, a: Action)
    requires Enabled(o, s, a) && MutexInv(s) && ConservationInv(s)
    ensures ConservationInv(Apply(o, s, a))
  {
    hide Spans, Flatten;
    match a
    case Client(c, step) => ConservationClient(o, s, c, step);
    case Worker(work) => ConservationWorker(o, s, work);
    case _ => assert Batched(Apply(o, s, a)) == Batched(s);
  }

  lemma SpansEmpty()
    ensures Spans([]) == []
  {}

  lemma TakeHead(xs: seq<Item>)
    requires xs != []
    ensures Spans(xs) == Spans([xs[0]]) + Spans(xs[1..])
    ensures xs[0].Marker? ==> Spans(xs) == Spans(xs[1..])
  {
    assert [xs[0]] + xs[1..] == xs;
    SpansConcat([xs[0]], xs[1..]);
  }

  // ----- flushing

  /** The queue is the unreceived tail of what was accepted. */
  ghost predicate QueueInv(s: State) {
    TailOf(s.queue, s.accepted)
  }

  ghost predicate TailOf(tail: seq<Item>, xs: seq<Item>) {
    && |tail| <= |xs|
    && (forall i :: 0 <= i < |tail| ==> tail[i] == xs[|xs| - |tail| + i])
  }

  function HandedCount(s: State): (r: nat) {
    |Spans(Flatten(s.exported))|
  }

  function DoneCount(s: State): (r: nat)
    requires s.returned <= |s.exported|
  {
    |Spans(Flatten(s.exported[..s.returned]))|
  }

  /** Spans accepted before position `pos`. */
  function Before(s: State, pos: nat): (r: nat)
    requires pos <= |s.accepted|
  {
    |Spans(s.accepted[..pos])|
  }

  /** A marker is closed only after every span accepted before it left the queue; an export that follows leaves
      all of them in calls that have returned. */
  ghost predicate FlushInv1(s: State, c: ClientId)
    requires c in s.clients && s.returned <= |s.exported|
  {
    var pc := s.clients[c];
    match MarkerPos(pc)
    case None => c !in s.flushed
    case Some(pos) =>
      && pos < |s.accepted| && s.accepted[pos] == Marker(c)
      && (c in s.flushed ==> Before(s, pos) <= |Spans(Batched(s))|)
      && (pc.FlushReset? || pc.FlushLock? ==> c in s.flushed)
      && (pc.FlushExporting? ==> Before(s, pos) <= HandedCount(s))
      && (pc.Finished? || pc.Returned? ==> Before(s, pos) <= DoneCount(s))
  }

  ghost predicate FlushInv(s: State) {
    && s.returned <= |s.exported|
    && s.flushed <= s.clients.Keys
    && (forall c :: c in s.clients ==> FlushInv1(s, c))
    && MarkersOwned(s)
  }

  lemma QueueSend(s: State, x: Item)
    requires QueueInv(s)
    ensures QueueInv(SendEffect(s, x))
  {}

  lemma QueueTake(s: State, s': State)
    requires QueueInv(s) && s.queue != [] && s'.accepted == s.accepted && s'.queue == s.queue[1..]
    ensures QueueInv(s')
  {}

  /** What no worker step touches. */
  lemma WorkerFrame(o: Options, s: State, work: WorkerStep)
    requires WorkerEnabled(s, work)
    ensures var s' := WorkerEffect(o, s, work);
      && s'.clients == s.clients && s'.accepted == s.accepted
      && (!work.Receive? ==> s'.flushed == s.flushed)
      && (!work.Lock? && !work.Exported? ==>
            s'.mutex == s.mutex && s'.exported == s.exported && s'.returned == s.returned
            && (s.mutex.Free? || s'.batch == s.batch) && !s.worker.Exporting? && !s'.worker.Exporting?)
      && (if work.Receive? || work.DrainReceive? then s.queue != [] && s'.queue == s.queue[1..]
          else s'.queue == s.queue)
  {
    match work
    case TakeStop =>
    case TakeTick =>
    case Receive =>
    case Append =>
    case Stop =>
    case Tick =>
    case ResetTimer =>
    case Lock =>
    case Exported(_) =>
    case DrainReceive =>
    case DrainAppend =>
    case SeeEmpty =>
    case CloseQueue =>
    case DrainEnd =>
  }

  lemma QueueStep(o: Options, s: State, a: Action)
    requires Enabled(o, s, a) && QueueInv(s)
    ensures QueueInv(Apply(o, s, a))
  {
    match a
    case Client(c, step) => QueueClient(o, s, c, step);
    case Worker(work) => QueueWorker(o, s, work);
    case _ =>
  }

  lemma QueueClient(o: Options, s: State, c: ClientId, step: ClientStep)
    requires ClientEnabled(o, s, c, step) && QueueInv(s)
    ensures QueueInv(Apply(o, s, Client(c, step)))
  {
    if step.SendItem? {
      QueueSend(s, ItemOf(c, s.clients[c].call));
    }
  }

  lemma QueueWorker(o: Options, s: State, work: WorkerStep)
    requires WorkerEnabled(s, work) && QueueInv(s)
    ensures QueueInv(WorkerEffect(o, s, work))
  {
    WorkerFrame(o, s, work);
    hide WorkerEffect;
    if work.Receive? || work.DrainReceive? {
      QueueTake(s, WorkerEffect(o, s, work));
    }
  }

  lemma {:induction false} FlattenMonotone(xss: seq<seq<Item>>, n: nat, m: nat)
    requires n <= m <= |xss|
    ensures Spans(Flatten(xss[..n])) <= Spans(Flatten(xss[..m]))
  {
    assert xss[..m] == xss[..n] + xss[n..m];
    FlattenConcat(xss[..n], xss[n..m]);
    SpansConcat(Flatten(xss[..n]), Flatten(xss[n..m]));
  }

  /** What was accepted only grows at its end, and the three counts never fall. */
  ghost predicate Grows(s: State, s': State) {
    && s.returned <= |s.exported| && s'.returned <= |s'.exported|
    && s.accepted <= s'.accepted
    && |Spans(Batched(s))| <= |Spans(Batched(s'))|
    && HandedCount(s) <= HandedCount(s') && DoneCount(s) <= DoneCount(s')
  }

  lemma FinishGrows(s: State)
    requires MutexInv(s) && !s.mutex.Free?
    ensures Grows(s, FinishExport(s)) && FinishExport(s).returned == |s.exported|
  {
    FinishExportKeeps(s);
    FlattenMonotone(s.exported, s.returned, s.returned + 1);
  }

  lemma SameDataGrows(s: State, s': State)
    requires SameData(s, s') && s.returned <= |s.exported|
    ensures Grows(s, s')
  {
    assert Batched(s') == Batched(s);
  }

  lemma ClientGrows(o: Options, s: State, c: ClientId, step: ClientStep)
    requires ClientEnabled(o, s, c, step) && MutexInv(s)
    ensures Grows(s, Apply(o, s, Client(c, step)))
  {
    hide Spans, Flatten;
    var s' := Apply(o, s, Client(c, step));
    match step
    case SendItem => assert Batched(s') == Batched(s);
    case ClientLock =>
      if s.batch != [] {
        ExportGrows(s, ByClient(c));
      }
    case ClientExported(_) => FinishGrows(s);
    case _ => QuietClientStep(o, s, c, step); SameDataGrows(s, s');
  }

  lemma WorkerGrows(o: Options, s: State, work: WorkerStep)
    requires WorkerEnabled(s, work) && MutexInv(s)
    ensures Grows(s, WorkerEffect(o, s, work))
  {
    hide Spans, Flatten;
    var s' := WorkerEffect(o, s, work);
    match work
    case Append => AppendKeeps(s, s.worker.item);
    case DrainAppend => AppendKeeps(s, s.worker.item);
    case Lock =>
      if s.batch != [] {
        ExportGrows(s, ByWorker);
      }
    case Exported(_) => FinishGrows(s);
    case Receive => assert Batched(s') == Batched(s);
    case DrainReceive => assert Batched(s') == Batched(s);
    case _ => QuietWorkerStep(o, s, work); SameDataGrows(s, s');
  }

  lemma ExportGrows(s: State, holder: Holder)
    requires s.mutex.Free? && !holder.Free? && s.returned == |s.exported|
    ensures var s' := BeginExport(s, holder);
      && Batched(s') == Batched(s) && HandedCount(s') == |Spans(Batched(s))| && HandedCount(s) <= HandedCount(s')
      && DoneCount(s') == DoneCount(s)
  {
    BeginExportKeeps(s, holder);
    SpansConcat(Flatten(s.exported), s.batch);
    assert (s.exported + [s.batch])[..s.returned] == s.exported[..s.returned];
  }

  /** A client that takes no step keeps its guarantees. */
  lemma FlushFrame(s: State, s': State, c: ClientId)
    requires Grows(s, s') && c in s.clients && FlushInv1(s, c)
    requires c in s'.clients && s'.clients[c] == s.clients[c] && (c in s'.flushed <==> c in s.flushed)
    ensures FlushInv1(s', c)
  {
    if MarkerPos(s.clients[c]).Some? {
      var pos := MarkerPos(s.clients[c]).value;
      assert s'.accepted[..pos] == s.accepted[..pos];
    }
  }

  /** The head of the queue sits in `accepted` right behind everything received before it; when the worker
      receives a marker, all spans before it are in the batch or were handed to the exporter. */
  lemma MarkerAtHead(s: State)
    requires ConservationInv(s) && QueueInv(s) && s.worker.Select? && s.queue != []
    ensures var pos := |s.accepted| - |s.queue|;
      s.accepted[pos] == s.queue[0] && Before(s, pos) == |Spans(Batched(s))|
  {
    var pos := |s.accepted| - |s.queue|;
    assert s.accepted[pos..] == s.queue;
    assert s.accepted == s.accepted[..pos] + s.accepted[pos..];
    SpansConcat(s.accepted[..pos], s.accepted[pos..]);
  }

  lemma FlushOwnLock(s: State, s': State, c: ClientId)
    requires MutexInv(s) && s.mutex.Free? && s.returned <= |s.exported|
    requires c in s.clients && s.clients[c].FlushLock? && FlushInv1(s, c)
    requires s'.accepted == s.accepted && s'.flushed == s.flushed && s'.returned == s.returned && c in s'.clients
    requires
      if s.batch == [] then
        && s'.exported == s.exported && s'.mutex.Free? && s'.batch == []
        && s'.clients[c] == Finished(s.clients[c].marker, s.clients[c].waiting, true)
      else
        && s'.exported == s.exported + [s.batch] && s'.mutex.ByClient?
        && s'.clients[c] == FlushExporting(s.clients[c].marker, s.clients[c].waiting)
    ensures s'.returned <= |s'.exported| && FlushInv1(s', c)
  {
    assert s.exported[..s.returned] == s.exported;
    FlattenAppend(s.exported, s.batch);
    hide Spans, Flatten;
    if s.batch == [] {
      assert Batched(s) == Flatten(s.exported);
    } else {
      assert Batched(s) == Flatten(s'.exported);
      assert Batched(s') == Flatten(s'.exported) + [] == Flatten(s'.exported);
      assert s'.exported[..s'.returned] == s.exported;
    }
  }

  lemma FlushOwnExported(s: State, s': State, c: ClientId)
    requires MutexInv(s) && s.mutex == ByClient(c) && s.returned <= |s.exported|
    requires c in s.clients && s.clients[c].FlushExporting? && FlushInv1(s, c)
    requires s'.accepted == s.accepted && s'.flushed == s.flushed && s'.returned == s.returned + 1 && c in s'.clients
    requires s'.exported == s.exported && s'.mutex.Free? && s'.batch == []
    requires s'.clients[c].Finished? && s'.clients[c].marker == s.clients[c].marker
    ensures s'.returned <= |s'.exported| && FlushInv1(s', c)
  {
    hide Spans, Flatten;
    assert s'.exported[..s'.returned] == s.exported;
    assert Batched(s') == Flatten(s.exported) + [] == Batched(s);
  }

  /** A client that moves without touching the batch, the queue or the history. */
  lemma FlushOwnQuiet(o: Options, s: State, c: ClientId, step: ClientStep)
    requires ClientEnabled(o, s, c, step) && QuietClient(step) && s.returned <= |s.exported|
    requires if c in s.clients then FlushInv1(s, c) else c !in s.flushed
    ensures var s' := Apply(o, s, Client(c, step)); s'.returned <= |s'.exported| && FlushInv1(s', c)
  {
    hide Spans, Flatten;
    QuietClientStep(o, s, c, step);
    var s' := Apply(o, s, Client(c, step));
    assert Batched(s') == Batched(s);
    match step
    case StartOnEnd(_) =>
    case StartForceFlush =>
    case CheckStop =>
    case Drop =>
    case Cancel =>
    case SeeFlushed =>
    case ClientReset =>
    case Deliver =>
  }

  lemma FlushOwn(o: Options, s: State, c: ClientId, step: ClientStep)
    requires ClientEnabled(o, s, c, step) && MutexInv(s) && FlushInv(s)
    ensures var s' := Apply(o, s, Client(c, step)); s'.returned <= |s'.exported| && FlushInv1(s', c)
  {
    hide Spans, Flatten;
    var s' := Apply(o, s, Client(c, step));
    assert c in s.clients ==> FlushInv1(s, c);
    match step
    case ClientLock => FlushOwnLock(s, s', c);
    case ClientExported(_) => FlushOwnExported(s, s', c);
    case SendItem => assert c !in s.flushed;
    case _ => FlushOwnQuiet(o, s, c, step);
  }

  lemma FlushReceive(s: State, s': State, c: ClientId)
    requires s.queue != [] && |s.queue| <= |s.accepted| && s.accepted[|s.accepted| - |s.queue|] == s.queue[0]
    requires Before(s, |s.accepted| - |s.queue|) == |Spans(Batched(s))| && s.returned <= |s.exported| && MarkersOwned(s)
    requires c in s.clients && FlushInv1(s, c)
    requires s'.clients == s.clients && s'.accepted == s.accepted
    requires s'.exported == s.exported && s'.returned == s.returned
    requires s'.batch == s.batch && s'.mutex == s.mutex
    requires s'.flushed == if s.queue[0].Marker? then s.flushed + {s.queue[0].owner} else s.flushed
    ensures FlushInv1(s', c)
  {
    hide Spans, Flatten;
    assert Batched(s') == Batched(s);
  }

  lemma FlushClientStep(o: Options, s: State, c: ClientId, step: ClientStep)
    requires ClientEnabled(o, s, c, step) && MutexInv(s) && FlushInv(s)
    ensures FlushInv(Apply(o, s, Client(c, step)))
  {
    hide Spans, Flatten;
    var s' := Apply(o, s, Client(c, step));
    ClientGrows(o, s, c, step);
    FlushOwn(o, s, c, step);
    forall d | d in s.clients && d != c
      ensures FlushInv1(s', d)
    {
      FlushFrame(s, s', d);
    }
    MarkersClient(o, s, c, step);
  }

  lemma FlushFrameAll(s: State, s': State)
    requires Grows(s, s') && FlushInv(s)
    requires s'.clients == s.clients && s'.flushed == s.flushed && s'.accepted == s.accepted
    ensures FlushInv(s')
  {
    hide Spans, Flatten;
    forall c | c in s.clients
      ensures FlushInv1(s', c)
    {
      FlushFrame(s, s', c);
    }
  }

  lemma FlushWorkerStep(o: Options, s: State, work: WorkerStep)
    requires WorkerEnabled(s, work) && MutexInv(s) && FlushInv(s) && !work.Receive?
    ensures FlushInv(WorkerEffect(o, s, work))
  {
    WorkerGrows(o, s, work);
    WorkerFrame(o, s, work);
    FlushFrameAll(s, WorkerEffect(o, s, work)) by {
      hide Spans, Flatten, WorkerEffect, Grows, FlushInv;
    }
  }

  lemma FlushReceiveAll(s: State, s': State)
    requires s.queue != [] && |s.queue| <= |s.accepted| && s.accepted[|s.accepted| - |s.queue|] == s.queue[0]
    requires Before(s, |s.accepted| - |s.queue|) == |Spans(Batched(s))| && FlushInv(s)
    requires s'.clients == s.clients && s'.accepted == s.accepted
    requires s'.exported == s.exported && s'.returned == s.returned
    requires s'.batch == s.batch && s'.mutex == s.mutex
    requires s'.flushed == if s.queue[0].Marker? then s.flushed + {s.queue[0].owner} else s.flushed
    ensures FlushInv(s')
  {
    hide Spans, Flatten, Batched, Before, HandedCount, DoneCount;
    forall c | c in s.clients
      ensures FlushInv1(s', c)
    {
      FlushReceive(s, s', c);
    }
  }

  lemma FlushReceiveStep(s: State)
    requires WorkerEnabled(s, Receive) && ConservationInv(s) && QueueInv(s) && FlushInv(s)
    ensures FlushInv(ReceiveEffect(s))
  {
    MarkerAtHead(s);
    hide FlushInv, ConservationInv, Spans, Flatten, Batched, Before;
    FlushReceiveAll(s, ReceiveEffect(s));
  }

  lemma FlushStep(o: Options, s: State, a: Action)
    requires Enabled(o, s, a) && MutexInv(s) && ConservationInv(s) && QueueInv(s) && FlushInv(s)
    ensures FlushInv(Apply(o, s, a))
  {
    match a
    case Client(c, step) => FlushClientStep(o, s, c, step);
    case Worker(work) =>
      if work.Receive? {
        FlushReceiveStep(s);
      } else {
        FlushWorkerStep(o, s, work);
      }
    case _ =>
      SameDataGrows(s, Apply(o, s, a));
      FlushFrameAll(s, Apply(o, s, a));
  }

  ghost predicate MarkersOwned(s: State) {
    forall i :: 0 <= i < |s.accepted| && s.accepted[i].Marker? ==>
      s.accepted[i].owner in s.clients && MarkerPos(s.clients[s.accepted[i].owner]) == Some(i)
  }

  lemma MarkerPosStays(o: Options, s: State, c: ClientId, step: ClientStep)
    requires ClientEnabled(o, s, c, step) && c in s.clients
    ensures !step.SendItem? || s.closed ==> MarkerPos(ClientNext(o, s, c, step)) == MarkerPos(s.clients[c])
  {}

  lemma MarkersClient(o: Options, s: State, c: ClientId, step: ClientStep)
    requires ClientEnabled(o, s, c, step) && MarkersOwned(s)
    ensures MarkersOwned(Apply(o, s, Client(c, step)))
  {
    if c in s.clients {
      MarkerPosStays(o, s, c, step);
    }
  }
}
