/** The batch span processor as a step relation over shared state.

    Every action below is one atomic step of one goroutine: a channel operation, a timer call, a mutex
    acquisition, one critical section, or the start or the return of a call to the exporter. Any number of
    OnEnd and ForceFlush calls run beside the single worker, the runtime timer and Shutdown, and a run is any
    sequence of enabled actions. The timer has a one-slot channel that Stop and Reset do not drain. */
module SpanPipeline {
  import opened Prelude

  type ClientId = nat

  datatype Options = Options(maxQueueSize: nat, maxExportBatchSize: nat, maxPacketSize: int, block: bool)

  datatype Span = Span(id: nat, size: nat)

  /** What travels through the queue: a span, or the marker a ForceFlush call sends. */
  datatype Item = Data(span: Span) | Marker(owner: ClientId)

  datatype Call = End(span: Span) | Flush

  /** Where an OnEnd or ForceFlush call stands. `marker` is the position in `accepted` of the marker this call
      sent, `waiting` says that ForceFlush itself has not returned with its context's error. */
  datatype ClientPc =
    | Check(call: Call)
    | Send(call: Call)
    | EndDone(ok: bool)
    | WaitFlushed(pos: nat)
    | FlushReset(marker: Option<nat>, waiting: bool)
    | FlushLock(marker: Option<nat>, waiting: bool)
    | FlushExporting(marker: Option<nat>, waiting: bool)
    | Finished(marker: Option<nat>, waiting: bool, ok: bool)
    | Returned(marker: Option<nat>, ok: bool)
    | Cancelled(pos: nat)

  /** Which loop called exportSpans. */
  datatype Caller = InRun | InDrain | AtEnd

  datatype WorkerPc =
    | Select
    | Holding(item: Item)
    | StopTimer
    | AwaitTick
    | ExportReset(caller: Caller)
    | ExportLock(caller: Caller)
    | Exporting(caller: Caller)
    | Draining
    | Closing
    | DrainHolding(item: Item)
    | Ended

  datatype Holder = Free | ByWorker | ByClient(c: ClientId)

  datatype ShutdownPc = NotCalled | AwaitWorker | ExporterDown

  datatype State = State(
    queue: seq<Item>, closed: bool, stopped: bool,
    batch: seq<Item>, batchedSize: int, mutex: Holder,
    armed: bool, tick: bool,
    dropped: nat,
    worker: WorkerPc, clients: map<ClientId, ClientPc>, flushed: set<ClientId>, shutdown: ShutdownPc,
    // history: queue sends that succeeded, batches handed to ExportSpans, how many of these calls returned,
    // and how many started while processQueue was running
    accepted: seq<Item>, exported: seq<seq<Item>>, returned: nat, runExports: nat)

  function Init(): (r: State) {
    State([], false, false, [], 0, Free, true, false, 0, Select, map[], {}, NotCalled, [], [], 0, 0)
  }

  /** One step of the OnEnd or ForceFlush call `c`. */
  datatype ClientStep =
    | StartOnEnd(span: Span)
    | StartForceFlush
    | CheckStop
    | SendItem
    | Drop
    | Cancel
    | SeeFlushed
    | ClientReset
    | ClientLock
    | ClientExported(ok: bool)
    | Deliver

  datatype WorkerStep =
    | TakeStop
    | TakeTick
    | Receive
    | Append
    | Stop
    | Tick
    | ResetTimer
    | Lock
    | Exported(ok: bool)
    | DrainReceive
    | DrainAppend
    | SeeEmpty
    | CloseQueue
    | DrainEnd

  datatype Action =
    | Client(c: ClientId, step: ClientStep)
    | Worker(work: WorkerStep)
    | Fire
    | Shutdown
    | ShutdownExporter

  function SizeOf(x: Item): (r: nat) {
    match x case Data(span) => span.size case Marker(_) => 0
  }

  function TotalSize(xs: seq<Item>): (r: nat) {
    if xs == [] then 0 else TotalSize(xs[..|xs| - 1]) + SizeOf(xs[|xs| - 1])
  }

  predicate ShouldExport(o: Options, batch: seq<Item>, batchedSize: int) {
    |batch| == o.maxExportBatchSize || batchedSize >= o.maxPacketSize
  }

  function ItemOf(c: ClientId, call: Call): (r: Item) {
    match call case End(span) => Data(span) case Flush => Marker(c)
  }

  /** What a call does once enqueueBlockOnQueueFull has returned false. */
  function NotEnqueued(call: Call): (r: ClientPc) {
    match call case End(_) => EndDone(false) case Flush => FlushReset(None, true)
  }

  predicate ClientEnabled(o: Options, s: State, c: ClientId, step: ClientStep) {
    if step.StartOnEnd? || step.StartForceFlush? then c !in s.clients
    else
      && c in s.clients
      && var pc := s.clients[c];
        match step
        case CheckStop => pc.Check?
        case SendItem => pc.Send? && (s.closed || |s.queue| < o.maxQueueSize)
        case Drop => pc.Send? && pc.call.End? && !o.block && !s.closed && |s.queue| >= o.maxQueueSize
        case Cancel => Cancellable(pc)
        case SeeFlushed => pc.WaitFlushed? && c in s.flushed
        case ClientReset => pc.FlushReset?
        case ClientLock => pc.FlushLock? && s.mutex.Free?
        case ClientExported(_) => pc.FlushExporting?
        case Deliver => pc.Finished? && pc.waiting
        case _ => false
  }

  /** ForceFlush is blocked in a select that also watches its context. */
  predicate Cancellable(pc: ClientPc) {
    match pc
    case Send(call) => call.Flush?
    case WaitFlushed(_) => true
    case FlushReset(_, waiting) => waiting
    case FlushLock(_, waiting) => waiting
    case FlushExporting(_, waiting) => waiting
    case Finished(_, waiting, _) => waiting
    case _ => false
  }

  predicate WorkerEnabled(s: State, work: WorkerStep) {
    match work
    case TakeStop => s.worker.Select? && s.stopped
    case TakeTick => s.worker.Select? && s.tick
    case Receive => s.worker.Select? && s.queue != []
    case Append => s.worker.Holding? && s.mutex.Free?
    case Stop => s.worker.StopTimer?
    case Tick => s.worker.AwaitTick? && s.tick
    case ResetTimer => s.worker.ExportReset?
    case Lock => s.worker.ExportLock? && s.mutex.Free?
    case Exported(_) => s.worker.Exporting?
    case DrainReceive => s.worker.Draining? && s.queue != []
    case DrainAppend => s.worker.DrainHolding? && s.mutex.Free?
    case SeeEmpty => s.worker.Draining? && s.queue == [] && !s.closed
    case CloseQueue => s.worker.Closing?
    case DrainEnd => s.worker.Draining? && s.queue == [] && s.closed
  }

  predicate Enabled(o: Options, s: State, a: Action) {
    match a
    case Client(c, step) => ClientEnabled(o, s, c, step)
    case Worker(work) => WorkerEnabled(s, work)
    case Fire => s.armed
    case Shutdown => s.shutdown.NotCalled?
    case ShutdownExporter => s.shutdown.AwaitWorker? && s.worker.Ended?
  }

  function AfterCancel(pc: ClientPc): (r: ClientPc)
    requires Cancellable(pc)
  {
    match pc
    case Send(_) => FlushReset(None, true)
    case WaitFlushed(pos) => Cancelled(pos)
    case FlushReset(m, _) => FlushReset(m, false)
    case FlushLock(m, _) => FlushLock(m, false)
    case FlushExporting(m, _) => FlushExporting(m, false)
    case Finished(m, _, ok) => Finished(m, false, ok)
  }

  /** Where a client stands after its step. A send on the closed queue panics and is recovered. */
  function ClientNext(o: Options, s: State, c: ClientId, step: ClientStep): (r: ClientPc)
    requires ClientEnabled(o, s, c, step)
  {
    match step
    case StartOnEnd(span) => Check(End(span))
    case StartForceFlush => Check(Flush)
    case CheckStop => if s.stopped then NotEnqueued(s.clients[c].call) else Send(s.clients[c].call)
    case SendItem =>
      if s.closed then NotEnqueued(s.clients[c].call)
      else if s.clients[c].call.End? then EndDone(true)
      else WaitFlushed(|s.accepted|)
    case Drop => EndDone(false)
    case Cancel => AfterCancel(s.clients[c])
    case SeeFlushed => FlushReset(Some(s.clients[c].pos), true)
    case ClientReset => FlushLock(s.clients[c].marker, s.clients[c].waiting)
    case ClientLock =>
      if s.batch == [] then Finished(s.clients[c].marker, s.clients[c].waiting, true)
      else FlushExporting(s.clients[c].marker, s.clients[c].waiting)
    case ClientExported(ok) => Finished(s.clients[c].marker, s.clients[c].waiting, ok)
    case Deliver => Returned(s.clients[c].marker, s.clients[c].ok)
  }

  function SendEffect(s: State, x: Item): (r: State) {
    if s.closed then s else s.(queue := s.queue + [x], accepted := s.accepted + [x])
  }

  /** What a client's step does to the shared state. */
  function ClientEffect(o: Options, s: State, c: ClientId, step: ClientStep): (r: State)
    requires ClientEnabled(o, s, c, step)
  {
    match step
    case SendItem => SendEffect(s, ItemOf(c, s.clients[c].call))
    case Drop => s.(dropped := s.dropped + 1)
    case ClientReset => s.(armed := true)
    case ClientLock => if s.batch == [] then s else BeginExport(s, ByClient(c))
    case ClientExported(_) => FinishExport(s)
    case _ => s
  }

  function AfterExport(caller: Caller): (r: WorkerPc) {
    match caller case InRun => Select case InDrain => Draining case AtEnd => Ended
  }

  /** processQueue has not returned. */
  predicate Running(w: WorkerPc) {
    match w
    case Select => true
    case Holding(_) => true
    case StopTimer => true
    case AwaitTick => true
    case ExportReset(caller) => caller.InRun?
    case ExportLock(caller) => caller.InRun?
    case Exporting(caller) => caller.InRun?
    case _ => false
  }

  /** The exporter is called with the current batch. */
  function BeginExport(s: State, holder: Holder): (r: State) {
    s.(mutex := holder, exported := s.exported + [s.batch],
       runExports := if Running(s.worker) then |s.exported| + 1 else s.runExports)
  }

  function FinishExport(s: State): (r: State) {
    s.(mutex := Free, batch := [], batchedSize := 0, returned := s.returned + 1)
  }

  function ReceiveEffect(s: State): (r: State)
    requires s.queue != []
  {
    match s.queue[0]
    case Marker(owner) => s.(queue := s.queue[1..], flushed := s.flushed + {owner})
    case Data(_) => s.(queue := s.queue[1..], worker := Holding(s.queue[0]))
  }

  function AppendEffect(o: Options, s: State, x: Item): (r: State) {
    var batch := s.batch + [x];
    var batchedSize := s.batchedSize + SizeOf(x);
    s.(batch := batch, batchedSize := batchedSize,
       worker := if ShouldExport(o, batch, batchedSize) then StopTimer else Select)
  }

  /** The drain loop looks only at the number of items and leaves batchedSize alone. */
  function DrainAppendEffect(o: Options, s: State, x: Item): (r: State) {
    var batch := s.batch + [x];
    s.(batch := batch, worker := if |batch| == o.maxExportBatchSize then ExportReset(InDrain) else Draining)
  }

  function WorkerEffect(o: Options, s: State, work: WorkerStep): (r: State)
    requires WorkerEnabled(s, work)
  {
    match work
    case TakeStop => s.(armed := false, worker := Draining)
    case TakeTick => s.(tick := false, worker := ExportReset(InRun))
    case Receive => ReceiveEffect(s)
    case Append => AppendEffect(o, s, s.worker.item)
    case Stop => s.(armed := false, worker := if s.armed then ExportReset(InRun) else AwaitTick)
    case Tick => s.(tick := false, worker := ExportReset(InRun))
    case ResetTimer => s.(armed := true, worker := ExportLock(s.worker.caller))
    case Lock =>
      if s.batch == [] then s.(worker := AfterExport(s.worker.caller))
      else BeginExport(s, ByWorker).(worker := Exporting(s.worker.caller))
    case Exported(_) => FinishExport(s).(worker := AfterExport(s.worker.caller))
    case DrainReceive => s.(queue := s.queue[1..], worker := DrainHolding(s.queue[0]))
    case DrainAppend => DrainAppendEffect(o, s, s.worker.item)
    case SeeEmpty => s.(worker := Closing)
    case CloseQueue => s.(closed := true, worker := Draining)
    case DrainEnd => s.(worker := ExportReset(AtEnd))
  }

  function Apply(o: Options, s: State, a: Action): (r: State)
    requires Enabled(o, s, a)
  {
    match a
    case Client(c, step) => ClientEffect(o, s, c, step).(clients := s.clients[c := ClientNext(o, s, c, step)])
    case Worker(work) => WorkerEffect(o, s, work)
    case Fire => s.(armed := false, tick := true)
    case Shutdown => s.(stopped := true, shutdown := AwaitWorker)
    case ShutdownExporter => s.(shutdown := ExporterDown)
  }

  /** The state after a sequence of actions from a given state, if each was enabled in its turn. */
  function RunFrom(o: Options, s: State, acts: seq<Action>): (r: Option<State>) {
    if acts == [] then Some(s)
    else
      match RunFrom(o, s, acts[..|acts| - 1])
      case None => None
      case Some(m) =>
        var a := acts[|acts| - 1];
        if Enabled(o, m, a) then Some(Apply(o, m, a)) else None
  }

  lemma RunExtend(o: Options, s: State, acts: seq<Action>, a: Action)
    requires RunFrom(o, s, acts).Some? && Enabled(o, RunFrom(o, s, acts).value, a)
    ensures RunFrom(o, s, acts + [a]) == Some(Apply(o, RunFrom(o, s, acts).value, a))
  {
    assert (acts + [a])[..|acts|] == acts;
  }

  ghost predicate Reachable(o: Options, s: State) {
    exists acts :: RunFrom(o, Init(), acts) == Some(s)
  }

  // ----- what the invariants speak about

  /** The spans of a sequence of items, in order. */
  function Spans(xs: seq<Item>): (r: seq<Span>) {
    if xs == [] then []
    else
      var last := xs[|xs| - 1];
      Spans(xs[..|xs| - 1]) + if last.Data? then [last.span] else []
  }

  lemma {:induction false} SpansConcat(xs: seq<Item>, ys: seq<Item>)
    ensures Spans(xs + ys) == Spans(xs) + Spans(ys)
    decreases |ys|
  {
    if ys == [] {
      assert xs + ys == xs;
    } else {
      var init := ys[..|ys| - 1];
      SpansConcat(xs, init);
      assert (xs + ys)[..|xs + ys| - 1] == xs + init;
    }
  }

  /** The part of the batch that no ExportSpans call has been given yet. */
  function Pending(s: State): (r: seq<Item>) {
    if s.mutex.Free? then s.batch else []
  }

  function Hand(w: WorkerPc): (r: seq<Item>) {
    if w.Holding? || w.DrainHolding? then [w.item] else []
  }

  /** Everything that left the queue, was kept, and is not in the worker's hand. */
  function Batched(s: State): (r: seq<Item>) {
    Flatten(s.exported) + Pending(s)
  }

  function MarkerPos(pc: ClientPc): (r: Option<nat>) {
    match pc
    case Check(_) => None
    case Send(_) => None
    case EndDone(_) => None
    case WaitFlushed(pos) => Some(pos)
    case Cancelled(pos) => Some(pos)
    case FlushReset(m, _) => m
    case FlushLock(m, _) => m
    case FlushExporting(m, _) => m
    case Finished(m, _, _) => m
    case Returned(m, _) => m
  }
}
