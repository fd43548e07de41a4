/** The async exporter's worker pool: batch arrays that travel from a pool to an ExportLogs call, through a bounded
    channel to one of several workers, and back. ExportLogs calls, workers and Shutdown's closing of the channel
    interleave freely. */
module AsyncBatches {
  import opened Prelude

  type ArrayId = nat
  type CallId = nat

  datatype Log = Log(id: nat)

  datatype Array = Array(cap: nat, cells: seq<Log>)

  datatype Slice = Slice(arr: ArrayId, len: nat)

  /** An ExportLogs call: entered, holding an empty slice of `arr`, holding the filled slice. */
  datatype CallPc =
    | Entered(logs: seq<Log>)
    | Holding(arr: ArrayId, logs: seq<Log>)
    | Filled(slice: Slice, logs: seq<Log>)

  /** A worker; `batch` is the position of its batch in the order of channel sends. */
  datatype WorkerPc = Idle | Exporting(slice: Slice, batch: nat) | Counted(slice: Slice) | Done

  datatype Owner = InPool | ByCall(c: CallId) | InChannel(batch: nat) | ByWorker(w: nat) | Garbage

  const MAX_EXPORT_BATCH_SIZE := 512

  datatype State = State(
    heap: map<ArrayId, Array>,
    pool: set<ArrayId>,
    channel: seq<Slice>, closed: bool,
    calls: map<CallId, CallPc>, panicked: set<CallId>,
    workers: seq<WorkerPc>,
    success: nat, failed: nat,
    // history: batches sent, which worker received which, what was read from the slices that were exported, whether
    // each export succeeded, and who has each array
    accepted: seq<seq<Log>>, takenBy: seq<nat>, exports: map<nat, seq<Log>>, verdicts: map<nat, bool>,
    owner: map<ArrayId, Owner>)

  function Init(concurrency: nat): (r: State) {
    State(map[], {}, [], false, map[], {}, seq(concurrency, _ => Idle), 0, 0, [], [], map[], map[], map[])
  }

  datatype Action =
    | ExportLogs(c: CallId, logs: seq<Log>)
    | GetFromPool(c: CallId, arr: ArrayId)
    | GetNew(c: CallId, arr: ArrayId)
    | AppendInPlace(c: CallId)
    | AppendGrow(c: CallId, arr: ArrayId, cap: nat)
    | Send(c: CallId)
    | Receive(w: nat)
    | Export(w: nat, ok: bool)
    | Put(w: nat)
    | Leave(w: nat)
    | PoolDrops(arr: ArrayId)
    | Close

  /** append writes in place only within the array's capacity. */
  predicate Enabled(s: State, a: Action) {
    match a
    case ExportLogs(c, _) => c !in s.calls && c !in s.panicked
    case GetFromPool(c, arr) => c in s.calls && s.calls[c].Entered? && arr in s.pool && arr in s.heap
    case GetNew(c, arr) => c in s.calls && s.calls[c].Entered? && arr !in s.heap
    case AppendInPlace(c) => c in s.calls && s.calls[c].Holding? && s.calls[c].arr in s.heap
      && |s.calls[c].logs| <= s.heap[s.calls[c].arr].cap
    case AppendGrow(c, arr, cap) => c in s.calls && s.calls[c].Holding? && s.calls[c].arr in s.heap
      && s.heap[s.calls[c].arr].cap < |s.calls[c].logs| <= cap && arr !in s.heap
    case Send(c) => c in s.calls && s.calls[c].Filled? && (s.closed || |s.channel| < 2 * |s.workers|)
    case Receive(w) => w < |s.workers| && s.workers[w].Idle? && s.channel != []
    case Export(w, _) => w < |s.workers| && s.workers[w].Exporting? && s.workers[w].slice.arr in s.heap
      && s.workers[w].slice.len <= |s.heap[s.workers[w].slice.arr].cells|
    case Put(w) => w < |s.workers| && s.workers[w].Counted?
    case Leave(w) => w < |s.workers| && s.workers[w].Idle? && s.channel == [] && s.closed
    case PoolDrops(arr) => arr in s.pool
    case Close => !s.closed
  }

  /** append(arr[:0], logs...): the first cells are overwritten, the others keep what was there. */
  function Overwrite(cells: seq<Log>, logs: seq<Log>): (r: seq<Log>) {
    if |logs| <= |cells| then logs + cells[|logs|..] else logs
  }

  function Content(heap: map<ArrayId, Array>, sl: Slice): (r: seq<Log>)
    requires sl.arr in heap && sl.len <= |heap[sl.arr].cells|
  {
    heap[sl.arr].cells[..sl.len]
  }

  function Apply(s: State, a: Action): (r: State)
    requires Enabled(s, a)
  {
    match a
    case ExportLogs(c, logs) => s.(calls := s.calls[c := Entered(logs)])
    case GetFromPool(c, arr) =>
      s.(pool := s.pool - {arr}, calls := s.calls[c := Holding(arr, s.calls[c].logs)],
         owner := s.owner[arr := ByCall(c)])
    case GetNew(c, arr) =>
      s.(heap := s.heap[arr := Array(MAX_EXPORT_BATCH_SIZE, [])],
         calls := s.calls[c := Holding(arr, s.calls[c].logs)], owner := s.owner[arr := ByCall(c)])
    case AppendInPlace(c) =>
      var Holding(arr, logs) := s.calls[c];
      s.(heap := s.heap[arr := Array(s.heap[arr].cap, Overwrite(s.heap[arr].cells, logs))],
         calls := s.calls[c := Filled(Slice(arr, |logs|), logs)])
    case AppendGrow(c, arr, cap) =>
      var Holding(small, logs) := s.calls[c];
      s.(heap := s.heap[arr := Array(cap, logs)], calls := s.calls[c := Filled(Slice(arr, |logs|), logs)],
         owner := s.owner[small := Garbage][arr := ByCall(c)])
    case Send(c) =>
      var Filled(slice, logs) := s.calls[c];
      if s.closed then
        s.(calls := s.calls - {c}, panicked := s.panicked + {c}, owner := s.owner[slice.arr := Garbage])
      else
        s.(channel := s.channel + [slice], calls := s.calls - {c}, accepted := s.accepted + [logs],
           owner := s.owner[slice.arr := InChannel(|s.accepted|)])
    case Receive(w) =>
      s.(channel := s.channel[1..], workers := s.workers[w := Exporting(s.channel[0], |s.takenBy|)],
         takenBy := s.takenBy + [w], owner := s.owner[s.channel[0].arr := ByWorker(w)])
    case Export(w, ok) =>
      var Exporting(slice, batch) := s.workers[w];
      s.(workers := s.workers[w := Counted(slice)], exports := s.exports[batch := Content(s.heap, slice)],
         verdicts := s.verdicts[batch := ok],
         success := if ok then s.success + slice.len else s.success,
         failed := if ok then s.failed else s.failed + slice.len)
    case Put(w) =>
      var Counted(slice) := s.workers[w];
      s.(workers := s.workers[w := Idle], pool := s.pool + {slice.arr}, owner := s.owner[slice.arr := InPool])
    case Leave(w) => s.(workers := s.workers[w := Done])
    case PoolDrops(arr) => s.(pool := s.pool - {arr}, owner := s.owner[arr := Garbage])
    case Close => s.(closed := true)
  }

  function RunFrom(s: State, acts: seq<Action>): (r: Option<State>) {
    if acts == [] then Some(s)
    else
      match RunFrom(s, acts[..|acts| - 1])
      case None => None
      case Some(m) =>
        var a := acts[|acts| - 1];
        if Enabled(m, a) then Some(Apply(m, a)) else None
  }

  lemma RunExtend(s: State, acts: seq<Action>, a: Action)
    requires RunFrom(s, acts).Some? && Enabled(RunFrom(s, acts).value, a)
    ensures RunFrom(s, acts + [a]) == Some(Apply(RunFrom(s, acts).value, a))
  {
    assert (acts + [a])[..|acts|] == acts;
  }

  ghost predicate Reachable(concurrency: nat, s: State) {
    exists acts :: RunFrom(Init(concurrency), acts) == Some(s)
  }

  // ----- the invariant

  ghost predicate Owns(s: State, arr: ArrayId, owner: Owner) {
    arr in s.heap && arr in s.owner && s.owner[arr] == owner
  }

  /** The slice belongs to `owner` and holds `logs`. */
  ghost predicate Carries(s: State, slice: Slice, owner: Owner, logs: seq<Log>) {
    && Owns(s, slice.arr, owner)
    && slice.len == |logs| <= |s.heap[slice.arr].cells|
    && Content(s.heap, slice) == logs
  }

  ghost predicate CallInv(s: State, c: CallId)
    requires c in s.calls
  {
    match s.calls[c]
    case Entered(_) => true
    case Holding(arr, _) => Owns(s, arr, ByCall(c))
    case Filled(slice, logs) => Carries(s, slice, ByCall(c), logs)
  }

  ghost predicate WorkerInv(s: State, w: nat)
    requires w < |s.workers|
  {
    match s.workers[w]
    case Exporting(slice, batch) =>
      batch < |s.takenBy| && batch < |s.accepted| && s.takenBy[batch] == w && batch !in s.exports
      && Carries(s, slice, ByWorker(w), s.accepted[batch])
    case Counted(slice) => Owns(s, slice.arr, ByWorker(w))
    case Done => s.closed && s.channel == []
    case _ => true
  }

  /** Each array is in one place: where its one owner says. */
  ghost predicate PlaceInv(s: State) {
    && (forall arr :: arr in s.pool ==> Owns(s, arr, InPool))
    && (forall c :: c in s.calls ==> CallInv(s, c))
    && (forall w :: 0 <= w < |s.workers| ==> WorkerInv(s, w))
    && s.owner.Keys <= s.heap.Keys
  }

  function ArrayOfWorker(pc: WorkerPc): (r: Option<ArrayId>) {
    match pc
    case Exporting(slice, _) => Some(slice.arr)
    case Counted(slice) => Some(slice.arr)
    case _ => None
  }

  function ArrayOfCall(pc: CallPc): (r: Option<ArrayId>) {
    match pc
    case Entered(_) => None
    case Holding(arr, _) => Some(arr)
    case Filled(slice, _) => Some(slice.arr)
  }

  /** The array is in the pool, with that call, in that channel slot, or with that worker. */
  ghost predicate Holds(s: State, place: Owner, arr: ArrayId) {
    match place
    case InPool => arr in s.pool
    case ByCall(c) => c in s.calls && ArrayOfCall(s.calls[c]) == Some(arr)
    case InChannel(batch) =>
      |s.takenBy| <= batch < |s.takenBy| + |s.channel| && s.channel[batch - |s.takenBy|].arr == arr
    case ByWorker(w) => w < |s.workers| && ArrayOfWorker(s.workers[w]) == Some(arr)
    case Garbage => false
  }

  /** Every array is where its owner says, unless it is garbage. */
  ghost predicate HeldInv(s: State) {
    forall arr :: arr in s.heap ==> arr in s.owner && (s.owner[arr].Garbage? || Holds(s, s.owner[arr], arr))
  }

  ghost predicate ChannelInv(s: State) {
    && |s.accepted| == |s.takenBy| + |s.channel|
    && (forall i :: 0 <= i < |s.channel| ==>
          Carries(s, s.channel[i], InChannel(|s.takenBy| + i), s.accepted[|s.takenBy| + i]))
  }

  /** A received batch is with the worker that received it until that worker has exported it. */
  ghost predicate TakenInv(s: State) {
    && |s.takenBy| <= |s.accepted|
    && (forall k :: k in s.exports ==> k < |s.takenBy| && s.exports[k] == s.accepted[k])
    && (forall k :: 0 <= k < |s.takenBy| && k !in s.exports ==>
          s.takenBy[k] < |s.workers| && s.workers[s.takenBy[k]].Exporting? && s.workers[s.takenBy[k]].batch == k)
  }

  /** The logs of those among the first `n` batches whose export ended with `ok`. */
  function LogsEnded(accepted: seq<seq<Log>>, verdicts: map<nat, bool>, ok: bool, n: nat): (r: nat)
    requires n <= |accepted|
  {
    if n == 0 then 0
    else
      var k: nat := n - 1;
      LogsEnded(accepted, verdicts, ok, k) + if k in verdicts && verdicts[k] == ok then |accepted[k]| else 0
  }

  /** One counter counts the logs of the batches whose export succeeded, the other those of the failed ones. */
  ghost predicate SumInv(s: State) {
    && s.verdicts.Keys == s.exports.Keys
    && s.success == LogsEnded(s.accepted, s.verdicts, true, |s.accepted|)
    && s.failed == LogsEnded(s.accepted, s.verdicts, false, |s.accepted|)
  }

  ghost predicate Inv(s: State) {
    PlaceInv(s) && ChannelInv(s) && TakenInv(s) && SumInv(s) && HeldInv(s)
  }

  // ----- what an action leaves alone

  /** The arrays of `owner` are untouched. */
  ghost predicate Same(s: State, s': State, owner: Owner) {
    forall arr :: Owns(s, arr, owner) ==> Owns(s', arr, owner) && s'.heap[arr] == s.heap[arr]
  }

  lemma CallFrame(s: State, s': State, c: CallId)
    requires c in s.calls && c in s'.calls && s'.calls[c] == s.calls[c] && CallInv(s, c) && Same(s, s', ByCall(c))
    ensures CallInv(s', c)
  {}

  lemma WorkerFrame(s: State, s': State, w: nat)
    requires w < |s.workers| == |s'.workers| && s'.workers[w] == s.workers[w]
    requires WorkerInv(s, w) && Same(s, s', ByWorker(w))
    requires s.accepted <= s'.accepted && s.takenBy <= s'.takenBy
    requires s.workers[w].Exporting? ==> s.workers[w].batch !in s'.exports
    requires s.workers[w].Done? ==> s'.closed && s'.channel == []
    ensures WorkerInv(s', w)
  {}

  lemma ChannelFrame(s: State, s': State)
    requires ChannelInv(s) && s'.channel == s.channel && s'.takenBy == s.takenBy && s'.accepted == s.accepted
    requires forall k :: Same(s, s', InChannel(k))
    ensures ChannelInv(s')
  {
    forall i | 0 <= i < |s.channel|
      ensures Carries(s', s.channel[i], InChannel(|s.takenBy| + i), s.accepted[|s.takenBy| + i])
    {
      assert Same(s, s', InChannel(|s.takenBy| + i));
    }
  }

  // ----- calls: everything up to the send

  predicate ByCaller(a: Action) {
    a.ExportLogs? || a.GetFromPool? || a.GetNew? || a.AppendInPlace? || a.AppendGrow?
  }

  /** A step of call `c` before its send touches no array of anybody but `c`. */
  lemma CallerLeaves(s: State, a: Action, owner: Owner)
    requires Enabled(s, a) && ByCaller(a) && PlaceInv(s) && owner != ByCall(a.c) && !owner.InPool?
    ensures Same(s, Apply(s, a), owner)
  {
    if a.c in s.calls {
      assert CallInv(s, a.c);
    }
  }

  lemma CallerOwn(s: State, a: Action)
    requires Enabled(s, a) && ByCaller(a) && PlaceInv(s)
    ensures CallInv(Apply(s, a), a.c)
    ensures forall arr :: arr in Apply(s, a).pool ==> Owns(Apply(s, a), arr, InPool)
    ensures Apply(s, a).owner.Keys <= Apply(s, a).heap.Keys
  {
    if a.c in s.calls {
      assert CallInv(s, a.c);
    }
  }

  lemma CallerPlaces(s: State, a: Action)
    requires Enabled(s, a) && ByCaller(a) && PlaceInv(s) && ChannelInv(s)
    ensures PlaceInv(Apply(s, a)) && ChannelInv(Apply(s, a))
  {
    var s' := Apply(s, a);
    CallerOwn(s, a);
    forall c | c in s'.calls && c != a.c
      ensures CallInv(s', c)
    {
      CallerLeaves(s, a, ByCall(c));
      CallFrame(s, s', c);
    }
    forall w | 0 <= w < |s'.workers|
      ensures WorkerInv(s', w)
    {
      CallerLeaves(s, a, ByWorker(w));
      assert WorkerInv(s, w);
      WorkerFrame(s, s', w);
    }
    forall k
      ensures Same(s, s', InChannel(k))
    {
      CallerLeaves(s, a, InChannel(k));
    }
    ChannelFrame(s, s');
  }

  // ----- the channel

  lemma SendPlaces(s: State, c: CallId)
    requires Enabled(s, Send(c)) && PlaceInv(s) && ChannelInv(s)
    ensures PlaceInv(Apply(s, Send(c))) && ChannelInv(Apply(s, Send(c)))
  {
    var s' := Apply(s, Send(c));
    assert CallInv(s, c);
    forall d | d in s'.calls
      ensures CallInv(s', d)
    {
      CallFrame(s, s', d);
    }
    forall w | 0 <= w < |s'.workers|
      ensures WorkerInv(s', w)
    {
      assert WorkerInv(s, w);
      WorkerFrame(s, s', w);
    }
    forall i | 0 <= i < |s'.channel|
      ensures Carries(s', s'.channel[i], InChannel(|s'.takenBy| + i), s'.accepted[|s'.takenBy| + i])
    {
      if i < |s.channel| {
        assert Carries(s, s.channel[i], InChannel(|s.takenBy| + i), s.accepted[|s.takenBy| + i]);
      }
    }
  }

  lemma ReceivePlaces(s: State, w: nat)
    requires Enabled(s, Receive(w)) && PlaceInv(s) && ChannelInv(s) && TakenInv(s)
    ensures PlaceInv(Apply(s, Receive(w))) && ChannelInv(Apply(s, Receive(w)))
  {
    var s' := Apply(s, Receive(w));
    assert Carries(s, s.channel[0], InChannel(|s.takenBy|), s.accepted[|s.takenBy|]);
    forall d | d in s'.calls
      ensures CallInv(s', d)
    {
      CallFrame(s, s', d);
    }
    forall v | 0 <= v < |s'.workers|
      ensures WorkerInv(s', v)
    {
      assert WorkerInv(s, v);
      if v != w {
        WorkerFrame(s, s', v);
      }
    }
    forall i | 0 <= i < |s'.channel|
      ensures Carries(s', s'.channel[i], InChannel(|s'.takenBy| + i), s'.accepted[|s'.takenBy| + i])
    {
      assert Carries(s, s.channel[i + 1], InChannel(|s.takenBy| + i + 1), s.accepted[|s.takenBy| + i + 1]);
    }
  }

  // ----- workers, the pool and Close

  predicate ByOthers(a: Action) {
    a.Export? || a.Put? || a.Leave? || a.PoolDrops? || a.Close?
  }

  lemma OthersLeave(s: State, a: Action, owner: Owner)
    requires Enabled(s, a) && ByOthers(a) && PlaceInv(s) && !owner.InPool? && (a.Put? ==> owner != ByWorker(a.w))
    ensures Same(s, Apply(s, a), owner)
  {
    match a
    case Put(w) => assert WorkerInv(s, w);
    case PoolDrops(arr) => assert Owns(s, arr, InPool);
    case _ =>
  }

  lemma OthersOwn(s: State, a: Action, w: nat)
    requires Enabled(s, a) && ByOthers(a) && PlaceInv(s) && w < |s.workers|
    ensures WorkerInv(Apply(s, a), w)
  {
    var s' := Apply(s, a);
    assert WorkerInv(s, w);
    if (a.Export? || a.Put? || a.Leave?) && a.w == w {
    } else {
      OthersLeave(s, a, ByWorker(w));
      if a.Export? {
        assert WorkerInv(s, a.w);
      }
      WorkerFrame(s, s', w);
    }
  }

  lemma OthersPool(s: State, a: Action)
    requires Enabled(s, a) && ByOthers(a) && PlaceInv(s)
    ensures forall arr :: arr in Apply(s, a).pool ==> Owns(Apply(s, a), arr, InPool)
    ensures Apply(s, a).owner.Keys <= Apply(s, a).heap.Keys
  {
    match a
    case Put(w) => assert WorkerInv(s, w);
    case PoolDrops(arr) => assert Owns(s, arr, InPool);
    case _ =>
  }

  lemma OthersPlaces(s: State, a: Action)
    requires Enabled(s, a) && ByOthers(a) && PlaceInv(s) && ChannelInv(s)
    ensures PlaceInv(Apply(s, a)) && ChannelInv(Apply(s, a))
  {
    var s' := Apply(s, a);
    OthersPool(s, a);
    forall c | c in s'.calls
      ensures CallInv(s', c)
    {
      OthersLeave(s, a, ByCall(c));
      CallFrame(s, s', c);
    }
    forall w | 0 <= w < |s'.workers|
      ensures WorkerInv(s', w)
    {
      OthersOwn(s, a, w);
    }
    forall k
      ensures Same(s, s', InChannel(k))
    {
      OthersLeave(s, a, InChannel(k));
    }
    ChannelFrame(s, s');
  }

  // ----- every received batch is exported once, and counted

  lemma {:induction false} SumGrows(accepted: seq<seq<Log>>, more: seq<Log>, verdicts: map<nat, bool>, ok: bool,
                                    n: nat)
    requires n <= |accepted|
    ensures LogsEnded(accepted + [more], verdicts, ok, n) == LogsEnded(accepted, verdicts, ok, n)
  {
    if n > 0 {
      SumGrows(accepted, more, verdicts, ok, n - 1);
    }
  }

  lemma {:induction false} SumOneMore(accepted: seq<seq<Log>>, verdicts: map<nat, bool>, k: nat, end: bool, ok: bool,
                                      n: nat)
    requires k < |accepted| && k !in verdicts && n <= |accepted|
    ensures LogsEnded(accepted, verdicts[k := end], ok, n)
         == LogsEnded(accepted, verdicts, ok, n) + if k < n && end == ok then |accepted[k]| else 0
  {
    if n > 0 {
      SumOneMore(accepted, verdicts, k, end, ok, n - 1);
    }
  }

  lemma TakenStep(s: State, a: Action)
    requires Enabled(s, a) && PlaceInv(s) && ChannelInv(s) && TakenInv(s)
    ensures TakenInv(Apply(s, a))
  {
    match a
    case Export(w, _) => assert WorkerInv(s, w);
    case Receive(w) =>
    case Put(w) =>
    case Leave(w) =>
    case Send(_) =>
    case _ =>
  }

  lemma SumStep(s: State, a: Action)
    requires Enabled(s, a) && PlaceInv(s) && ChannelInv(s) && TakenInv(s) && SumInv(s)
    ensures SumInv(Apply(s, a))
  {
    match a
    case Send(c) => SumSend(s, c);
    case Export(w, ok) => SumExport(s, w, ok);
    case _ =>
  }

  lemma SumSend(s: State, c: CallId)
    requires Enabled(s, Send(c)) && ChannelInv(s) && TakenInv(s) && SumInv(s)
    ensures SumInv(Apply(s, Send(c)))
  {
    var n := |s.accepted|;
    var logs := s.calls[c].logs;
    SumGrows(s.accepted, logs, s.verdicts, true, n);
    SumGrows(s.accepted, logs, s.verdicts, false, n);
    assert n !in s.exports && n !in s.verdicts;
  }

  lemma SumExport(s: State, w: nat, ok: bool)
    requires Enabled(s, Export(w, ok)) && PlaceInv(s) && SumInv(s)
    ensures SumInv(Apply(s, Export(w, ok)))
  {
    assert WorkerInv(s, w);
    var k := s.workers[w].batch;
    assert k !in s.verdicts;
    SumOneMore(s.accepted, s.verdicts, k, ok, true, |s.accepted|);
    SumOneMore(s.accepted, s.verdicts, k, ok, false, |s.accepted|);
  }

  // ----- every array stays in some place

  lemma HeldByCall(s: State, a: Action)
    requires Enabled(s, a) && ByCaller(a) && HeldInv(s)
    ensures HeldInv(Apply(s, a))
  {
    var s' := Apply(s, a);
    forall arr | arr in s'.heap
      ensures arr in s'.owner && (s'.owner[arr].Garbage? || Holds(s', s'.owner[arr], arr))
    {
      assert arr in s.heap ==> arr in s.owner;
    }
  }

  lemma HeldByChannel(s: State, a: Action)
    requires Enabled(s, a) && (a.Send? || a.Receive?) && HeldInv(s)
    requires |s.accepted| == |s.takenBy| + |s.channel|
    ensures HeldInv(Apply(s, a))
  {
    var s' := Apply(s, a);
    forall arr | arr in s'.heap
      ensures arr in s'.owner && (s'.owner[arr].Garbage? || Holds(s', s'.owner[arr], arr))
    {
      assert arr in s.owner;
    }
  }

  lemma HeldByOthers(s: State, a: Action)
    requires Enabled(s, a) && ByOthers(a) && HeldInv(s)
    ensures HeldInv(Apply(s, a))
  {
    var s' := Apply(s, a);
    forall arr | arr in s'.heap
      ensures arr in s'.owner && (s'.owner[arr].Garbage? || Holds(s', s'.owner[arr], arr))
    {
      assert arr in s.owner;
    }
  }

  lemma SentOrWaiting(s: State)
    requires ChannelInv(s)
    ensures |s.accepted| == |s.takenBy| + |s.channel|
  {}

  lemma HeldStep(s: State, a: Action)
    requires Enabled(s, a) && ChannelInv(s) && HeldInv(s)
    ensures HeldInv(Apply(s, a))
  {
    hide HeldInv, ChannelInv, Apply, Enabled;
    SentOrWaiting(s);
    if ByCaller(a) {
      HeldByCall(s, a);
    } else if ByOthers(a) {
      HeldByOthers(s, a);
    } else {
      HeldByChannel(s, a);
    }
  }

  lemma InvStep(s: State, a: Action)
    requires Enabled(s, a) && Inv(s)
    ensures Inv(Apply(s, a))
  {
    HeldStep(s, a);
    hide PlaceInv, ChannelInv, TakenInv, SumInv, HeldInv, Apply;
    if ByCaller(a) {
      CallerPlaces(s, a);
    } else if ByOthers(a) {
      OthersPlaces(s, a);
    } else if a.Send? {
      SendPlaces(s, a.c);
    } else {
      ReceivePlaces(s, a.w);
    }
    TakenStep(s, a);
    SumStep(s, a);
  }

  lemma WorkersStay(s: State, a: Action)
    requires Enabled(s, a)
    ensures |Apply(s, a).workers| == |s.workers|
  {}

  lemma InvInit(concurrency: nat)
    ensures Inv(Init(concurrency))
  {}

  lemma {:induction false} InvRun(s: State, acts: seq<Action>)
    requires Inv(s) && RunFrom(s, acts).Some?
    ensures Inv(RunFrom(s, acts).value) && |RunFrom(s, acts).value.workers| == |s.workers|
    decreases |acts|
  {
    hide Inv, Apply, Enabled;
    if acts != [] {
      var init := acts[..|acts| - 1];
      InvRun(s, init);
      WorkersStay(RunFrom(s, init).value, acts[|acts| - 1]);
      InvStep(RunFrom(s, init).value, acts[|acts| - 1]);
    }
  }

  lemma ReachableInv(concurrency: nat, s: State)
    requires Reachable(concurrency, s)
    ensures Inv(s) && |s.workers| == concurrency
  {
    InvInit(concurrency);
    var acts :| RunFrom(Init(concurrency), acts) == Some(s);
    InvRun(Init(concurrency), acts);
  }

  // ----- guarantees

  /** What a worker is about to export is exactly what one ExportLogs call was given, whichever arrays that call and
      all the others reuse meanwhile, and nobody has exported it before. */
  lemma WorkerSeesOneCall(concurrency: nat, s: State, w: nat)
    requires Reachable(concurrency, s) && w < |s.workers| && s.workers[w].Exporting?
    ensures var Exporting(slice, batch) := s.workers[w];
      && slice.arr in s.heap && slice.len <= |s.heap[slice.arr].cells| && batch < |s.accepted|
      && Content(s.heap, slice) == s.accepted[batch] && batch !in s.exports
  {
    ReachableInv(concurrency, s);
    assert WorkerInv(s, w);
  }

  /** The channel never holds more batches than it has room for, two per worker. */
  lemma {:induction false} ChannelBounded(concurrency: nat, acts: seq<Action>)
    requires RunFrom(Init(concurrency), acts).Some?
    ensures var s := RunFrom(Init(concurrency), acts).value; |s.channel| <= 2 * concurrency == 2 * |s.workers|
    decreases |acts|
  {
    if acts != [] {
      var init, a := acts[..|acts| - 1], acts[|acts| - 1];
      ChannelBounded(concurrency, init);
      ChannelStep(RunFrom(Init(concurrency), init).value, a);
      hide Apply, Enabled;
    }
  }

  lemma ChannelStep(s: State, a: Action)
    requires Enabled(s, a) && |s.channel| <= 2 * |s.workers|
    ensures var s' := Apply(s, a); |s'.channel| <= 2 * |s'.workers| == 2 * |s.workers|
  {}

  /** No array is ever in two places. */
  lemma OnePlacePerArray(concurrency: nat, s: State, arr: ArrayId, p: Owner, q: Owner)
    requires Reachable(concurrency, s) && Holds(s, p, arr) && Holds(s, q, arr)
    ensures p == q
  {
    ReachableInv(concurrency, s);
    HolderOwns(s, arr, p);
    HolderOwns(s, arr, q);
  }

  /** An array that was ever made is in exactly one place, until the pool drops it, a call outgrows it or the call that
      has it panics; from then on it is in none. */
  lemma ExactlyOnePlace(concurrency: nat, s: State, arr: ArrayId)
    requires Reachable(concurrency, s) && arr in s.heap
    ensures arr in s.owner && ((exists p :: Holds(s, p, arr)) <==> !s.owner[arr].Garbage?)
    ensures forall p, q :: Holds(s, p, arr) && Holds(s, q, arr) ==> p == q
  {
    ReachableInv(concurrency, s);
    hide PlaceInv, ChannelInv, TakenInv, SumInv;
    forall p | Holds(s, p, arr)
      ensures p == s.owner[arr] && !p.Garbage?
    {
      HolderOwns(s, arr, p);
    }
  }

  lemma GarbageOnlyBy(s: State, a: Action, arr: ArrayId)
    requires Enabled(s, a) && arr in s.owner && !s.owner[arr].Garbage? && arr in s.heap
    requires PlaceInv(s)
    ensures arr in Apply(s, a).owner
    ensures Apply(s, a).owner[arr].Garbage?
       <==> || a == PoolDrops(arr) || (a.AppendGrow? && s.calls[a.c].arr == arr)
            || (a.Send? && s.closed && s.calls[a.c].slice.arr == arr)
  {}

  lemma HolderOwns(s: State, arr: ArrayId, p: Owner)
    requires Inv(s) && Holds(s, p, arr)
    ensures Owns(s, arr, p)
  {
    match p
    case InPool =>
    case ByCall(c) => assert CallInv(s, c);
    case ByWorker(w) => assert WorkerInv(s, w);
    case InChannel(batch) =>
      var i := batch - |s.takenBy|;
      assert Carries(s, s.channel[i], InChannel(|s.takenBy| + i), s.accepted[|s.takenBy| + i]);
  }

  // ----- calls that overlap Shutdown

  /** A call panics in exactly one way: its send finds the channel closed. */
  lemma PanicsIff(s: State, a: Action, c: CallId)
    requires Enabled(s, a) && c !in s.panicked
    ensures c in Apply(s, a).panicked <==> a == Send(c) && s.closed
  {}

  /** From the close on nothing is accepted, and a call under way that has not sent ends, if it ends, in a panic. */
  lemma {:induction false} ClosedRun(s: State, acts: seq<Action>)
    requires s.closed && RunFrom(s, acts).Some?
    ensures var s' := RunFrom(s, acts).value;
      s'.closed && s'.accepted == s.accepted && s.panicked <= s'.panicked
      && forall c :: c in s.calls ==> c in s'.calls || c in s'.panicked
    decreases |acts|
  {
    hide Apply;
    if acts != [] {
      var init := acts[..|acts| - 1];
      ClosedRun(s, init);
      ClosedStep(RunFrom(s, init).value, acts[|acts| - 1]);
    }
  }

  lemma ClosedStep(s: State, a: Action)
    requires Enabled(s, a) && s.closed
    ensures var s' := Apply(s, a);
      s'.closed && s'.accepted == s.accepted && s.panicked <= s'.panicked
      && forall c :: c in s.calls ==> c in s'.calls || c in s'.panicked
  {}

  /** A call that began before Shutdown panics if it sends after the close, although a worker is still running. */
  lemma OverlapPanics(logs: seq<Log>) returns (s: State)
    requires |logs| <= MAX_EXPORT_BATCH_SIZE
    ensures Reachable(1, s) && s.panicked == {0} && s.accepted == [] && s.workers == [Idle]
  {
    var acts: seq<Action>;
    acts, s := [], Init(1);
    acts, s := Then(1, acts, s, ExportLogs(0, logs));
    acts, s := Then(1, acts, s, GetNew(0, 0));
    acts, s := Then(1, acts, s, AppendInPlace(0));
    acts, s := Then(1, acts, s, Close);
    acts, s := Then(1, acts, s, Send(0));
  }

  /** A call that overlaps Shutdown but sends before the close is accepted like any other. */
  lemma OverlapAccepted(logs: seq<Log>) returns (s: State)
    requires |logs| <= MAX_EXPORT_BATCH_SIZE
    ensures Reachable(1, s) && s.closed && s.panicked == {} && s.accepted == [logs] && 0 !in s.calls
  {
    var acts: seq<Action>;
    acts, s := [], Init(1);
    acts, s := Then(1, acts, s, ExportLogs(0, logs));
    acts, s := Then(1, acts, s, GetNew(0, 0));
    acts, s := Then(1, acts, s, AppendInPlace(0));
    acts, s := Then(1, acts, s, Send(0));
    acts, s := Then(1, acts, s, Close);
  }

  lemma Then(concurrency: nat, acts: seq<Action>, s: State, a: Action) returns (acts': seq<Action>, s': State)
    requires RunFrom(Init(concurrency), acts) == Some(s) && Enabled(s, a)
    ensures s' == Apply(s, a) && RunFrom(Init(concurrency), acts') == Some(s')
  {
    acts', s' := acts + [a], Apply(s, a);
    RunExtend(Init(concurrency), acts, a);
  }

  function TotalLogs(batches: seq<seq<Log>>, n: nat): (r: nat)
    requires n <= |batches|
  {
    if n == 0 then 0 else TotalLogs(batches, n - 1) + |batches[n - 1]|
  }

  lemma {:induction false} AllCounted(accepted: seq<seq<Log>>, verdicts: map<nat, bool>, n: nat)
    requires n <= |accepted| && forall k :: 0 <= k < n ==> k in verdicts
    ensures LogsEnded(accepted, verdicts, true, n) + LogsEnded(accepted, verdicts, false, n) == TotalLogs(accepted, n)
  {
    if n > 0 {
      AllCounted(accepted, verdicts, n - 1);
    }
  }

  /** When Shutdown's wait for at least one worker is over, every accepted batch was exported, exactly once and with
      its own logs. One counter has the logs of the batches whose export succeeded, the other those of the failed ones,
      and together they count every log, whatever calls overlapped it. Nothing is accepted any more. */
  lemma ShutdownComplete(concurrency: nat, s: State)
    requires Reachable(concurrency, s) && concurrency >= 1
    requires forall w :: 0 <= w < |s.workers| ==> s.workers[w].Done?
    ensures |s.takenBy| == |s.accepted|
    ensures forall k :: 0 <= k < |s.accepted| ==> k in s.verdicts && k in s.exports && s.exports[k] == s.accepted[k]
    ensures s.success == LogsEnded(s.accepted, s.verdicts, true, |s.accepted|)
    ensures s.failed == LogsEnded(s.accepted, s.verdicts, false, |s.accepted|)
    ensures s.success + s.failed == TotalLogs(s.accepted, |s.accepted|)
    ensures s.closed
  {
    ReachableInv(concurrency, s);
    assert WorkerInv(s, 0);
    forall k | 0 <= k < |s.accepted|
      ensures k in s.verdicts
    {
      assert k in s.exports;
    }
    AllCounted(s.accepted, s.verdicts, |s.accepted|);
  }
}
