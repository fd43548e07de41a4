/** The two log batchers, sdk/log.BatchProcessor and otelzap.BatchWriteSyncer: one worker that owns its batch, and
    enqueuers that only touch the queue. The worker's loops are written as they run; `events` and `schedule` say
    what the enqueuers, the timer and Shutdown do at each select and which ready case the select takes. */
module LogBatching {
  import opened Prelude

  /** `sizeRuleInDrain`: otelzap applies the packet limit while draining, sdk/log only counts. */
  datatype Options = Options(maxQueueSize: nat, maxExportBatchSize: nat, maxPacketSize: int, blockOnQueueFull: bool,
                             sizeRuleInDrain: bool)

  const SDK_LOG_OPTIONS := Options(2048, 512, 2097152, false, false)
  const ZAP_DEFAULT_OPTIONS := Options(2048, 512, 2097152, false, true)

  datatype Record = Record(id: nat, size: nat)

  /** How an Enqueue call ends; Refused by its stop check, Blocked while it waits for room. */
  datatype SendResult = Accepted | Dropped | Blocked | Panicked | Refused

  datatype Event = Send(r: Record) | CloseStop | TimerFires | PickStop | PickTick | PickQueue | PickDefault

  /** Where the worker stands: in processQueue, in drainQueue, there between finding the queue empty and closing it, or
      at its end. */
  datatype Phase = Running | Draining | Closing | Over

  function TotalSize(rs: seq<Record>): (r: nat) {
    if rs == [] then 0 else TotalSize(rs[..|rs| - 1]) + rs[|rs| - 1].size
  }

  lemma TotalSizeEmpty(o: Options)
    ensures TotalSize([]) == 0 && Fits(o, [])
  {}

  lemma TotalSizeAppend(rs: seq<Record>, r: Record)
    ensures TotalSize(rs + [r]) == TotalSize(rs) + r.size
  {
    assert (rs + [r])[..|rs|] == rs;
  }

  /** Without its last record the batch is below the packet limit. */
  ghost predicate Fits(o: Options, batch: seq<Record>) {
    batch != [] ==> TotalSize(batch[..|batch| - 1]) < o.maxPacketSize
  }

  /** Every exported batch is non-empty and within MaxExportBatchSize; the first `runExports` of them, exported by
      processQueue, and for otelzap all of them, obey the packet rule. */
  ghost predicate BatchesOk(o: Options, exported: seq<seq<Record>>, runExports: nat) {
    && (forall i :: 0 <= i < |exported| ==> exported[i] != [])
    && (o.maxExportBatchSize >= 1 ==> forall i :: 0 <= i < |exported| ==> |exported[i]| <= o.maxExportBatchSize)
    && (o.maxPacketSize > 0 ==>
          forall i :: 0 <= i < |exported| && (i < runExports || o.sizeRuleInDrain) ==> Fits(o, exported[i]))
  }

  lemma ExportKeeps(o: Options, exported: seq<seq<Record>>, batch: seq<Record>, queue: seq<Record>, n: nat, n': nat)
    requires BatchesOk(o, exported, n) && batch != [] && n <= |exported| && n' <= |exported| + 1
    requires o.maxExportBatchSize >= 1 ==> |batch| <= o.maxExportBatchSize
    requires n' == n || n == |exported|
    requires (n' > n || o.sizeRuleInDrain) && o.maxPacketSize > 0 ==> Fits(o, batch)
    ensures BatchesOk(o, exported + [batch], n')
    ensures Flatten(exported + [batch]) + [] + queue == Flatten(exported) + batch + queue
  {
    FlattenAppend(exported, batch);
    hide Flatten, TotalSize, Fits;
  }

  // ----- the drain loop, round by round

  /** The processor while it drains, and what became of the first `|fates|` late senders. */
  datatype Drain = Drain(queue: seq<Record>, closing: bool, closed: bool, batch: seq<Record>, batchedSize: int,
                         exported: seq<seq<Record>>, dropped: nat, fates: seq<SendResult>)

  function SenderGoes(o: Options, late: seq<Record>, d: Drain): (r: Drain)
    requires |d.fates| <= |late|
  {
    if |d.fates| == |late| then d
    else if d.closed then d.(fates := d.fates + [Panicked])
    else if |d.queue| < o.maxQueueSize then
      d.(queue := d.queue + [late[|d.fates|]], fates := d.fates + [Accepted])
    else if o.blockOnQueueFull then d
    else d.(dropped := d.dropped + 1, fates := d.fates + [Dropped])
  }

  function Flushed(d: Drain): (r: Drain) {
    if d.batch == [] then d else d.(exported := d.exported + [d.batch], batch := [], batchedSize := 0)
  }

  function TakeOne(o: Options, d: Drain): (r: Drain)
    requires d.queue != []
  {
    var batch := d.batch + [d.queue[0]];
    var size := d.batchedSize + if o.sizeRuleInDrain then d.queue[0].size else 0;
    var e := d.(queue := d.queue[1..], batch := batch, batchedSize := size);
    if |batch| == o.maxExportBatchSize || (o.sizeRuleInDrain && size >= o.maxPacketSize) then Flushed(e) else e
  }

  function AllPanicked(n: nat): (r: seq<SendResult>)
    ensures |r| == n && forall k :: 0 <= k < n ==> r[k].Panicked?
  {
    seq(n, _ => Panicked)
  }

  /** Looking at the queue and closing it are two rounds: senders may come in between. */
  function Drained(o: Options, late: seq<Record>, d: Drain, schedule: seq<bool>): (r: Drain)
    requires |d.fates| <= |late|
    decreases |schedule|, if d.closed then 0 else if d.closing then 1 else 2, |d.queue|
  {
    var rest := if schedule == [] then [] else schedule[1..];
    if schedule != [] && schedule[0] then Drained(o, late, SenderGoes(o, late, d), rest)
    else if d.closing && !d.closed then Drained(o, late, d.(closing := false, closed := true), rest)
    else if d.queue != [] then Drained(o, late, TakeOne(o, d), rest)
    else if !d.closed then Drained(o, late, d.(closing := true), rest)
    else Flushed(d).(fates := d.fates + AllPanicked(|late| - |d.fates|))
  }

  /** The late records with the given fate, in order. */
  function Those(late: seq<Record>, fates: seq<SendResult>, fate: SendResult): (r: seq<Record>)
    requires |fates| <= |late|
  {
    if fates == [] then []
    else
      var n := |fates| - 1;
      Those(late, fates[..n], fate) + if fates[n] == fate then [late[n]] else []
  }

  lemma ThoseEmpty(late: seq<Record>)
    ensures forall fate :: Those(late, [], fate) == []
  {}

  lemma ThoseNext(late: seq<Record>, fates: seq<SendResult>, last: SendResult)
    requires |fates| < |late|
    ensures forall fate ::
      Those(late, fates + [last], fate) == Those(late, fates, fate) + if last == fate then [late[|fates|]] else []
  {
    assert (fates + [last])[..|fates|] == fates;
  }

  lemma {:induction false} ThosePanicked(late: seq<Record>, fates: seq<SendResult>, n: nat)
    requires |fates| + n <= |late|
    ensures forall fate: SendResult :: !fate.Panicked? ==>
      Those(late, fates + AllPanicked(n), fate) == Those(late, fates, fate)
    decreases n
  {
    if n == 0 {
      assert fates + AllPanicked(0) == fates;
    } else {
      ThosePanicked(late, fates, n - 1);
      ThoseNext(late, fates + AllPanicked(n - 1), Panicked);
      assert fates + AllPanicked(n - 1) + [Panicked] == fates + AllPanicked(n);
    }
  }

  lemma DrainedNext(o: Options, late: seq<Record>, d: Drain, schedule: seq<bool>, i: nat)
    requires |d.fates| <= |late| && i <= |schedule|
    ensures var j := if i < |schedule| then i + 1 else i;
      Drained(o, late, d, schedule[i..]) ==
        if i < |schedule| && schedule[i] then Drained(o, late, SenderGoes(o, late, d), schedule[j..])
        else if d.closing && !d.closed then Drained(o, late, d.(closing := false, closed := true), schedule[j..])
        else if d.queue != [] then Drained(o, late, TakeOne(o, d), schedule[j..])
        else if !d.closed then Drained(o, late, d.(closing := true), schedule[j..])
        else Flushed(d).(fates := d.fates + AllPanicked(|late| - |d.fates|))
  {
    if i < |schedule| {
      assert schedule[i..][0] == schedule[i] && schedule[i..][1..] == schedule[i + 1..];
    } else {
      assert schedule[i..] == [];
    }
  }

  // ----- exactly which late senders panic

  /** How many late senders had their turn before the close. */
  function SentBeforeClose(o: Options, late: seq<Record>, d: Drain, schedule: seq<bool>): (n: nat)
    requires |d.fates| <= |late|
    decreases |schedule|, if d.closed then 0 else if d.closing then 1 else 2, |d.queue|
  {
    var rest := if schedule == [] then [] else schedule[1..];
    if d.closed then |d.fates|
    else if schedule != [] && schedule[0] then SentBeforeClose(o, late, SenderGoes(o, late, d), rest)
    else if d.closing then |d.fates|
    else if d.queue != [] then SentBeforeClose(o, late, TakeOne(o, d), rest)
    else SentBeforeClose(o, late, d.(closing := true), rest)
  }

  predicate Lucky(fate: SendResult) {
    fate.Accepted? || fate.Dropped?
  }

  /** Fates once settled stay; after the close only panics are added. */
  lemma {:induction false} FatesKept(o: Options, late: seq<Record>, d: Drain, schedule: seq<bool>)
    requires |d.fates| <= |late| && d.closed
    ensures var fates := Drained(o, late, d, schedule).fates;
      && |fates| == |late| && d.fates <= fates
      && forall k :: |d.fates| <= k < |late| ==> fates[k].Panicked?
    decreases |schedule|, |d.queue|
  {
    var rest := if schedule == [] then [] else schedule[1..];
    if schedule != [] && schedule[0] {
      FatesKept(o, late, SenderGoes(o, late, d), rest);
    } else if d.queue != [] {
      FatesKept(o, late, TakeOne(o, d), rest);
    }
  }

  /** A late sender panics if and only if its turn comes after the close: the fates are accepted and dropped ones, then
      panics. */
  lemma {:induction false} PanicsIffAfterClose(o: Options, late: seq<Record>, d: Drain, schedule: seq<bool>)
    requires |d.fates| <= |late| && !d.closed
    requires forall k :: 0 <= k < |d.fates| ==> Lucky(d.fates[k])
    ensures var fates, n := Drained(o, late, d, schedule).fates, SentBeforeClose(o, late, d, schedule);
      && |fates| == |late| && n <= |late|
      && forall k :: 0 <= k < |late| ==> if k < n then Lucky(fates[k]) else fates[k].Panicked?
    decreases |schedule|, if d.closing then 1 else 2, |d.queue|
  {
    var rest := if schedule == [] then [] else schedule[1..];
    if schedule != [] && schedule[0] {
      PanicsIffAfterClose(o, late, SenderGoes(o, late, d), rest);
    } else if d.closing {
      FatesKept(o, late, d.(closing := false, closed := true), rest);
    } else if d.queue != [] {
      PanicsIffAfterClose(o, late, TakeOne(o, d), rest);
    } else {
      PanicsIffAfterClose(o, late, d.(closing := true), rest);
    }
  }

  // ----- exactly when every exported batch obeys the packet rule

  ghost predicate AllFit(o: Options, exported: seq<seq<Record>>) {
    forall i :: 0 <= i < |exported| ==> Fits(o, exported[i])
  }

  /** What processQueue leaves behind. */
  ghost predicate DrainStart(o: Options, d: Drain) {
    && !d.closed && !d.closing && d.fates == [] && |d.queue| <= o.maxQueueSize && AllFit(o, d.exported)
    && (o.maxExportBatchSize >= 1 ==> |d.batch| < o.maxExportBatchSize)
    && d.batchedSize == TotalSize(d.batch) < o.maxPacketSize
  }

  ghost predicate DrainFits(o: Options, d: Drain) {
    && AllFit(o, d.exported)
    && (o.sizeRuleInDrain ==> d.batchedSize == TotalSize(d.batch) < o.maxPacketSize)
    && (o.maxExportBatchSize == 1 ==> d.batch == [])
  }

  lemma FlushedFits(o: Options, d: Drain)
    requires AllFit(o, d.exported) && Fits(o, d.batch)
    ensures AllFit(o, Flushed(d).exported)
  {
    hide Fits;
  }

  lemma TakeOneFits(o: Options, d: Drain)
    requires d.queue != [] && o.maxPacketSize > 0 && (o.sizeRuleInDrain || o.maxExportBatchSize == 1) && DrainFits(o, d)
    ensures DrainFits(o, TakeOne(o, d))
  {
    var batch := d.batch + [d.queue[0]];
    TotalSizeAppend(d.batch, d.queue[0]);
    TotalSizeEmpty(o);
    assert batch[..|batch| - 1] == d.batch;
    assert Fits(o, batch);
  }

  lemma {:induction false} DrainedFits(o: Options, late: seq<Record>, d: Drain, schedule: seq<bool>)
    requires |d.fates| <= |late| && o.maxPacketSize > 0 && (o.sizeRuleInDrain || o.maxExportBatchSize == 1)
    requires DrainFits(o, d)
    ensures AllFit(o, Drained(o, late, d, schedule).exported)
    decreases |schedule|, if d.closed then 0 else if d.closing then 1 else 2, |d.queue|
  {
    hide AllFit, TotalSize;
    var rest := if schedule == [] then [] else schedule[1..];
    if schedule != [] && schedule[0] {
      DrainedFits(o, late, SenderGoes(o, late, d), rest);
    } else if d.closing && !d.closed {
      DrainedFits(o, late, d.(closing := false, closed := true), rest);
    } else if d.queue != [] {
      TakeOneFits(o, d);
      DrainedFits(o, late, TakeOne(o, d), rest);
    } else if !d.closed {
      DrainedFits(o, late, d.(closing := true), rest);
    } else {
      LastFits(o, d);
      FlushedFits(o, d);
    }
  }

  lemma LastFits(o: Options, d: Drain)
    requires o.maxPacketSize > 0 && (o.sizeRuleInDrain || o.maxExportBatchSize == 1) && DrainFits(o, d)
    ensures Fits(o, d.batch)
  {
    if d.batch != [] {
      TotalSizeAppend(d.batch[..|d.batch| - 1], d.batch[|d.batch| - 1]);
      assert d.batch[..|d.batch| - 1] + [d.batch[|d.batch| - 1]] == d.batch;
    }
  }

  /** The rounds that drain two late senders, each on its own. */
  lemma TwoTaken(o: Options, late: seq<Record>, d: Drain)
    requires o.maxQueueSize >= 1 && o.maxExportBatchSize != 1 && !o.sizeRuleInDrain && |late| == 2
    requires d == Drain([], false, false, [], 0, [], 0, [])
    ensures var d2 := d.(batch := [late[0]], fates := [Accepted]);
      && TakeOne(o, SenderGoes(o, late, d)) == d2
      && TakeOne(o, SenderGoes(o, late, d2)) ==
           var d4 := d.(batch := late, fates := [Accepted, Accepted]);
           if o.maxExportBatchSize == 2 then Flushed(d4) else d4
  {
    assert [late[0]] + [late[1]] == late;
  }

  /** Two late senders, each drained on its own, end up in one batch. */
  lemma DrainBreaksRule(o: Options, big: Record, small: Record)
    requires o.maxQueueSize >= 1 && o.maxExportBatchSize != 1 && !o.sizeRuleInDrain
    ensures Drained(o, [big, small], Drain([], false, false, [], 0, [], 0, []), [true, false, true, false]).exported
         == [[big, small]]
  {
    var late, schedule := [big, small], [true, false, true, false];
    var d0 := Drain([], false, false, [], 0, [], 0, []);
    TwoTaken(o, late, d0);
    var d2 := d0.(batch := [big], fates := [Accepted]);
    var d4 := TakeOne(o, SenderGoes(o, late, d2));
    hide Drained, TakeOne;
    assert schedule[0..] == schedule;
    DrainedNext(o, late, d0, schedule, 0);
    DrainedNext(o, late, SenderGoes(o, late, d0), schedule, 1);
    DrainedNext(o, late, d2, schedule, 2);
    DrainedNext(o, late, SenderGoes(o, late, d2), schedule, 3);
    DrainedNext(o, late, d4, schedule, 4);
    DrainedNext(o, late, d4.(closing := true), schedule, 4);
    DrainedNext(o, late, d4.(closed := true), schedule, 4);
  }

  /** A record as large as a packet and any other one. */
  lemma TooLargeTogether(o: Options, big: Record, small: Record)
    requires big.size >= o.maxPacketSize
    ensures !Fits(o, [big, small])
  {
    TotalSizeEmpty(o);
    TotalSizeAppend([], big);
    assert [] + [big] == [big] && [big, small][..1] == [big];
  }

  lemma RuleBroken(o: Options) returns (late: seq<Record>, d: Drain, schedule: seq<bool>)
    requires o.maxQueueSize >= 1 && o.maxPacketSize > 0 && o.maxExportBatchSize != 1 && !o.sizeRuleInDrain
    ensures DrainStart(o, d) && !AllFit(o, Drained(o, late, d, schedule).exported)
  {
    var big, small := Record(0, o.maxPacketSize), Record(1, 0);
    late, d, schedule := [big, small], Drain([], false, false, [], 0, [], 0, []), [true, false, true, false];
    TotalSizeEmpty(o);
    assert DrainStart(o, d);
    DrainBreaksRule(o, big, small);
    TooLargeTogether(o, big, small);
    hide Drained, Fits;
    assert !Fits(o, Drained(o, late, d, schedule).exported[0]);
  }

  /** Whatever processQueue leaves behind and however late senders come in, every batch ever exported obeys the packet
      rule, if and only if the drain loop looks at sizes or batches hold one record. */
  lemma DrainPacketRuleIff(o: Options)
    requires o.maxQueueSize >= 1 && o.maxPacketSize > 0
    ensures (forall late, d, schedule :: DrainStart(o, d) ==> AllFit(o, Drained(o, late, d, schedule).exported))
       <==> o.sizeRuleInDrain || o.maxExportBatchSize == 1
  {
    hide Drained, AllFit;
    if o.sizeRuleInDrain || o.maxExportBatchSize == 1 {
      forall late, d, schedule | DrainStart(o, d)
        ensures AllFit(o, Drained(o, late, d, schedule).exported)
      {
        StartFits(o, d);
        DrainedFits(o, late, d, schedule);
      }
    } else {
      var late, d, schedule := RuleBroken(o);
    }
  }

  lemma StartFits(o: Options, d: Drain)
    requires DrainStart(o, d)
    ensures DrainFits(o, d)
  {}

  /** With the fixed options of sdk/log the rule can be broken, with otelzap's defaults it cannot. */
  lemma DefaultsDiffer()
    ensures exists late, d, schedule ::
      DrainStart(SDK_LOG_OPTIONS, d) && !AllFit(SDK_LOG_OPTIONS, Drained(SDK_LOG_OPTIONS, late, d, schedule).exported)
    ensures forall late, d, schedule ::
      DrainStart(ZAP_DEFAULT_OPTIONS, d) ==>
        AllFit(ZAP_DEFAULT_OPTIONS, Drained(ZAP_DEFAULT_OPTIONS, late, d, schedule).exported)
  {
    hide DrainStart, AllFit, Drained;
    DrainPacketRuleIff(SDK_LOG_OPTIONS);
    DrainPacketRuleIff(ZAP_DEFAULT_OPTIONS);
  }

  // ----- what the processor does, event by event

  datatype Whole = Whole(queue: seq<Record>, closed: bool, stopped: bool, batch: seq<Record>, batchedSize: int,
                         timer: Timer, dropped: nat, exported: seq<seq<Record>>, accepted: seq<Record>, phase: Phase)

  /** A fired timer exports the batch, whatever its size; a record that fills the batch, by count or by size, exports it
      at once and resets the timer, any other waits in the batch; a stop ends the loop. A case that is not ready
      changes nothing. */
  ghost predicate RunDone(o: Options, s: Whole, e: Event, t: Whole) {
    match e
    case PickStop => t == if s.stopped then s.(timer := s.timer.(armed := false), phase := Draining) else s
    case PickTick =>
      t == if s.timer.tick then
             s.(timer := Timer(true, false), batch := [], batchedSize := 0,
                exported := s.exported + if s.batch == [] then [] else [s.batch])
           else s
    case PickQueue =>
      if s.queue == [] then t == s
      else
        var grown, rest := s.batch + [s.queue[0]], s.(queue := s.queue[1..]);
        t == if |grown| == o.maxExportBatchSize || TotalSize(grown) >= o.maxPacketSize then
               rest.(timer := Timer(true, s.timer.armed && s.timer.tick), batch := [], batchedSize := 0,
                     exported := s.exported + [grown])
             else rest.(batch := grown, batchedSize := TotalSize(grown))
    case _ => t == s
  }

  /** The drain loop takes records one by one and exports the batch when it is due, by count, for otelzap also by size;
      it finds the open queue empty, closes it, and ends on the closed, empty one with the last export. */
  ghost predicate DrainDone(o: Options, s: Whole, e: Event, t: Whole) {
    match (s.phase, e)
    case (Draining, PickQueue) =>
      if s.queue == [] then t == s
      else
        var grown, size := s.batch + [s.queue[0]], s.batchedSize + if o.sizeRuleInDrain then s.queue[0].size else 0;
        var rest := s.(queue := s.queue[1..]);
        t == if |grown| == o.maxExportBatchSize || (o.sizeRuleInDrain && size >= o.maxPacketSize) then
               rest.(timer := rest.timer.(armed := true), batch := [], batchedSize := 0,
                     exported := s.exported + [grown])
             else rest.(batch := grown, batchedSize := size)
    case (Closing, PickDefault) => t == s.(closed := true, phase := Draining)
    case (Draining, PickDefault) =>
      if s.queue != [] then t == s
      else if !s.closed then t == s.(phase := Closing)
      else
        t == s.(timer := s.timer.(armed := true), batch := [], phase := Over,
                batchedSize := if s.batch == [] then s.batchedSize else 0,
                exported := s.exported + if s.batch == [] then [] else [s.batch])
    case _ => t == s
  }

  /** What an event makes of the processor, in whichever phase its worker is. A send on the closed queue panics. */
  ghost predicate EventDone(o: Options, s: Whole, e: Event, t: Whole) {
    match e
    case Send(r) =>
      if s.closed then t == s
      else if |s.queue| < o.maxQueueSize then t == s.(queue := s.queue + [r], accepted := s.accepted + [r])
      else t == s.(dropped := s.dropped + if o.blockOnQueueFull then 0 else 1)
    case CloseStop => t == s.(stopped := true)
    case TimerFires => t == if s.timer.armed then s.(timer := Timer(false, true)) else s
    case _ => if s.phase.Running? then RunDone(o, s, e, t) else DrainDone(o, s, e, t)
  }

  /** `states` are the states before and after each of the first events, each made by its event from the one before. */
  ghost predicate Chain(o: Options, events: seq<Event>, states: seq<Whole>, first: Whole, last: Whole) {
    && 0 < |states| <= |events| + 1 && states[0] == first && states[|states| - 1] == last
    && forall i :: 0 <= i < |states| - 1 ==> EventDone(o, states[i], events[i], states[i + 1])
  }

  lemma ChainStart(o: Options, events: seq<Event>, s: Whole)
    ensures Chain(o, events, [s], s, s)
  {}

  lemma ChainNext(o: Options, events: seq<Event>, states: seq<Whole>, first: Whole, last: Whole, next: Whole)
    requires Chain(o, events, states, first, last) && |states| <= |events|
    requires EventDone(o, last, events[|states| - 1], next)
    ensures Chain(o, events, states + [next], first, next)
  {
    hide EventDone;
  }

  class BatchProcessor {
    const o: Options
    var queue: seq<Record>
    var closed: bool
    var stopped: bool
    var batch: seq<Record>
    var batchedSize: int
    var timer: Timer
    var dropped: nat
    var exported: seq<seq<Record>>
    ghost var accepted: seq<Record>
    ghost var runExports: nat // batches exported by processQueue
    var phase: Phase

    /** Nothing lost, duplicated or reordered; every exported batch is non-empty and within the limits. */
    ghost predicate Valid()
      reads this
    {
      && Flatten(exported) + batch + queue == accepted
      && |queue| <= o.maxQueueSize
      && runExports <= |exported|
      && BatchesOk(o, exported, runExports)
      && (o.maxExportBatchSize >= 1 ==> |batch| <= o.maxExportBatchSize)
      && (Sized() ==> batchedSize == TotalSize(batch) && (o.maxPacketSize > 0 ==> Fits(o, batch)))
      && (phase.Running? ==> runExports == |exported| && !closed)
      && (closed ==> stopped)
    }

    /** The batch is kept under the packet rule: always in processQueue, in drainQueue only for otelzap. */
    ghost predicate Sized()
      reads this
    {
      o.sizeRuleInDrain || phase.Running?
    }

    ghost function Now(): (r: Whole)
      reads this
    {
      Whole(queue, closed, stopped, batch, batchedSize, timer, dropped, exported, accepted, phase)
    }

    /** The worker is at a select. */
    ghost predicate AtSelect()
      reads this
    {
      && Valid()
      && (o.maxExportBatchSize >= 1 ==> |batch| < o.maxExportBatchSize)
    }

    ghost predicate AtRunSelect()
      reads this
    {
      && AtSelect() && phase.Running?
      && (o.maxPacketSize > 0 ==> batchedSize < o.maxPacketSize)
      && (timer.armed || timer.tick)
    }

    /** The worker is at a select of the drain loop, or about to close the queue. */
    ghost predicate AtDrainSelect()
      reads this
    {
      && AtSelect() && stopped && (phase.Draining? || (phase.Closing? && !closed))
      && (o.sizeRuleInDrain && o.maxPacketSize > 0 ==> batchedSize < o.maxPacketSize)
    }

    /** The worker is at a select of its current phase, or at its end. */
    ghost predicate AtRest()
      reads this
    {
      match phase
      case Running => AtRunSelect()
      case Over => Valid() && closed && queue == [] && batch == []
      case _ => AtDrainSelect()
    }

    constructor (o: Options)
      ensures this.o == o && AtRunSelect() && accepted == [] && exported == [] && !stopped && dropped == 0
    {
      this.o := o;
      queue, closed, stopped, batch, batchedSize, timer, dropped := [], false, false, [], 0, Timer(true, false), 0;
      exported, accepted, runExports, phase := [], [], 0, Running;
    }

    /** A whole Enqueue call; `between` is what the worker, the timer, Shutdown and other senders do between its stop
        check and its send, and `states` the states they go through. It panics exactly if it saw no stop and the queue
        was closed by then, which takes interruption. */
    method Enqueue(r: Record, between: seq<Event>) returns (res: SendResult, ghost states: seq<Whole>)
      requires AtRest()
      modifies this
      ensures AtRest() && old(accepted) <= accepted && old(exported) <= exported
      ensures !old(stopped) ==>
        (var n := |between|;
         |states| == n + 1 && Chain(o, between, states, old(Now()), states[n])
         && EventDone(o, states[n], Send(r), Now()))
      ensures old(stopped) ==> Now() == old(Now())
      ensures res.Refused? <==> old(stopped)
      ensures res.Panicked? <==> !old(stopped) && closed
      ensures res.Panicked? ==> between != []
      ensures res.Accepted? ==> |accepted| > |old(accepted)| && accepted[|accepted| - 1] == r
      ensures res.Dropped? || res.Blocked? ==> |queue| >= o.maxQueueSize && (res.Blocked? <==> o.blockOnQueueFull)
    {
      hide Flatten, TotalSize, BatchesOk, Fits, Chain;
      if stopped {
        return Refused, [];
      }
      states := Others(between);
      res := SendToQueue(r);
    }

    /** Everybody else, in any order. */
    method Others(events: seq<Event>) returns (ghost states: seq<Whole>)
      requires AtRest()
      modifies this
      ensures AtRest() && old(accepted) <= accepted && old(exported) <= exported
      ensures |states| == |events| + 1 && Chain(o, events, states, old(Now()), Now()) && states[|events|] == Now()
      ensures (old(stopped) ==> stopped) && (old(closed) ==> closed) && (events == [] ==> closed == old(closed))
    {
      hide Flatten, TotalSize, BatchesOk, Fits, EventDone, Chain;
      states := [Now()];
      ChainStart(o, events, Now());
      for i := 0 to |events|
        invariant AtRest() && old(accepted) <= accepted && old(exported) <= exported
        invariant (old(stopped) ==> stopped) && (old(closed) ==> closed) && (i == 0 ==> closed == old(closed))
        invariant |states| == i + 1 && states[i] == Now() && Chain(o, events, states, old(Now()), Now())
      {
        ghost var before := Now();
        OneOf(events[i]);
        ChainNext(o, events, states, old(Now()), before, Now());
        states := states + [Now()];
      }
    }

    method OneOf(e: Event)
      requires AtRest()
      modifies this
      ensures AtRest() && EventDone(o, old(Now()), e, Now())
      ensures old(accepted) <= accepted && old(exported) <= exported
      ensures (old(stopped) ==> stopped) && (old(closed) ==> closed)
    {
      hide Flatten, TotalSize, BatchesOk, Fits;
      match e
      case Send(r) => SendOf(r);
      case CloseStop => Stop();
      case TimerFires => Fire();
      case _ => Round(e);
    }

    method Stop()
      requires AtRest()
      modifies this`stopped
      ensures AtRest() && stopped
    {
      stopped := true;
    }

    method Fire()
      requires AtRest()
      modifies this`timer
      ensures AtRest() && timer == if old(timer.armed) then Timer(false, true) else old(timer)
    {
      if timer.armed {
        timer := Timer(false, true);
      }
    }

    method SendOf(r: Record)
      requires AtRest()
      modifies this`queue, this`dropped, this`accepted
      ensures AtRest() && old(accepted) <= accepted && EventDone(o, old(Now()), Send(r), Now())
    {
      hide Flatten, TotalSize, BatchesOk, Fits;
      var _ := SendToQueue(r);
    }

    /** One round of the worker, in whichever loop it is. */
    method Round(e: Event)
      requires AtRest() && !e.Send? && !e.CloseStop? && !e.TimerFires?
      modifies this`queue, this`closed, this`batch, this`batchedSize, this`timer, this`exported, this`runExports,
        this`phase
      ensures AtRest() && old(exported) <= exported && (old(closed) ==> closed)
      ensures EventDone(o, old(Now()), e, Now())
    {
      hide Flatten, TotalSize, BatchesOk, Fits;
      if phase.Running? {
        RunRound(e);
        return;
      }
      match (e, phase)
      case (PickQueue, Draining) =>
        if queue != [] {
          DrainOne([]);
        }
      case (PickDefault, Closing) =>
        closed := true;
        phase := Draining;
      case (PickDefault, Draining) =>
        if queue == [] && !closed {
          phase := Closing;
        } else if queue == [] {
          Export();
          phase := Over;
        }
      case _ =>
    }

    /** The send of an Enqueue call whose stop check has passed. A send on the closed queue panics. */
    method SendToQueue(r: Record) returns (res: SendResult)
      requires Valid()
      modifies this`queue, this`dropped, this`accepted
      ensures Valid()
      ensures res ==
        if closed then Panicked
        else if |old(queue)| < o.maxQueueSize then Accepted
        else if o.blockOnQueueFull then Blocked
        else Dropped
      ensures queue == if res.Accepted? then old(queue) + [r] else old(queue)
      ensures accepted == if res.Accepted? then old(accepted) + [r] else old(accepted)
      ensures dropped == old(dropped) + if res.Dropped? then 1 else 0
    {
      if closed {
        return Panicked;
      }
      if |queue| < o.maxQueueSize {
        assert Flatten(exported) + batch + (queue + [r]) == (Flatten(exported) + batch + queue) + [r];
        queue := queue + [r];
        accepted := accepted + [r];
        return Accepted;
      }
      if o.blockOnQueueFull {
        return Blocked;
      }
      dropped := dropped + 1;
      return Dropped;
    }

    /** Resets the timer and hands the batch, if any, to the exporter. */
    method Export()
      requires Valid()
      modifies this`timer, this`exported, this`runExports, this`batch, this`batchedSize
      ensures Valid() && batch == [] && timer == old(timer).(armed := true)
      ensures old(batch) != [] ==> exported == old(exported) + [old(batch)] && batchedSize == 0
      ensures old(batch) == [] ==> exported == old(exported) && batchedSize == old(batchedSize)
      ensures phase.Running? ==> runExports == |exported|
      ensures !phase.Running? ==> runExports == old(runExports)
    {
      hide Flatten, TotalSize, BatchesOk, Fits;
      timer := timer.(armed := true);
      if |batch| > 0 {
        ExportKeeps(o, exported, batch, queue, runExports, if phase.Running? then |exported| + 1 else runExports);
        exported := exported + [batch];
        batch := [];
        batchedSize := 0;
        if phase.Running? {
          runExports := |exported|;
        }
        TotalSizeEmpty(o);
      }
    }

    predicate ShouldProcessInBatch()
      reads this
    {
      |batch| == o.maxExportBatchSize || batchedSize >= o.maxPacketSize
    }

    /** Moves the head of the queue to the batch. */
    method TakeIntoBatch(count: bool)
      requires AtSelect() && queue != [] && (count <==> Sized())
      requires count && o.maxPacketSize > 0 ==> batchedSize < o.maxPacketSize
      modifies this`queue, this`batch, this`batchedSize
      ensures Valid() && batch == old(batch) + [old(queue)[0]] && queue == old(queue)[1..]
      ensures batchedSize == old(batchedSize) + if count then old(queue)[0].size else 0
    {
      var r := queue[0];
      TotalSizeAppend(batch, r);
      assert Flatten(exported) + (batch + [r]) + queue[1..] == Flatten(exported) + batch + queue;
      assert (batch + [r])[..|batch|] == batch;
      queue := queue[1..];
      batch := batch + [r];
      if count {
        batchedSize := batchedSize + r.size;
      }
    }

    /** A round that finds the queue ready. */
    method ReceiveOne()
      requires AtRunSelect() && queue != []
      modifies this`queue, this`batch, this`batchedSize, this`timer, this`exported, this`runExports
      ensures AtRunSelect() && EventDone(o, old(Now()), PickQueue, Now())
    {
      hide Flatten, BatchesOk, Fits;
      TakeIntoBatch(true);
      hide TotalSize;
      if ShouldProcessInBatch() {
        var active := timer.armed;
        timer := timer.(armed := false);
        if !active {
          assert timer.tick; // the receive does not block
          timer := timer.(tick := false);
        }
        Export();
      }
    }

    method TakeTick()
      requires AtRunSelect() && timer.tick
      modifies this`timer, this`exported, this`runExports, this`batch, this`batchedSize
      ensures AtRunSelect() && EventDone(o, old(Now()), PickTick, Now())
    {
      hide Flatten, BatchesOk, Fits;
      TotalSizeEmpty(o);
      hide TotalSize;
      timer := timer.(tick := false);
      Export();
    }

    /** A round of the run loop, given the case its select takes. */
    method RunRound(e: Event)
      requires AtRunSelect() && !e.Send? && !e.CloseStop? && !e.TimerFires?
      modifies this`queue, this`batch, this`batchedSize, this`timer, this`exported, this`runExports, this`phase
      ensures EventDone(o, old(Now()), e, Now()) && old(exported) <= exported
      ensures if e.PickStop? && stopped then phase.Draining? && AtDrainSelect() && Rested() else AtRunSelect()
    {
      hide Flatten, TotalSize, BatchesOk, Fits;
      match e
      case PickStop =>
        if stopped {
          timer := timer.(armed := false);
          phase := Draining;
        }
      case PickTick =>
        if timer.tick {
          TakeTick();
        }
      case PickQueue =>
        if queue != [] {
          ReceiveOne();
        }
      case _ => // this select has no default
    }

    /** What the run loop leaves to the drain loop. */
    ghost predicate Rested()
      reads this
    {
      && runExports == |exported| && !closed && !timer.armed
      && batchedSize == TotalSize(batch) && (o.maxPacketSize > 0 ==> batchedSize < o.maxPacketSize)
    }

    method OneEvent(e: Event)
      requires AtRunSelect()
      modifies this
      ensures EventDone(o, old(Now()), e, Now()) && old(accepted) <= accepted && old(exported) <= exported
      ensures if e.PickStop? && stopped then phase.Draining? && AtDrainSelect() && Rested() else AtRunSelect()
    {
      hide Flatten, TotalSize, BatchesOk, Fits;
      match e
      case Send(r) => var _ := SendToQueue(r);
      case CloseStop => Stop();
      case TimerFires => Fire();
      case _ => RunRound(e);
    }

    /** The run loop among all the others. `states` are the states before and after each event: every event does what it
        should, from the state the last one left, and only a stop ends the loop. */
    method ProcessQueue(events: seq<Event>) returns (returned: bool, ghost states: seq<Whole>)
      requires AtRunSelect()
      modifies this
      ensures old(accepted) <= accepted && old(exported) <= exported
      ensures if returned then stopped && phase.Draining? && AtDrainSelect() && Rested() else AtRunSelect()
      ensures Chain(o, events, states, old(Now()), Now()) && (!returned ==> |states| == |events| + 1)
    {
      hide Flatten, TotalSize, BatchesOk, Fits, EventDone, Chain;
      states := [Now()];
      ChainStart(o, events, Now());
      for i := 0 to |events|
        invariant AtRunSelect() && old(accepted) <= accepted && old(exported) <= exported
        invariant |states| == i + 1 && Chain(o, events, states, old(Now()), Now())
      {
        ghost var before := Now();
        OneEvent(events[i]);
        ChainNext(o, events, states, old(Now()), before, Now());
        states := states + [Now()];
        if events[i].PickStop? && stopped {
          return true, states;
        }
      }
      return false, states;
    }

    /** Since the given history, the first `|fates|` late records had the given fates: the accepted ones follow in
        order, the dropped ones were counted. */
    ghost predicate Fated(late: seq<Record>, fates: seq<SendResult>, accepted0: seq<Record>, dropped0: nat)
      reads this
    {
      && |fates| <= |late|
      && accepted == accepted0 + Those(late, fates, Accepted)
      && dropped == dropped0 + |Those(late, fates, Dropped)|
      && forall k :: 0 <= k < |fates| ==> fates[k].Accepted? || fates[k].Dropped? || fates[k].Panicked?
    }

    lemma NoFates(late: seq<Record>)
      ensures Fated(late, [], accepted, dropped)
    {
      ThoseEmpty(late);
      assert accepted + [] == accepted;
    }

    lemma RestPanics(late: seq<Record>, fates: seq<SendResult>, accepted0: seq<Record>, dropped0: nat)
      requires Fated(late, fates, accepted0, dropped0)
      ensures Fated(late, fates + AllPanicked(|late| - |fates|), accepted0, dropped0)
    {
      ThosePanicked(late, fates, |late| - |fates|);
    }

    /** The next of the late senders, if there is one, sends; it stays where it is if it blocks. */
    method SendLate(late: seq<Record>, fates: seq<SendResult>, ghost accepted0: seq<Record>, ghost dropped0: nat)
        returns (after: seq<SendResult>)
      requires Valid() && Fated(late, fates, accepted0, dropped0)
      modifies this`queue, this`dropped, this`accepted
      ensures Valid() && Fated(late, after, accepted0, dropped0)
      ensures Snapshot(after) == SenderGoes(o, late, old(Snapshot(fates))) && (closed ==> queue == old(queue))
    {
      hide Flatten, TotalSize, BatchesOk, Fits, Those;
      after := fates;
      if |fates| < |late| {
        var res := SendToQueue(late[|fates|]);
        ThoseNext(late, fates, res);
        if !res.Blocked? {
          after := fates + [res];
        }
      }
    }

    ghost function Snapshot(fates: seq<SendResult>): (r: Drain)
      reads this
    {
      Drain(queue, phase.Closing?, closed, batch, batchedSize, exported, dropped, fates)
    }

    /** The drain loop. `late` are the records of Enqueue calls that passed their stop check before Shutdown and have
        yet to send. Where the schedule says true the next of them sends, elsewhere the worker goes round its loop.
        `fates` says, record by record, what became of them. */
    method DrainQueue(late: seq<Record>, schedule: seq<bool>) returns (fates: seq<SendResult>)
      requires AtDrainSelect() && phase.Draining? && !closed
      modifies this
      ensures AtRest() && phase.Over?
      ensures Snapshot(fates) == Drained(o, late, old(Snapshot([])), schedule)
      ensures |fates| == |late| && Fated(late, fates, old(accepted), old(dropped))
      ensures accepted == Flatten(exported) && old(exported) <= exported
      ensures schedule == [] ==> forall k :: 0 <= k < |fates| ==> fates[k].Panicked?
    {
      hide Flatten, TotalSize, BatchesOk, Fits, Drained, Those, TakeOne;
      fates := [];
      NoFates(late);
      assert schedule[0..] == schedule;
      var i := 0;
      while true
        invariant AtDrainSelect() && i <= |schedule|
        invariant Fated(late, fates, old(accepted), old(dropped)) && old(exported) <= exported
        invariant Drained(o, late, Snapshot(fates), schedule[i..]) == Drained(o, late, old(Snapshot([])), schedule)
        invariant schedule == [] ==> fates == []
        decreases |schedule| - i, if closed then 0 else if phase.Closing? then 1 else 2, |queue|
      {
        DrainedNext(o, late, Snapshot(fates), schedule, i);
        var othersRun := i < |schedule| && schedule[i];
        i := if i < |schedule| then i + 1 else i;
        if othersRun {
          fates := SendLate(late, fates, old(accepted), old(dropped));
        } else if phase.Closing? {
          closed := true;
          phase := Draining;
        } else if queue != [] {
          DrainOne(fates);
        } else if !closed {
          phase := Closing;
        } else {
          Export();
          phase := Over;
          assert Flatten(exported) + [] + [] == Flatten(exported);
          RestPanics(late, fates, old(accepted), old(dropped));
          fates := fates + AllPanicked(|late| - |fates|);
          return;
        }
      }
    }

    /** One record goes from the queue to the batch, which is exported if it is due. */
    method DrainOne(ghost fates: seq<SendResult>)
      requires AtDrainSelect() && phase.Draining? && queue != []
      modifies this`queue, this`batch, this`batchedSize, this`timer, this`exported, this`runExports
      ensures AtDrainSelect() && Snapshot(fates) == TakeOne(o, old(Snapshot(fates)))
      ensures queue == old(queue)[1..] && old(exported) <= exported
      ensures var grown := old(batch) + [old(queue)[0]];
        if |grown| == o.maxExportBatchSize
           || (o.sizeRuleInDrain && old(batchedSize) + old(queue)[0].size >= o.maxPacketSize)
        then exported == old(exported) + [grown] && batch == [] && timer == old(timer).(armed := true)
        else exported == old(exported) && batch == grown && timer == old(timer)
    {
      hide Flatten, TotalSize, BatchesOk, Fits;
      TakeIntoBatch(o.sizeRuleInDrain);
      if |batch| == o.maxExportBatchSize || (o.sizeRuleInDrain && ShouldProcessInBatch()) {
        Export();
      }
    }
  }
}
