/** Exactly when a ForceFlush call can return nil although a span accepted before it has not reached the exporter. */
module SpanMiss {
  import opened Prelude
  import opened SpanPipeline
  import opened SpanInvariants
  import opened SpanTheorems
  import opened SpanGuarantees
  import opened SpanRelease

  /** The call has returned nil, and not all the given spans belong to ExportSpans calls that have returned. */
  ghost predicate Missed(s: State, c: ClientId, spans: seq<Span>) {
    && s.returned <= |s.exported|
    && c in s.clients && s.clients[c].Returned? && s.clients[c].ok
    && !(spans <= Spans(Flatten(s.exported[..s.returned])))
  }

  // ----- nothing is missed if nothing was left in the queue or in the worker's hand

  /** `n` spans are past the queue; once call `c` has exported or found the batch empty, they are exported. */
  ghost predicate CoversInv(s: State, c: ClientId, n: nat) {
    && s.returned <= |s.exported|
    && n <= |Spans(Batched(s))|
    && (c in s.clients ==>
          && (s.clients[c].FlushExporting? ==> n <= HandedCount(s))
          && (s.clients[c].Finished? || s.clients[c].Returned? ==> n <= DoneCount(s)))
  }

  lemma CoversFrame(s: State, s': State, c: ClientId, n: nat)
    requires CoversInv(s, c, n) && Grows(s, s')
    requires c in s'.clients ==> c in s.clients && s'.clients[c] == s.clients[c]
    ensures CoversInv(s', c, n)
  {
    hide Spans, Flatten, Batched, HandedCount, DoneCount;
  }

  lemma AllReturned(s: State)
    requires s.returned == |s.exported|
    ensures DoneCount(s) == HandedCount(s)
  {
    assert s.exported[..s.returned] == s.exported;
  }

  lemma CoversLock(o: Options, s: State, c: ClientId, n: nat)
    requires ClientEnabled(o, s, c, ClientLock) && MutexInv(s) && CoversInv(s, c, n)
    ensures CoversInv(Apply(o, s, Client(c, ClientLock)), c, n)
  {
    hide Spans, Flatten;
    ClientGrows(o, s, c, ClientLock);
    if s.batch == [] {
      AllReturned(s);
      assert Batched(s) == Flatten(s.exported);
    } else {
      ExportGrows(s, ByClient(c));
    }
  }

  lemma CoversExported(o: Options, s: State, c: ClientId, ok: bool, n: nat)
    requires ClientEnabled(o, s, c, ClientExported(ok)) && MutexInv(s) && CoversInv(s, c, n)
    ensures CoversInv(Apply(o, s, Client(c, ClientExported(ok))), c, n)
  {
    hide Spans, Flatten;
    ClientGrows(o, s, c, ClientExported(ok));
    FinishGrows(s);
    AllReturned(FinishExport(s));
  }

  lemma CoversOwn(o: Options, s: State, c: ClientId, step: ClientStep, n: nat)
    requires ClientEnabled(o, s, c, step) && MutexInv(s) && CoversInv(s, c, n)
    ensures CoversInv(Apply(o, s, Client(c, step)), c, n)
  {
    match step
    case ClientLock => CoversLock(o, s, c, n);
    case ClientExported(ok) => CoversExported(o, s, c, ok, n);
    case _ =>
      ClientGrows(o, s, c, step);
      hide Spans, Flatten, Batched, HandedCount, DoneCount;
  }

  lemma CoversStep(o: Options, s: State, a: Action, c: ClientId, n: nat)
    requires Enabled(o, s, a) && MutexInv(s) && CoversInv(s, c, n)
    ensures CoversInv(Apply(o, s, a), c, n)
  {
    hide CoversInv, Grows, MutexInv;
    match a
    case Client(d, step) =>
      if d == c {
        CoversOwn(o, s, c, step, n);
      } else {
        ClientGrows(o, s, d, step);
        CoversFrame(s, Apply(o, s, a), c, n);
      }
    case Worker(work) =>
      WorkerGrows(o, s, work);
      WorkerFrame(o, s, work);
      CoversFrame(s, Apply(o, s, a), c, n);
    case _ =>
      ReturnedBound(s, c, n);
      SameDataGrows(s, Apply(o, s, a));
      CoversFrame(s, Apply(o, s, a), c, n);
  }

  lemma ReturnedBound(s: State, c: ClientId, n: nat)
    requires CoversInv(s, c, n)
    ensures s.returned <= |s.exported|
  {}

  lemma {:induction false} CoversRun(o: Options, s: State, acts: seq<Action>, c: ClientId, n: nat)
    requires Inv(o, s) && CoversInv(s, c, n) && RunFrom(o, s, acts).Some?
    ensures CoversInv(RunFrom(o, s, acts).value, c, n) && s.accepted <= RunFrom(o, s, acts).value.accepted
    decreases |acts|
  {
    hide Inv, CoversInv, Apply;
    if acts != [] {
      var init, a := acts[..|acts| - 1], acts[|acts| - 1];
      CoversRun(o, s, init, c, n);
      InvRun(o, s, init);
      var m := RunFrom(o, s, init).value;
      assert MutexInv(m) by {
        InvParts(o, m);
      }
      CoversStep(o, m, a, c, n);
      AcceptedGrows(o, m, a);
    }
  }

  lemma InvParts(o: Options, s: State)
    requires Inv(o, s)
    ensures MutexInv(s) && PhaseInv(s)
  {}

  lemma AcceptedGrows(o: Options, s: State, a: Action)
    requires Enabled(o, s, a)
    ensures s.accepted <= Apply(o, s, a).accepted
  {
    match a
    case Worker(work) => WorkerFrame(o, s, work);
    case _ =>
  }

  lemma CoversStart(o: Options, s: State, c: ClientId)
    requires Inv(o, s) && c !in s.clients && Spans(Hand(s.worker)) + Spans(s.queue) == []
    ensures CoversInv(s, c, |Spans(s.accepted)|)
  {
    hide Spans, Flatten, BoundsInv, PacketInv, WaitingInv, FlushInv1, TimerInv, MarkerFreeInv, PhaseInv, QueueInv;
  }

  lemma CoversDone(s: State, c: ClientId, n: nat)
    requires CoversInv(s, c, n) && c in s.clients && s.clients[c].Returned?
    ensures s.returned <= |s.exported| && n <= |Spans(Flatten(s.exported[..s.returned]))|
  {
    hide Spans, Flatten;
  }

  lemma NothingMissed(o: Options, s: State, acts: seq<Action>, c: ClientId)
    requires Reachable(o, s) && c !in s.clients && RunFrom(o, s, acts).Some?
    requires Spans(Hand(s.worker)) + Spans(s.queue) == []
    ensures !Missed(RunFrom(o, s, acts).value, c, Spans(s.accepted))
  {
    hide Spans, Flatten, RunFrom, Batched, Hand, Inv, CoversInv, HandedCount;
    ReachableInv(o, s);
    var s', n := RunFrom(o, s, acts).value, |Spans(s.accepted)|;
    CoversStart(o, s, c);
    CoversRun(o, s, acts, c, n);
    InvRun(o, s, acts);
    if c in s'.clients && s'.clients[c].Returned? {
      CoversDone(s', c, n);
      assert s'.accepted[..|s.accepted|] == s.accepted;
      SpansPrefix(s'.accepted, |s.accepted|);
      DonePrefix(o, s');
      ShorterPrefix(Spans(s.accepted), Spans(Flatten(s'.exported[..s'.returned])), Spans(s'.accepted));
    }
  }

  lemma DonePrefix(o: Options, s: State)
    requires Inv(o, s)
    ensures s.returned <= |s.exported| && Spans(Flatten(s.exported[..s.returned])) <= Spans(s.accepted)
  {
    hide Spans, Flatten;
    FlattenMonotone(s.exported, s.returned, |s.exported|);
    assert s.exported[..|s.exported|] == s.exported;
    SpansConcat(Flatten(s.exported), Pending(s));
  }

  // ----- the run that misses what is left there

  /** The queue, the worker's hand and the history of sends are as they were. */
  ghost predicate Kept(s: State, m: State) {
    m.queue == s.queue && Hand(m.worker) == Hand(s.worker) && m.accepted == s.accepted && m.stopped
  }

  /** No Shutdown, and the call's own context is not done. */
  ghost predicate Undisturbed(acts: seq<Action>, c: ClientId) {
    forall i :: 0 <= i < |acts| ==> acts[i] != Shutdown && acts[i] != Client(c, Cancel)
  }

  predicate Gentle(a: Action) {
    (a.Client? && !a.step.SendItem? && !a.step.Cancel?) || a == Worker(Exported(true))
  }

  ghost predicate AllGentle(acts: seq<Action>) {
    forall i :: 0 <= i < |acts| ==> Gentle(acts[i])
  }

  lemma GentleStep(o: Options, s: State, acts: seq<Action>, m: State, a: Action) returns (acts': seq<Action>, m': State)
    requires RunFrom(o, s, acts) == Some(m) && Enabled(o, m, a) && Gentle(a) && Kept(s, m) && AllGentle(acts)
    ensures m' == Apply(o, m, a) && RunFrom(o, s, acts') == Some(m') && Kept(s, m') && AllGentle(acts')
  {
    hide RunFrom, Apply, Enabled;
    acts', m' := acts + [a], Apply(o, m, a);
    RunOne(o, m, a);
    RunConcat(o, s, acts, [a]);
    GentleKeeps(o, m, a);
  }

  lemma GentleKeeps(o: Options, m: State, a: Action)
    requires Enabled(o, m, a) && Gentle(a) && m.stopped
    ensures Kept(m, Apply(o, m, a))
  {
    if a.Client? {
      QuietEffect(o, m, a.c, a.step);
    }
  }

  lemma QuietEffect(o: Options, m: State, c: ClientId, step: ClientStep)
    requires ClientEnabled(o, m, c, step) && !step.SendItem?
    ensures var e := ClientEffect(o, m, c, step);
      e.queue == m.queue && e.worker == m.worker && e.accepted == m.accepted && e.stopped == m.stopped
  {}

  /** An export that holds the mutex returns. */
  lemma Released(o: Options, s: State, acts: seq<Action>, m: State, c: ClientId) returns (acts': seq<Action>, m': State)
    requires RunFrom(o, s, acts) == Some(m) && Kept(s, m) && AllGentle(acts) && MutexInv(m)
    requires c in m.clients && m.clients[c].FlushLock?
    ensures RunFrom(o, s, acts') == Some(m') && Kept(s, m') && AllGentle(acts') && m'.mutex.Free?
    ensures c in m'.clients && m'.clients[c] == m.clients[c]
  {
    hide AllGentle;
    acts', m' := acts, m;
    if m.mutex.ByClient? {
      acts', m' := GentleStep(o, s, acts, m, Client(m.mutex.c, ClientExported(true)));
    } else if m.mutex.ByWorker? {
      acts', m' := GentleStep(o, s, acts, m, Worker(Exported(true)));
    }
  }

  /** The call takes a step other than a send or giving up. */
  lemma CallStep(o: Options, s: State, acts: seq<Action>, m: State, c: ClientId, step: ClientStep)
      returns (acts': seq<Action>, m': State)
    requires RunFrom(o, s, acts) == Some(m) && Kept(s, m) && AllGentle(acts)
    requires ClientEnabled(o, m, c, step) && !step.SendItem? && !step.Cancel?
    ensures RunFrom(o, s, acts') == Some(m') && Kept(s, m') && AllGentle(acts')
    ensures c in m'.clients && m'.clients[c] == ClientNext(o, m, c, step)
  {
    hide RunFrom, ClientEnabled, ClientNext, AllGentle;
    acts', m' := GentleStep(o, s, acts, m, Client(c, step));
  }

  /** The call finds the processor stopped and goes straight to its export. */
  lemma CallToLock(o: Options, s: State, c: ClientId) returns (acts: seq<Action>, m: State)
    requires s.stopped && c !in s.clients
    ensures RunFrom(o, s, acts) == Some(m) && Kept(s, m) && AllGentle(acts)
    ensures c in m.clients && m.clients[c] == FlushLock(None, true)
  {
    acts, m := [], s;
    assert AllGentle([]);
    hide AllGentle;
    acts, m := CallStep(o, s, acts, m, c, StartForceFlush);
    hide RunFrom, Kept;
    KeptStopped(s, m);
    acts, m := CallStep(o, s, acts, m, c, CheckStop);
    acts, m := CallStep(o, s, acts, m, c, ClientReset);
  }

  /** The call exports the current batch, if any, and returns nil. */
  lemma CallFromLock(o: Options, s: State, acts: seq<Action>, m: State, c: ClientId)
      returns (acts': seq<Action>, m': State)
    requires RunFrom(o, s, acts) == Some(m) && Kept(s, m) && AllGentle(acts) && m.mutex.Free?
    requires c in m.clients && m.clients[c] == FlushLock(None, true)
    ensures RunFrom(o, s, acts') == Some(m') && Kept(s, m') && AllGentle(acts')
    ensures c in m'.clients && m'.clients[c] == Returned(None, true)
  {
    hide RunFrom, Kept, AllGentle;
    acts', m' := CallStep(o, s, acts, m, c, ClientLock);
    if m'.clients[c].FlushExporting? {
      acts', m' := CallStep(o, s, acts', m', c, ClientExported(true));
    }
    acts', m' := CallStep(o, s, acts', m', c, Deliver);
  }

  /** A call to a stopped processor can be over, with nil, before anything else has left the queue. */
  lemma LateCall(o: Options, s: State, c: ClientId) returns (acts: seq<Action>, m: State)
    requires Inv(o, s) && s.stopped && c !in s.clients
    ensures RunFrom(o, s, acts) == Some(m) && Kept(s, m) && Undisturbed(acts, c)
    ensures c in m.clients && m.clients[c] == Returned(None, true)
  {
    hide RunFrom, Kept, MutexInv, PhaseInv, AllGentle;
    acts, m := CallToLock(o, s, c);
    InvRun(o, s, acts);
    InvParts(o, m);
    hide Inv;
    acts, m := Released(o, s, acts, m, c);
    acts, m := CallFromLock(o, s, acts, m, c);
    GentleUndisturbed(acts, c);
  }

  lemma GentleUndisturbed(acts: seq<Action>, c: ClientId)
    requires AllGentle(acts)
    ensures Undisturbed(acts, c)
  {}

  lemma KeptStopped(s: State, m: State)
    requires Kept(s, m)
    ensures m.stopped
  {}

  lemma LeftBehind(o: Options, s: State, m: State, c: ClientId)
    requires Inv(o, m) && Kept(s, m) && c in m.clients && m.clients[c] == Returned(None, true)
    requires Spans(Hand(s.worker)) + Spans(s.queue) != []
    ensures Missed(m, c, Spans(s.accepted))
  {
    hide Spans, Flatten;
    FlattenMonotone(m.exported, m.returned, |m.exported|);
    assert m.exported[..|m.exported|] == m.exported;
    SpansConcat(Flatten(m.exported), Pending(m));
  }

  // ----- nothing is missed by a call that is not disturbed

  /** The processor is not stopped, and a call that is past its send has its marker at or behind position `n`. */
  ghost predicate MarkedInv(s: State, c: ClientId, n: nat) {
    && !s.stopped && n <= |s.accepted|
    && (c in s.clients ==> MarkedFrom(s.clients[c], n))
  }

  predicate MarkedFrom(pc: ClientPc, n: nat) {
    match pc
    case Check(_) => true
    case Send(_) => true
    case EndDone(_) => true
    case Cancelled(_) => false
    case _ => MarkerPos(pc).Some? && MarkerPos(pc).value >= n
  }

  lemma MarkedOwn(o: Options, s: State, c: ClientId, step: ClientStep, n: nat)
    requires ClientEnabled(o, s, c, step) && !step.Cancel? && !s.stopped && !s.closed && MarkedInv(s, c, n)
    ensures MarkedFrom(ClientNext(o, s, c, step), n)
  {
    match step
    case StartOnEnd(_) =>
    case StartForceFlush =>
    case CheckStop =>
    case SendItem =>
    case Drop =>
    case SeeFlushed =>
    case ClientReset =>
    case ClientLock =>
    case ClientExported(_) =>
    case Deliver =>
  }

  lemma MarkedStep(o: Options, s: State, a: Action, c: ClientId, n: nat)
    requires Enabled(o, s, a) && PhaseInv(s) && MarkedInv(s, c, n) && a != Client(c, Cancel)
    ensures !Apply(o, s, a).stopped ==> MarkedInv(Apply(o, s, a), c, n)
  {
    AcceptedGrows(o, s, a);
    match a
    case Client(d, step) =>
      if d == c {
        MarkedOwn(o, s, c, step, n);
      }
    case Worker(work) => WorkerFrame(o, s, work);
    case _ =>
  }

  lemma OnlyShutdownStops(o: Options, s: State, a: Action)
    requires Enabled(o, s, a) && a != Shutdown
    ensures Apply(o, s, a).stopped == s.stopped
  {
    match a
    case Worker(work) =>
    case Client(c, step) =>
    case _ =>
  }

  /** The stop signal is never taken back. */
  lemma StopStays(o: Options, s: State, a: Action)
    requires Enabled(o, s, a) && s.stopped
    ensures Apply(o, s, a).stopped
  {
    if a != Shutdown {
      OnlyShutdownStops(o, s, a);
    }
  }

  lemma {:induction false} MarkedRun(o: Options, s: State, acts: seq<Action>, c: ClientId)
    requires Inv(o, s) && c !in s.clients && RunFrom(o, s, acts).Some? && !RunFrom(o, s, acts).value.stopped
    requires forall i :: 0 <= i < |acts| ==> acts[i] != Client(c, Cancel)
    ensures MarkedInv(RunFrom(o, s, acts).value, c, |s.accepted|) && s.accepted <= RunFrom(o, s, acts).value.accepted
    decreases |acts|
  {
    hide Inv, Apply;
    if acts != [] {
      var init, a := acts[..|acts| - 1], acts[|acts| - 1];
      var m := RunFrom(o, s, init).value;
      if m.stopped {
        StopStays(o, m, a);
      }
      MarkedRun(o, s, init, c);
      InvRun(o, s, init);
      InvParts(o, m);
      MarkedStep(o, m, a, c, |s.accepted|);
      AcceptedGrows(o, m, a);
    }
  }

  /** The documented promise: over any run after which the processor is not stopped, and in which the call's context was
      not done, a ForceFlush call that has returned nil has delivered everything accepted before it began. */
  lemma ForceFlushKeepsPromise(o: Options, s: State, acts: seq<Action>, c: ClientId)
    requires Reachable(o, s) && c !in s.clients && RunFrom(o, s, acts).Some? && !RunFrom(o, s, acts).value.stopped
    requires forall i :: 0 <= i < |acts| ==> acts[i] != Client(c, Cancel)
    ensures !Missed(RunFrom(o, s, acts).value, c, Spans(s.accepted))
  {
    hide RunFrom, Inv, Spans, Flatten;
    ReachableInv(o, s);
    MarkedRun(o, s, acts, c);
    var s' := RunFrom(o, s, acts).value;
    if c in s'.clients && s'.clients[c].Returned? {
      ReachableRun(o, s, acts);
      ForceFlushDelivers(o, s', c);
      var pos := s'.clients[c].marker.value;
      assert s'.accepted[..pos][..|s.accepted|] == s.accepted;
      SpansPrefix(s'.accepted[..pos], |s.accepted|);
    }
  }

  lemma ReachableRun(o: Options, s: State, acts: seq<Action>)
    requires Reachable(o, s) && RunFrom(o, s, acts).Some?
    ensures Reachable(o, RunFrom(o, s, acts).value)
  {
    hide RunFrom;
    var before :| RunFrom(o, Init(), before) == Some(s);
    RunConcat(o, Init(), before, acts);
  }

  /** A ForceFlush call goes on to its export without a marker in exactly three ways: it finds the stop signal, its send
      hits the closed queue, or its context is done while it waits for room. */
  lemma NoMarkerIff(o: Options, s: State, a: Action, c: ClientId)
    requires Enabled(o, s, a) && c in s.clients
    requires (s.clients[c].Check? || s.clients[c].Send?) && s.clients[c].call.Flush?
    ensures Apply(o, s, a).clients[c] == FlushReset(None, true)
       <==> (a == Client(c, CheckStop) && s.stopped) || (a == Client(c, SendItem) && s.closed) || a == Client(c, Cancel)
  {
    match a
    case Worker(work) => WorkerFrame(o, s, work);
    case _ =>
  }

  lemma {:induction false} UndisturbedRun(o: Options, s: State, acts: seq<Action>, c: ClientId)
    requires !s.stopped && RunFrom(o, s, acts).Some? && Undisturbed(acts, c)
    ensures !RunFrom(o, s, acts).value.stopped
    decreases |acts|
  {
    hide Apply;
    if acts != [] {
      var init, a := acts[..|acts| - 1], acts[|acts| - 1];
      UndisturbedRun(o, s, init, c);
      OnlyShutdownStops(o, RunFrom(o, s, init).value, a);
    }
  }

  /** A ForceFlush call about to begin, that no Shutdown and no done context disturbs, can return nil without everything
      accepted before it having been exported if and only if the processor is stopped already and a span is still in the
      queue or in the worker's hand. */
  lemma UndisturbedMissIff(o: Options, s: State, c: ClientId)
    requires Reachable(o, s) && c !in s.clients
    ensures (exists acts :: RunFrom(o, s, acts).Some? && Undisturbed(acts, c)
                            && Missed(RunFrom(o, s, acts).value, c, Spans(s.accepted)))
       <==> s.stopped && Spans(Hand(s.worker)) + Spans(s.queue) != []
  {
    ReachableInv(o, s);
    hide RunFrom, Inv, Missed, Kept, Spans, Hand;
    if s.stopped && Spans(Hand(s.worker)) + Spans(s.queue) != [] {
      var acts, m := LateCall(o, s, c);
      InvRun(o, s, acts);
      LeftBehind(o, s, m, c);
    } else {
      forall acts | RunFrom(o, s, acts).Some? && Undisturbed(acts, c)
        ensures !Missed(RunFrom(o, s, acts).value, c, Spans(s.accepted))
      {
        if s.stopped {
          NothingMissed(o, s, acts, c);
        } else {
          UndisturbedRun(o, s, acts, c);
          ForceFlushKeepsPromise(o, s, acts, c);
        }
      }
    }
  }

  // ----- and if Shutdown may come in between

  lemma ShutdownFirst(o: Options, s: State, c: ClientId) returns (acts: seq<Action>, m: State)
    requires Inv(o, s) && c !in s.clients
    ensures RunFrom(o, s, acts) == Some(m) && Kept(s, m) && c in m.clients && m.clients[c] == Returned(None, true)
  {
    InvParts(o, s);
    hide RunFrom, Inv, Undisturbed;
    if s.stopped {
      acts, m := LateCall(o, s, c);
    } else {
      var t := Apply(o, s, Shutdown);
      RunOne(o, s, Shutdown);
      InvStep(o, s, Shutdown);
      acts, m := LateCall(o, t, c);
      RunConcat(o, s, [Shutdown], acts);
      acts := [Shutdown] + acts;
    }
  }

  /** With Shutdown allowed to come before its stop check, the call can return nil without everything accepted before it
      having been exported exactly if a span is in the queue or in the worker's hand. */
  lemma ForceFlushCanMissIff(o: Options, s: State, c: ClientId)
    requires Reachable(o, s) && c !in s.clients
    ensures (exists acts :: RunFrom(o, s, acts).Some? && Missed(RunFrom(o, s, acts).value, c, Spans(s.accepted)))
       <==> Spans(Hand(s.worker)) + Spans(s.queue) != []
  {
    ReachableInv(o, s);
    hide RunFrom, Inv, Missed, Kept, Spans, Hand;
    if Spans(Hand(s.worker)) + Spans(s.queue) != [] {
      var acts, m := ShutdownFirst(o, s, c);
      InvRun(o, s, acts);
      LeftBehind(o, s, m, c);
    } else {
      forall acts | RunFrom(o, s, acts).Some?
        ensures !Missed(RunFrom(o, s, acts).value, c, Spans(s.accepted))
      {
        NothingMissed(o, s, acts, c);
      }
    }
  }
}
