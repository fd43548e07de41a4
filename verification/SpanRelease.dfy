/** Exactly when a waiting ForceFlush call can still be released. */
module SpanRelease {
  import opened Prelude
  import opened SpanPipeline
  import opened SpanInvariants
  import opened SpanTheorems
  import opened SpanGuarantees

  lemma {:induction false} RunConcat(o: Options, s: State, acts: seq<Action>, more: seq<Action>)
    requires RunFrom(o, s, acts).Some?
    ensures RunFrom(o, s, acts + more) == RunFrom(o, RunFrom(o, s, acts).value, more)
    decreases |more|
  {
    if more == [] {
      assert acts + more == acts;
    } else {
      var init := more[..|more| - 1];
      RunConcat(o, s, acts, init);
      assert (acts + more)[..|acts + more| - 1] == acts + init;
    }
  }

  lemma RunOne(o: Options, s: State, a: Action)
    requires Enabled(o, s, a)
    ensures RunFrom(o, s, [a]) == Some(Apply(o, s, a))
  {
    assert [a][..0] == [];
  }

  /** How far the worker is from its select, counting an export that a ForceFlush call has under way. */
  function Distance(s: State): (r: nat) {
    (match s.worker
     case Holding(_) => 12
     case StopTimer => 10
     case AwaitTick => 8
     case ExportReset(_) => 6
     case ExportLock(_) => 4
     case Exporting(_) => 2
     case _ => 0)
    + if s.mutex.ByClient? then 1 else 0
  }

  /** The step that brings the worker nearer to its select. */
  function Nearer(s: State): (r: Action) {
    if s.mutex.ByClient? then Client(s.mutex.c, ClientExported(true))
    else
      match s.worker
      case Holding(_) => Worker(Append)
      case StopTimer => Worker(Stop)
      case AwaitTick => Worker(Tick)
      case ExportReset(_) => Worker(ResetTimer)
      case ExportLock(_) => Worker(Lock)
      case _ => Worker(Exported(true))
  }

  lemma NearerStep(o: Options, s: State)
    requires Inv(o, s) && Running(s.worker) && !s.worker.Select?
    ensures Enabled(o, s, Nearer(s))
    ensures var s' := Apply(o, s, Nearer(s));
      Running(s'.worker) && s'.queue == s.queue && Distance(s') < Distance(s)
  {
    hide BoundsInv, PacketInv, WaitingInv, FlushInv, ConservationInv, QueueInv, MarkerFreeInv, PhaseInv;
    if s.mutex.ByClient? {
      assert ClientEnabled(o, s, s.mutex.c, ClientExported(true));
    }
  }

  /** processQueue comes back to its select with the queue as it was. */
  lemma {:induction false} BackToSelect(o: Options, s: State) returns (acts: seq<Action>, s': State)
    requires Inv(o, s) && Running(s.worker)
    ensures RunFrom(o, s, acts) == Some(s') && Inv(o, s') && s'.worker.Select? && s'.queue == s.queue
    decreases Distance(s)
  {
    if s.worker.Select? {
      acts, s' := [], s;
    } else {
      NearerStep(o, s);
      hide Inv, Apply, Enabled, Nearer, Distance, Running;
      var a := Nearer(s);
      InvStep(o, s, a);
      RunOne(o, s, a);
      acts, s' := BackToSelect(o, Apply(o, s, a));
      RunConcat(o, s, [a], acts);
      acts := [a] + acts;
    }
  }

  lemma ReceiveNext(o: Options, s: State)
    requires s.worker.Select? && s.queue != []
    ensures Enabled(o, s, Worker(Receive))
    ensures var s' := Apply(o, s, Worker(Receive));
      && Running(s'.worker) && s'.queue == s.queue[1..]
      && (s.queue[0].Marker? ==> s.queue[0].owner in s'.flushed)
  {}

  /** While processQueue runs it can get to any marker in the queue, and then closes it. */
  lemma {:induction false} MarkerReached(o: Options, s: State, c: ClientId, k: nat) returns (acts: seq<Action>)
    requires Inv(o, s) && Running(s.worker) && k < |s.queue| && s.queue[k] == Marker(c)
    ensures RunFrom(o, s, acts).Some? && c in RunFrom(o, s, acts).value.flushed
    decreases k
  {
    hide Inv, Apply, Running, Enabled;
    var s1;
    acts, s1 := BackToSelect(o, s);
    ReceiveNext(o, s1);
    RunOne(o, s1, Worker(Receive));
    RunConcat(o, s, acts, [Worker(Receive)]);
    acts := acts + [Worker(Receive)];
    if k > 0 {
      InvStep(o, s1, Worker(Receive));
      var more := MarkerReached(o, Apply(o, s1, Worker(Receive)), c, k - 1);
      RunConcat(o, s, acts, more);
      acts := acts + more;
    }
  }

  // ----- every run with enough receives closes it

  function Receives(acts: seq<Action>): (n: nat)
    ensures n <= |acts|
  {
    if acts == [] then 0
    else Receives(acts[..|acts| - 1]) + if acts[|acts| - 1] == Worker(Receive) then 1 else 0
  }

  /** The marker is closed, or `k` places from the head of the queue. */
  ghost predicate Approaches(s: State, c: ClientId, k: int) {
    c in s.flushed || (0 <= k < |s.queue| && s.queue[k] == Marker(c))
  }

  /** What a step does to the queue while processQueue runs. */
  lemma QueueMoves(o: Options, s: State, a: Action)
    requires Enabled(o, s, a) && Running(Apply(o, s, a).worker)
    ensures var s' := Apply(o, s, a);
      && Running(s.worker) && s.flushed <= s'.flushed
      && if a == Worker(Receive) then
           s.queue != [] && s'.queue == s.queue[1..] && (s.queue[0].Marker? ==> s.queue[0].owner in s'.flushed)
         else
           s.queue <= s'.queue
  {
    StillRunning(o, s, a);
    match a
    case Worker(work) =>
      WorkerFrame(o, s, work);
      hide WorkerEffect;
      if work.Receive? {
        ReceiveNext(o, s);
      }
    case Client(c, step) =>
    case _ =>
  }

  lemma ApproachStep(o: Options, s: State, a: Action, c: ClientId, k: int)
    requires Enabled(o, s, a) && Running(Apply(o, s, a).worker) && Approaches(s, c, k)
    ensures Approaches(Apply(o, s, a), c, if a == Worker(Receive) then k - 1 else k)
  {
    hide Apply, Running, Enabled;
    QueueMoves(o, s, a);
  }

  /** In every run after which processQueue still runs, a marker at position `k` of the queue is closed once more than
      `k` items were received, and until then it is as much nearer to the head. */
  lemma {:induction false} MarkerClosedByReceives(o: Options, s: State, acts: seq<Action>, c: ClientId, k: nat)
    requires k < |s.queue| && s.queue[k] == Marker(c)
    requires RunFrom(o, s, acts).Some? && Running(RunFrom(o, s, acts).value.worker)
    ensures Approaches(RunFrom(o, s, acts).value, c, k - Receives(acts))
    ensures Receives(acts) > k ==> c in RunFrom(o, s, acts).value.flushed
    decreases |acts|
  {
    hide Apply, Approaches;
    if acts == [] {
      assert Approaches(s, c, k) by {
        ApproachStart(s, c, k);
      }
    } else {
      var init, a := acts[..|acts| - 1], acts[|acts| - 1];
      var m := RunFrom(o, s, init).value;
      StillRunning(o, m, a);
      MarkerClosedByReceives(o, s, init, c, k);
      ApproachStep(o, m, a, c, k - Receives(init));
    }
    ApproachEnd(RunFrom(o, s, acts).value, c, k - Receives(acts));
  }

  lemma ApproachStart(s: State, c: ClientId, k: nat)
    requires k < |s.queue| && s.queue[k] == Marker(c)
    ensures Approaches(s, c, k)
  {}

  lemma ApproachEnd(s: State, c: ClientId, k: int)
    requires Approaches(s, c, k)
    ensures k < 0 ==> c in s.flushed
  {}

  lemma StillRunning(o: Options, s: State, a: Action)
    requires Enabled(o, s, a) && Running(Apply(o, s, a).worker)
    ensures Running(s.worker)
  {
    if a.Worker? && !Running(s.worker) {
      StaysDraining(o, s, a.work);
    }
  }

  /** A waiting ForceFlush call whose marker is not closed yet can still be released exactly as long as processQueue
      has not returned; and then every run releases it in which processQueue receives as many items as are queued. A
      call that Shutdown catches before waits until its own context ends. */
  lemma ReleasableIff(o: Options, s: State, c: ClientId)
    requires Reachable(o, s) && c in s.clients && s.clients[c].WaitFlushed? && c !in s.flushed
    ensures (exists acts :: RunFrom(o, s, acts).Some? && c in RunFrom(o, s, acts).value.flushed) <==> Running(s.worker)
    ensures forall acts :: RunFrom(o, s, acts).Some? && Receives(acts) >= |s.queue| ==>
      var s' := RunFrom(o, s, acts).value; Running(s'.worker) ==> c in s'.flushed
  {
    hide RunFrom, Inv, Receives;
    if Running(s.worker) {
      ReachableInv(o, s);
      WaitingMarkerQueued(o, s, c);
      var k :| 0 <= k < |s.queue| && s.queue[k] == Marker(c);
      var acts := MarkerReached(o, s, c, k);
      forall acts |
        && RunFrom(o, s, acts).Some? && Running(RunFrom(o, s, acts).value.worker)
        && Receives(acts) >= |s.queue|
        ensures c in RunFrom(o, s, acts).value.flushed
      {
        MarkerClosedByReceives(o, s, acts, c, k);
      }
    } else {
      forall acts | RunFrom(o, s, acts).Some?
        ensures c !in RunFrom(o, s, acts).value.flushed && !Running(RunFrom(o, s, acts).value.worker)
      {
        DrainNeverReleases(o, s, acts, c);
      }
    }
  }
}
