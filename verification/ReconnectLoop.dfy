/** The exporters' connection state with the code that changes it: the background loop, Start's first connect, and an
    export call, each run against arbitrary steps of all the others. Valid says that what happened so far is a run of
    Reconnect, so every guarantee proved there holds here. */
module ReconnectLoop {
  import opened Prelude
  import opened Reconnect

  datatype ExportResult = Ok | Disconnected | Stopped | Canceled | Failed

  /** The case the loop's select takes. A connect step then ends as the dial does, and `leave` says whether the sleep
      after it is left through the stop channel, if that is closed. */
  datatype Pick = OnStop | OnToken(dialed: bool, leave: bool)

  /** A round of the loop: where in the trace its select takes a case, where its connect step ends, if it makes one, and
      where the round ends. */
  datatype Round = Round(start: nat, connected: nat, stop: nat)

  /** Whose code is running; the others are the environment. */
  datatype Party = Loop | Caller(c: CallId)

  predicate Belongs(a: Action, me: Party) {
    match a
    case Call(c) => me == Caller(c)
    case CallEnds(c, _) => me == Caller(c)
    case SaveError(c) => me == Caller(c)
    case TrySend(c) => me == Caller(c)
    case Unstart => false
    case CloseStop => false
    case _ => me == Loop
  }

  /** Which export calls are where. */
  datatype Calls = Calls(calling: set<CallId>, saving: set<CallId>, sending: set<CallId>)

  datatype Counts = Counts(saves: nat, sends: nat, connects: nat)

  /** Where a party stands; only the party itself moves. */
  ghost predicate SameStanding(me: Party, s: State, t: State) {
    match me
    case Loop =>
      && t.loop == s.loop && t.first == s.first && t.connects == s.connects
      && (s.err ==> t.err) && (s.token ==> t.token) && (t.started ==> s.started)
    case Caller(c) =>
      && (c in t.calling <==> c in s.calling)
      && (c in t.saving <==> c in s.saving)
      && (c in t.sending <==> c in s.sending)
      && (t.loop.NotStarted? ==> s.loop.NotStarted?)
  }

  /** The party's own steps in a run, in order. */
  function Own(acts: seq<Action>, me: Party): (r: seq<Action>) {
    if acts == [] then []
    else
      var a := acts[|acts| - 1];
      Own(acts[..|acts| - 1], me) + if Belongs(a, me) then [a] else []
  }

  lemma OwnNext(acts: seq<Action>, a: Action, me: Party)
    ensures Own(acts + [a], me) == Own(acts, me) + if Belongs(a, me) then [a] else []
  {
    assert (acts + [a])[..|acts|] == acts;
  }

  /** The steps of an export call that goes out. */
  function CallSteps(c: CallId, ok: bool): (r: seq<Action>) {
    [Call(c), CallEnds(c, ok)] + if ok then [] else [SaveError(c), TrySend(c)]
  }

  /** Flags that are only ever set, and counts that only grow. */
  ghost predicate Later(s: State, t: State) {
    && (s.stopped ==> t.stopped)
    && t.saves >= s.saves && t.sends >= s.sends && t.connects >= s.connects
  }

  lemma OthersLeave(me: Party, s: State, a: Action)
    requires Enabled(s, a) && !Belongs(a, me)
    ensures SameStanding(me, s, Apply(s, a))
  {
    match me
    case Loop =>
    case Caller(c) => OthersLeaveCall(c, s, a);
  }

  lemma OthersLeaveCall(c: CallId, s: State, a: Action)
    requires Enabled(s, a) && !Belongs(a, Caller(c))
    ensures SameStanding(Caller(c), s, Apply(s, a))
  {}

  lemma StepLater(s: State, a: Action)
    requires Enabled(s, a)
    ensures Later(s, Apply(s, a))
  {}

  class Connection {
    var started: bool
    var stopped: bool
    var lastConnectErr: bool
    /** The one-slot channel. */
    var disconnectedCh: bool
    var loop: LoopPc
    var first: bool
    var calls: Calls
    var counts: Counts

    ghost var trace: seq<Action>

    // the scheduler: what the others do at each pause, and whether a select that may see the stop or the end of the
    // context sees the stop
    const others: nat -> seq<Action>
    const seesStop: nat -> bool
    var clock: nat

    function View(): (r: State)
      reads this
    {
      State(started, stopped, lastConnectErr, disconnectedCh, loop, first,
            calls.calling, calls.saving, calls.sending, counts.saves, counts.sends, counts.connects)
    }

    ghost predicate Valid()
      reads this
    {
      RunFrom(Init(), trace) == Some(View())
    }

    constructor (others: nat -> seq<Action>, seesStop: nat -> bool)
      ensures Valid() && loop.NotStarted?
    {
      this.others, this.seesStop := others, seesStop;
      started, stopped, lastConnectErr, disconnectedCh, loop, first := false, false, false, false, NotStarted, true;
      calls, counts, trace, clock := Calls({}, {}, {}), Counts(0, 0, 0), [], 0;
    }

    lemma Sound()
      requires Valid()
      ensures Reachable(View()) && Inv(View())
    {
      ReachableInv(View());
    }

    method Other(a: Action, me: Party)
      requires Valid() && Enabled(View(), a) && !Belongs(a, me)
      modifies this
      ensures Valid() && trace == old(trace) + [a] && View() == Apply(old(View()), a)
      ensures Own(trace, me) == old(Own(trace, me))
    {
      RunExtend(Init(), trace, a);
      OwnNext(trace, a, me);
      hide Apply, Enabled, RunFrom, Own;
      var s := Apply(View(), a);
      started, stopped, lastConnectErr, disconnectedCh := s.started, s.stopped, s.err, s.token;
      loop, first, calls := s.loop, s.first, Calls(s.calling, s.saving, s.sending);
      counts := Counts(s.saves, s.sends, s.connects);
      trace := trace + [a];
    }

    /** The other goroutines run. */
    method Pause(me: Party)
      requires Valid()
      modifies this
      ensures Valid() && old(trace) <= trace && Own(trace, me) == old(Own(trace, me))
      ensures SameStanding(me, old(View()), View()) && Later(old(View()), View())
    {
      hide RunFrom, Own;
      var acts := others(clock);
      for i := 0 to |acts|
        invariant Valid() && old(trace) <= trace && Own(trace, me) == old(Own(trace, me))
        invariant SameStanding(me, old(View()), View()) && Later(old(View()), View())
      {
        if Enabled(View(), acts[i]) && !Belongs(acts[i], me) {
          OthersLeave(me, View(), acts[i]);
          StepLater(View(), acts[i]);
          hide Apply, Enabled;
          Other(acts[i], me);
        }
      }
      clock := clock + 1;
    }

    lemma Next(a: Action, me: Party)
      requires Valid() && Enabled(View(), a)
      ensures RunFrom(Init(), trace + [a]) == Some(Apply(View(), a))
      ensures Own(trace + [a], me) == Own(trace, me) + if Belongs(a, me) then [a] else []
    {
      RunExtend(Init(), trace, a);
      OwnNext(trace, a, me);
    }

    // ----- the connect step of Start and of the loop

    /** Dials and installs the connection, which needs the exporter to be started still. */
    method Connect(dialed: bool) returns (ok: bool)
      requires Valid() && loop.Connecting?
      modifies this
      ensures Valid() && old(trace) <= trace && Own(trace, Loop) == old(Own(trace, Loop)) + [Connected(ok)]
      ensures (ok <==> dialed && started) && (started ==> old(started))
      ensures loop == Saving(!ok) && first == old(first) && counts.connects == old(counts.connects)
    {
      Pause(Loop);
      ok := dialed && started;
      Next(Connected(ok), Loop);
      hide RunFrom, Own;
      loop := Saving(!ok);
      trace := trace + [Connected(ok)];
    }

    method SetStateConnected()
      requires Valid() && loop == Saving(false)
      modifies this
      ensures Valid() && old(trace) <= trace && Own(trace, Loop) == old(Own(trace, Loop)) + [SaveOutcome]
      ensures loop == (if old(first) then Select else Sleeping) && !first && !lastConnectErr
      ensures counts.connects == old(counts.connects)
    {
      Pause(Loop);
      Next(SaveOutcome, Loop);
      hide RunFrom, Own;
      lastConnectErr := false;
      loop := if first then Select else Sleeping;
      first := false;
      trace := trace + [SaveOutcome];
    }

    /** Saves the error, then tries the channel: the token is there afterwards, put by this try or an earlier one. */
    method SetStateDisconnected()
      requires Valid() && loop == Saving(true)
      modifies this
      ensures Valid() && old(trace) <= trace && Own(trace, Loop) == old(Own(trace, Loop)) + [SaveOutcome, LoopTrySend]
      ensures loop == (if old(first) then Select else Sleeping) && !first && lastConnectErr && disconnectedCh
      ensures (started ==> old(started)) && counts.connects == old(counts.connects)
    {
      hide RunFrom, Own;
      Pause(Loop);
      LoopSave();
      Pause(Loop);
      LoopTry();
    }

    method LoopTry()
      requires Valid() && loop.Sending?
      modifies this
      ensures Valid() && trace == old(trace) + [LoopTrySend]
      ensures Own(trace, Loop) == old(Own(trace, Loop)) + [LoopTrySend]
      ensures loop == (if old(first) then Select else Sleeping) && !first && disconnectedCh
      ensures lastConnectErr == old(lastConnectErr) && started == old(started)
      ensures counts.connects == old(counts.connects)
    {
      Next(LoopTrySend, Loop);
      hide RunFrom, Own;
      disconnectedCh := true;
      counts := counts.(sends := counts.sends + 1);
      loop := if first then Select else Sleeping;
      first := false;
      trace := trace + [LoopTrySend];
    }

    method LoopSave()
      requires Valid() && loop == Saving(true)
      modifies this
      ensures Valid() && trace == old(trace) + [SaveOutcome]
      ensures Own(trace, Loop) == old(Own(trace, Loop)) + [SaveOutcome]
      ensures loop.Sending? && first == old(first) && lastConnectErr
      ensures started == old(started) && counts.connects == old(counts.connects)
    {
      Next(SaveOutcome, Loop);
      hide RunFrom, Own;
      lastConnectErr := true;
      counts := counts.(saves := counts.saves + 1);
      loop := Sending;
      trace := trace + [SaveOutcome];
    }

    /** Connects, if the dial succeeds and the exporter is still started then, and saves the outcome; a failure is saved
        and leaves a token behind. */
    method ConnectStep(dialed: bool) returns (ok: bool)
      requires Valid() && loop.Connecting?
      modifies this
      ensures Valid() && old(trace) <= trace && loop == (if old(first) then Select else Sleeping) && !first
      ensures Own(trace, Loop) == old(Own(trace, Loop)) + ConnectSteps(ok)
      ensures ConnectDone(dialed, ok, View()) && counts.connects == old(counts.connects)
    {
      hide RunFrom, Own;
      ok := Connect(dialed);
      if ok {
        SetStateConnected();
      } else {
        SetStateDisconnected();
      }
    }

    method Start(dialed: bool) returns (ok: bool)
      requires Valid() && loop.NotStarted?
      modifies this
      ensures Valid() && old(trace) <= trace && loop.Select? && !first
      ensures Own(trace, Loop) == old(Own(trace, Loop)) + [Action.Start] + ConnectSteps(ok)
      ensures ConnectDone(dialed, ok, View())
    {
      Sound();
      Next(Action.Start, Loop);
      hide RunFrom, Own;
      started := true;
      loop := Connecting;
      trace := trace + [Action.Start];
      ok := ConnectStep(dialed);
    }

    method TakeDisconnected()
      requires Valid() && loop.Select? && disconnectedCh
      modifies this
      ensures Valid() && trace == old(trace) + [TakeToken] && Own(trace, Loop) == old(Own(trace, Loop)) + [TakeToken]
      ensures loop.Connecting? && first == old(first) && counts.connects == old(counts.connects) + 1
    {
      Next(TakeToken, Loop);
      hide RunFrom, Own;
      disconnectedCh := false;
      counts := counts.(connects := counts.connects + 1);
      loop := Connecting;
      trace := trace + [TakeToken];
    }

    method LeaveOrWake(leave: bool)
      requires Valid() && (loop.Select? || loop.Sleeping?)
      requires if leave then stopped else loop.Sleeping?
      modifies this
      ensures Valid() && trace == old(trace) + [if leave then SeeStop else Wake]
      ensures Own(trace, Loop) == old(Own(trace, Loop)) + [if leave then SeeStop else Wake]
      ensures loop == (if leave then Exited else Select) && first == old(first)
      ensures stopped == old(stopped) && counts.connects == old(counts.connects)
    {
      Next(if leave then SeeStop else Wake, Loop);
      hide RunFrom, Own;
      trace := trace + [if leave then SeeStop else Wake];
      loop := if leave then Exited else Select;
    }

    /** One round of the loop, given the case its select takes; a case that is not ready leaves everything as it is.
        A token begins a connect attempt, which ends as the dial does, unless the exporter was stopped meanwhile. */
    method RunRound(pick: Pick) returns (ghost connected: nat)
      requires Valid() && loop.Select? && !first
      modifies this
      ensures Valid() && old(trace) <= trace && !first && (loop.Select? || (loop.Exited? && stopped))
      ensures |old(trace)| <= connected <= |trace| && RunFrom(Init(), trace[..connected]).Some?
      ensures RoundDone(old(View()), pick, RunFrom(Init(), trace[..connected]).value, View())
    {
      hide RunFrom, Own;
      connected := |trace|;
      assert trace[..|trace|] == trace;
      match pick
      case OnStop =>
        if stopped {
          LeaveOrWake(true);
          assert trace[..connected] == old(trace);
        }
      case OnToken(dialed, leave) =>
        if disconnectedCh {
          connected := Reconnected(dialed, leave);
        }
    }

    method Reconnected(dialed: bool, leave: bool) returns (ghost connected: nat)
      requires Valid() && loop.Select? && !first && disconnectedCh
      modifies this
      ensures Valid() && old(trace) <= trace && !first
      ensures |old(trace)| <= connected <= |trace| && RunFrom(Init(), trace[..connected]).Some?
      ensures Attempted(old(View()), dialed, leave, RunFrom(Init(), trace[..connected]).value, View())
    {
      hide RunFrom, Own;
      TakeDisconnected();
      var ok := ConnectStep(dialed);
      ghost var t := trace;
      Pause(Loop);
      LeaveOrWake(leave && stopped);
      connected := |t|;
      assert trace[..connected] == t;
    }

    /** The loop; `picks` are the cases its selects take, round by round. Every round does what its case asks for; the
        loop leaves only after the stop channel was closed; and whenever it is back at its select with an error saved, a
        token is there or some export call is about to put it. */
    method IndefiniteBackgroundConnection(picks: seq<Pick>) returns (ghost rounds: seq<Round>)
      requires Valid() && loop.Select? && !first
      modifies this
      ensures Valid() && old(trace) <= trace
      ensures if loop.Exited? then stopped else loop.Select? && |rounds| == |picks|
      ensures loop.Select? && lastConnectErr ==> disconnectedCh || calls.sending != {}
      ensures RoundsDone(|old(trace)|, trace, picks, rounds)
    {
      hide RunFrom, Own, RoundDone;
      rounds := [];
      for r := 0 to |picks|
        invariant Valid() && old(trace) <= trace && loop.Select? && !first && |rounds| == r
        invariant RoundsDone(|old(trace)|, trace, picks, rounds)
      {
        ghost var sofar := trace;
        Pause(Loop);
        ghost var t := trace;
        ghost var connected := RunRound(picks[r]);
        assert trace[..|t|] == t && trace[..|trace|] == trace;
        NextRound(|old(trace)|, sofar, trace, picks, rounds, Round(|t|, connected, |trace|));
        rounds := rounds + [Round(|t|, connected, |trace|)];
        if loop.Exited? {
          return;
        }
      }
      Sound();
    }

    // ----- an export call

    /** `ended` says that the call's context is done when the call looks, `verdict` how the collector ends the export if
        the call goes out. It then fails exactly if the collector does, having saved its error and tried the channel
        with nothing else of its own in between. */
    method ExportLogs(c: CallId, empty: bool, ended: bool, verdict: bool) returns (r: ExportResult)
      requires Valid() && !loop.NotStarted? && c !in calls.calling + calls.saving + calls.sending
      modifies this
      ensures Valid() && old(trace) <= trace && c !in calls.calling + calls.saving + calls.sending
      ensures empty ==> r.Ok?
      ensures !empty ==> (r.Disconnected? <==> old(lastConnectErr))
      ensures !empty ==> (r.Stopped? || r.Canceled? <==> !old(lastConnectErr) && (old(stopped) || ended))
      ensures (r.Stopped? ==> old(stopped)) && (r.Canceled? ==> ended)
      ensures empty || r.Disconnected? || r.Stopped? || r.Canceled? ==> trace == old(trace) && View() == old(View())
      ensures !empty && (r.Ok? || r.Failed?) ==>
        (r.Ok? <==> verdict) && Own(trace, Caller(c)) == old(Own(trace, Caller(c))) + CallSteps(c, verdict)
    {
      hide RunFrom, Own;
      if empty {
        return Ok;
      }
      if lastConnectErr {
        return Disconnected;
      }
      if stopped && (!ended || seesStop(clock)) {
        return Stopped;
      }
      if ended {
        return Canceled;
      }
      Enter(c);
      r := Export(c, verdict);
    }

    /** The call to the collector and what follows if it fails. */
    method Export(c: CallId, verdict: bool) returns (r: ExportResult)
      requires Valid() && c in calls.calling && c !in calls.saving + calls.sending
      modifies this
      ensures Valid() && old(trace) <= trace && c !in calls.calling + calls.saving + calls.sending
      ensures r == if verdict then Ok else Failed
      ensures Own(trace, Caller(c)) == old(Own(trace, Caller(c))) + CallSteps(c, verdict)[1..]
    {
      hide RunFrom, Own;
      Pause(Caller(c));
      Leave(c, verdict);
      if verdict {
        return Ok;
      }
      Pause(Caller(c));
      Save(c);
      Pause(Caller(c));
      Try(c);
      return Failed;
    }

    method Enter(c: CallId)
      requires Valid() && Enabled(View(), Call(c))
      modifies this
      ensures Valid() && trace == old(trace) + [Call(c)] && View() == Apply(old(View()), Call(c))
      ensures Own(trace, Caller(c)) == old(Own(trace, Caller(c))) + [Call(c)]
    {
      Next(Call(c), Caller(c));
      calls := calls.(calling := calls.calling + {c});
      trace := trace + [Call(c)];
    }

    method Leave(c: CallId, ok: bool)
      requires Valid() && Enabled(View(), CallEnds(c, ok))
      modifies this
      ensures Valid() && trace == old(trace) + [CallEnds(c, ok)] && View() == Apply(old(View()), CallEnds(c, ok))
      ensures Own(trace, Caller(c)) == old(Own(trace, Caller(c))) + [CallEnds(c, ok)]
    {
      Next(CallEnds(c, ok), Caller(c));
      calls := Calls(calls.calling - {c}, if ok then calls.saving else calls.saving + {c}, calls.sending);
      trace := trace + [CallEnds(c, ok)];
    }

    method Save(c: CallId)
      requires Valid() && Enabled(View(), SaveError(c))
      modifies this
      ensures Valid() && trace == old(trace) + [SaveError(c)] && View() == Apply(old(View()), SaveError(c))
      ensures Own(trace, Caller(c)) == old(Own(trace, Caller(c))) + [SaveError(c)]
    {
      Next(SaveError(c), Caller(c));
      lastConnectErr := true;
      calls := Calls(calls.calling, calls.saving - {c}, calls.sending + {c});
      counts := counts.(saves := counts.saves + 1);
      trace := trace + [SaveError(c)];
    }

    method Try(c: CallId)
      requires Valid() && Enabled(View(), TrySend(c))
      modifies this
      ensures Valid() && trace == old(trace) + [TrySend(c)] && View() == Apply(old(View()), TrySend(c))
      ensures Own(trace, Caller(c)) == old(Own(trace, Caller(c))) + [TrySend(c)]
    {
      Next(TrySend(c), Caller(c));
      disconnectedCh := true;
      calls := calls.(sending := calls.sending - {c});
      counts := counts.(sends := counts.sends + 1);
      trace := trace + [TrySend(c)];
    }
  }

  // ----- what a connect step and a round of the loop do

  /** The steps of a connect step. */
  function ConnectSteps(ok: bool): (r: seq<Action>) {
    [Connected(ok), SaveOutcome] + if ok then [] else [LoopTrySend]
  }

  /** A connect step succeeds exactly if the dial did and the exporter was still started then, so it does not fail a
      dial that succeeded with the exporter started to the end; its outcome is saved, a failure with a token. */
  ghost predicate ConnectDone(dialed: bool, ok: bool, after: State) {
    && (ok ==> dialed) && (dialed && after.started ==> ok)
    && if ok then !after.err else after.err && after.token
  }

  ghost predicate Attempted(before: State, dialed: bool, leave: bool, connected: State, after: State) {
    && (exists ok :: ConnectDone(dialed, ok, connected))
    && connected.connects == before.connects + 1 == after.connects
    && after.loop == if leave && after.stopped then Exited else Select
  }

  /** What a round does, given the states when it takes its case, after its connect step if it makes one, and at its
      end. */
  ghost predicate RoundDone(before: State, pick: Pick, connected: State, after: State) {
    match pick
    case OnStop => if before.stopped then after.loop.Exited? else after == before
    case OnToken(dialed, leave) =>
      if before.token then Attempted(before, dialed, leave, connected, after) else after == before
  }

  ghost predicate RoundAt(trace: seq<Action>, pick: Pick, r: Round) {
    && r.start <= r.connected <= r.stop <= |trace|
    && RunFrom(Init(), trace[..r.start]).Some? && RunFrom(Init(), trace[..r.connected]).Some?
    && RunFrom(Init(), trace[..r.stop]).Some?
    && RoundDone(RunFrom(Init(), trace[..r.start]).value, pick, RunFrom(Init(), trace[..r.connected]).value,
                 RunFrom(Init(), trace[..r.stop]).value)
  }

  /** The rounds follow each other from the point `begin` of the trace on, and each does what its case asks for. */
  ghost predicate RoundsDone(begin: nat, trace: seq<Action>, picks: seq<Pick>, rounds: seq<Round>) {
    && |rounds| <= |picks|
    && (forall i :: 0 <= i < |rounds| ==> RoundAt(trace, picks[i], rounds[i]) && begin <= rounds[i].start)
    && (forall i :: 0 < i < |rounds| ==> rounds[i - 1].stop <= rounds[i].start)
  }

  lemma NextRound(begin: nat, t: seq<Action>, t': seq<Action>, picks: seq<Pick>, rounds: seq<Round>, r: Round)
    requires begin <= |t| && t <= t' && |rounds| < |picks| && RoundsDone(begin, t, picks, rounds)
    requires |t| <= r.start && RoundAt(t', picks[|rounds|], r)
    ensures RoundsDone(begin, t', picks, rounds + [r])
  {
    hide RunFrom, RoundDone;
    forall i | 0 <= i < |rounds|
      ensures RoundAt(t', picks[i], rounds[i])
    {
      var x := rounds[i];
      assert RoundAt(t, picks[i], x);
      assert t'[..x.start] == t[..x.start] && t'[..x.connected] == t[..x.connected] && t'[..x.stop] == t[..x.stop];
    }
  }
}
