/** The one-token reconnect protocol shared by both exporters.

    Any number of export calls (the workers of the async exporter, the callers of the OTLP exporter) race with one
    background loop. A failed export saves its error and then tries to put a token into a one-slot channel; the
    loop takes the token, connects, saves the outcome, puts the token back if that failed, and sleeps. Start runs
    the same connect step once before the loop begins. A connect attempt and an export end as they please. */
module Reconnect {
  import opened Prelude

  type CallId = nat

  /** Where Start and then the background loop stand. */
  datatype LoopPc = NotStarted | Connecting | Saving(failed: bool) | Sending | Select | Sleeping | Exited

  datatype State = State(
    started: bool, stopped: bool,
    err: bool, token: bool, loop: LoopPc, first: bool,
    // export calls: talking to the collector, about to save an error, about to try the channel
    calling: set<CallId>, saving: set<CallId>, sending: set<CallId>,
    // history: errors saved, tries to put the token, connect attempts of the loop
    saves: nat, sends: nat, connects: nat)

  function Init(): (r: State) {
    State(false, false, false, false, NotStarted, true, {}, {}, {}, 0, 0, 0)
  }

  datatype Action =
    | Start
    | Call(c: CallId)
    | CallEnds(c: CallId, ok: bool)
    | SaveError(c: CallId)
    | TrySend(c: CallId)
    | TakeToken
    | Connected(ok: bool)
    | SaveOutcome
    | LoopTrySend
    | Wake
    | SeeStop
    | Unstart
    | CloseStop

  predicate Enabled(s: State, a: Action) {
    match a
    case Start => s.loop.NotStarted?
    case Call(c) => !s.loop.NotStarted? && c !in s.calling + s.saving + s.sending && !s.err && !s.stopped
    case CallEnds(c, _) => c in s.calling
    case SaveError(c) => c in s.saving
    case TrySend(c) => c in s.sending
    case TakeToken => s.loop.Select? && s.token
    case Connected(ok) => s.loop.Connecting? && (ok ==> s.started)
    case SaveOutcome => s.loop.Saving?
    case LoopTrySend => s.loop.Sending?
    case Wake => s.loop.Sleeping?
    case SeeStop => (s.loop.Select? || s.loop.Sleeping?) && s.stopped
    case Unstart => s.started
    case CloseStop => !s.loop.NotStarted? && !s.started && !s.stopped
  }

  /** After a connect step: Start begins the loop at its select, the loop goes to sleep. */
  function AfterConnect(s: State): (r: LoopPc) {
    if s.first then Select else Sleeping
  }

  function Apply(s: State, a: Action): (r: State)
    requires Enabled(s, a)
  {
    match a
    case Start => s.(started := true, loop := Connecting)
    case Call(c) => s.(calling := s.calling + {c})
    case CallEnds(c, ok) => s.(calling := s.calling - {c}, saving := if ok then s.saving else s.saving + {c})
    case SaveError(c) => s.(saving := s.saving - {c}, sending := s.sending + {c}, err := true, saves := s.saves + 1)
    case TrySend(c) => s.(sending := s.sending - {c}, token := true, sends := s.sends + 1)
    case TakeToken => s.(token := false, loop := Connecting, connects := s.connects + 1)
    case Connected(ok) => s.(loop := Saving(!ok))
    case SaveOutcome =>
      if s.loop.failed then s.(err := true, loop := Sending, saves := s.saves + 1)
      else s.(err := false, loop := AfterConnect(s), first := false)
    case LoopTrySend => s.(token := true, sends := s.sends + 1, loop := AfterConnect(s), first := false)
    case Wake => s.(loop := Select)
    case SeeStop => s.(loop := Exited)
    case Unstart => s.(started := false)
    case CloseStop => s.(stopped := true)
  }

  function RunFrom(s: State, acts: seq<Action>): (r: Option<State>) {
    if acts == [] then Some(s)
    else
      match RunFrom(s, acts[..|acts| - 1])
      case None => None
      case Some(m) =>
        var a := acts[|acts| - 1];
        if Enabled(m, a) then Some(Apply(m, a)) else None
  }

  lemma RunExtend(s: State, acts: seq<Action>, a: Action)
    requires RunFrom(s, acts).Some? && Enabled(RunFrom(s, acts).value, a)
    ensures RunFrom(s, acts + [a]) == Some(Apply(RunFrom(s, acts).value, a))
  {
    assert (acts + [a])[..|acts|] == acts;
  }

  ghost predicate Reachable(s: State) {
    exists acts :: RunFrom(Init(), acts) == Some(s)
  }

  /** The loop is between taking the token (or Start's first connect) and the end of its connect step. */
  predicate Reconnecting(s: State) {
    s.loop.Connecting? || s.loop.Saving? || s.loop.Sending?
  }

  ghost predicate TokenInv(s: State) {
    // no lost reconnect
    && (s.err && !s.loop.Exited? ==> s.token || s.sending != {} || Reconnecting(s))
    // the loop leaves only when told to
    && (s.loop.Exited? ==> s.stopped)
    && (s.loop.NotStarted? ==> !s.err && s.calling == {} && s.saving == {} && s.sending == {})
    // Start's connect step is the only first one
    && (s.loop.NotStarted? ==> s.first)
    && (s.loop.Select? || s.loop.Sleeping? || s.loop.Exited? ==> !s.first)
  }

  /** A call is in one place. */
  ghost predicate PlaceInv(s: State) {
    s.calling !! s.saving && s.calling !! s.sending && s.saving !! s.sending
  }

  /** Every try follows a saved error, and every connect takes a token some try put there. */
  ghost predicate CountInv(s: State) {
    && s.saves == s.sends + |s.sending| + (if s.loop.Sending? then 1 else 0)
    && s.connects + (if s.token then 1 else 0) <= s.sends
  }

  ghost predicate Inv(s: State) {
    TokenInv(s) && PlaceInv(s) && CountInv(s)
  }

  lemma TokenStep(s: State, a: Action)
    requires Enabled(s, a) && TokenInv(s)
    ensures TokenInv(Apply(s, a))
  {
    match a
    case SaveError(c) => assert c in Apply(s, a).sending;
    case _ =>
  }

  lemma PlaceStep(s: State, a: Action)
    requires Enabled(s, a) && PlaceInv(s)
    ensures PlaceInv(Apply(s, a))
  {}

  lemma AddOne(xs: set<CallId>, c: CallId)
    requires c !in xs
    ensures |xs + {c}| == |xs| + 1 && (xs + {c}) - {c} == xs
  {}

  lemma CountSave(s: State, c: CallId)
    requires c in s.saving && PlaceInv(s) && CountInv(s)
    ensures CountInv(Apply(s, SaveError(c)))
  {
    AddOne(s.sending, c);
  }

  lemma CountTry(s: State, c: CallId)
    requires c in s.sending && CountInv(s)
    ensures CountInv(Apply(s, TrySend(c)))
  {
    AddOne(s.sending - {c}, c);
    assert s.sending - {c} + {c} == s.sending;
  }

  lemma CountOther(s: State, a: Action)
    requires Enabled(s, a) && CountInv(s) && !a.SaveError? && !a.TrySend?
    ensures CountInv(Apply(s, a))
  {}

  lemma CountStep(s: State, a: Action)
    requires Enabled(s, a) && PlaceInv(s) && CountInv(s)
    ensures CountInv(Apply(s, a))
  {
    hide CountInv;
    match a
    case SaveError(c) => CountSave(s, c);
    case TrySend(c) => CountTry(s, c);
    case _ => CountOther(s, a);
  }

  lemma InvStep(s: State, a: Action)
    requires Enabled(s, a) && Inv(s)
    ensures Inv(Apply(s, a))
  {
    TokenStep(s, a);
    PlaceStep(s, a);
    CountStep(s, a);
  }

  lemma {:induction false} InvRun(s: State, acts: seq<Action>)
    requires Inv(s) && RunFrom(s, acts).Some?
    ensures Inv(RunFrom(s, acts).value)
    decreases |acts|
  {
    hide Inv;
    if acts != [] {
      var init := acts[..|acts| - 1];
      InvRun(s, init);
      InvStep(RunFrom(s, init).value, acts[|acts| - 1]);
    }
  }

  lemma ReachableInv(s: State)
    requires Reachable(s)
    ensures Inv(s)
  {
    var acts :| RunFrom(Init(), acts) == Some(s);
    InvRun(Init(), acts);
  }

  /** No lost reconnect: while the exporter is started and not stopped, a saved error is never forgotten. */
  lemma NoLostReconnect(s: State)
    requires Reachable(s) && s.err && !s.stopped
    ensures s.token || s.sending != {} || Reconnecting(s)
  {
    ReachableInv(s);
  }

  predicate TowardsConnect(a: Action) {
    a.TrySend? || a.Wake? || a.TakeToken?
  }

  /** ... and unless the loop is already reconnecting, at most three steps that need nobody's help, a pending try,
      the end of the loop's sleep and taking the token, begin a new connect attempt. */
  lemma ReconnectsSoon(s: State) returns (acts: seq<Action>)
    requires Reachable(s) && s.err && !s.stopped && !Reconnecting(s)
    ensures |acts| <= 3 && RunFrom(s, acts).Some? && RunFrom(s, acts).value.loop.Connecting?
    ensures forall i :: 0 <= i < |acts| ==> TowardsConnect(acts[i])
  {
    NoLostReconnect(s);
    NotExited(s);
    var m;
    acts, m := PutToken(s);
    hide RunFrom, Inv;
    if m.loop.Sleeping? {
      RunExtend(s, acts, Wake);
      acts, m := acts + [Wake], Apply(m, Wake);
    }
    RunExtend(s, acts, TakeToken);
    acts := acts + [TakeToken];
  }

  /** How many steps towards a connect attempt are left: the try, waking up, taking the token. */
  function Dist(s: State): (n: nat)
    ensures 1 <= n <= 3
  {
    1 + (if s.token then 0 else 1) + if s.loop.Sleeping? then 1 else 0
  }

  /** An error is saved, nobody has stopped the exporter, and the loop is not reconnecting yet. */
  predicate Due(s: State) {
    s.err && !s.stopped && !Reconnecting(s)
  }

  /** No step of anybody takes a due reconnect further away: it stays due at no greater distance, unless the attempt
      begins or the exporter is stopped. */
  lemma DueStep(s: State, a: Action)
    requires Enabled(s, a) && TokenInv(s) && Due(s)
    ensures var s' := Apply(s, a);
      if a.TakeToken? then s'.loop.Connecting? && s'.connects == s.connects + 1
      else s'.stopped || (Due(s') && Dist(s') <= Dist(s))
  {}

  /** And some step that needs nobody's help always brings it nearer, or begins the attempt. */
  lemma NearerExists(s: State) returns (a: Action)
    requires Reachable(s) && Due(s)
    ensures TowardsConnect(a) && Enabled(s, a)
    ensures a.TakeToken? || (Due(Apply(s, a)) && Dist(Apply(s, a)) < Dist(s))
  {
    NoLostReconnect(s);
    NotExited(s);
    if !s.token {
      var c :| c in s.sending;
      a := TrySend(c);
    } else {
      a := if s.loop.Sleeping? then Wake else TakeToken;
    }
  }

  /** Over every run: a due reconnect begins, or is still due at no greater distance, unless the exporter is stopped. */
  lemma {:induction false} DueRun(s: State, acts: seq<Action>)
    requires Reachable(s) && Due(s) && RunFrom(s, acts).Some?
    ensures var s' := RunFrom(s, acts).value;
      && s'.connects >= s.connects
      && (s'.connects > s.connects || s'.stopped || (Due(s') && Dist(s') <= Dist(s)))
    decreases |acts|
  {
    hide Apply, Due, Dist, TokenInv;
    if acts != [] {
      var init, a := acts[..|acts| - 1], acts[|acts| - 1];
      var m := RunFrom(s, init).value;
      DueRun(s, init);
      ReachableInv(s);
      InvRun(s, init);
      MonotoneStep(m, a);
      if Due(m) {
        DueStep(m, a);
      }
    }
  }

  lemma MonotoneStep(s: State, a: Action)
    requires Enabled(s, a)
    ensures Apply(s, a).connects >= s.connects && (s.stopped ==> Apply(s, a).stopped)
  {}

  lemma NotExited(s: State)
    requires Reachable(s) && !s.stopped && s.err
    ensures !s.loop.Exited? && !s.loop.NotStarted?
  {
    ReachableInv(s);
  }

  lemma PutToken(s: State) returns (acts: seq<Action>, m: State)
    requires s.token || s.sending != {}
    ensures |acts| <= 1 && RunFrom(s, acts) == Some(m) && m.token && m.loop == s.loop
    ensures forall i :: 0 <= i < |acts| ==> TowardsConnect(acts[i])
  {
    acts, m := [], s;
    if !s.token {
      var c :| c in s.sending;
      RunExtend(s, acts, TrySend(c));
      acts, m := acts + [TrySend(c)], Apply(s, TrySend(c));
    }
  }

  /** The loop never makes more connect attempts than errors were saved, however many calls fail at once. */
  lemma ConnectsBounded(s: State)
    requires Reachable(s)
    ensures s.connects <= s.saves
  {
    ReachableInv(s);
  }

  /** A disconnected exporter starts no export call until a connect step has saved its outcome. */
  lemma {:induction false} QuietWhileDisconnected(s: State, acts: seq<Action>)
    requires s.err && RunFrom(s, acts).Some?
    requires forall i :: 0 <= i < |acts| ==> !acts[i].SaveOutcome?
    ensures var s' := RunFrom(s, acts).value; s'.err && s'.calling <= s.calling
    decreases |acts|
  {
    if acts != [] {
      var init := acts[..|acts| - 1];
      QuietWhileDisconnected(s, init);
      QuietStep(RunFrom(s, init).value, acts[|acts| - 1]);
    }
  }

  lemma QuietStep(s: State, a: Action)
    requires Enabled(s, a) && s.err && !a.SaveOutcome?
    ensures Apply(s, a).err && Apply(s, a).calling <= s.calling
  {}
}
