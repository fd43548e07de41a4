/** The dyeing sampler: fractions turned into thresholds on the leading eight bytes of the trace id, tables of
    thresholds per callee service and method, and the dyed attribute values fetched from the sampler service. */
module Sampling {
  import opened Prelude

  // ----- leading bytes as a number

  function Pow256(n: nat): (r: nat) {
    if n == 0 then 1 else 256 * Pow256(n - 1)
  }

  /** binary.BigEndian */
  function Decode(b: Bytes): (r: nat) {
    if b == [] then 0 else 256 * Decode(b[..|b| - 1]) + b[|b| - 1]
  }

  function Encode(x: nat, n: nat): (b: Bytes)
    ensures |b| == n
  {
    if n == 0 then [] else Encode(x / 256, n - 1) + [x % 256]
  }

  lemma {:induction false} DecodeEncode(x: nat, n: nat)
    requires x < Pow256(n)
    ensures Decode(Encode(x, n)) == x
  {
    if n > 0 {
      DecodeEncode(x / 256, n - 1);
      assert Encode(x, n)[..n - 1] == Encode(x / 256, n - 1);
    }
  }

  lemma {:induction false} EncodeDecode(b: Bytes)
    ensures Decode(b) < Pow256(|b|) && Encode(Decode(b), |b|) == b
  {
    if b != [] {
      var init := b[..|b| - 1];
      EncodeDecode(init);
      assert Decode(b) / 256 == Decode(init) && Decode(b) % 256 == b[|b| - 1];
      assert b == init + [b[|b| - 1]];
    }
  }

  lemma PowNext(n: nat)
    ensures Pow256(n + 1) == 256 * Pow256(n)
  {}

  /** The first byte is the most significant one. */
  lemma {:induction false} FirstByteHighest(b: Bytes)
    requires b != []
    ensures Decode(b) == b[0] * Pow256(|b| - 1) + Decode(b[1..])
  {
    if |b| == 1 {
      assert b[..0] == [] == b[1..];
    } else {
      var init, last := b[..|b| - 1], b[|b| - 1];
      FirstByteHighest(init);
      assert b[1..][..|b| - 2] == init[1..];
      PowNext(|b| - 2);
      Scaled(b[0], Pow256(|b| - 2));
    }
  }

  lemma Scaled(x: nat, p: nat)
    ensures 256 * (x * p) == x * (256 * p)
  {}

  const TWO63: nat := 0x8000_0000_0000_0000

  lemma PowEight()
    ensures Pow256(8) == TWO64
  {
    assert Pow256(4) == 0x1_0000_0000;
    assert Pow256(6) == 0x1_0000_0000_0000;
  }

  type TraceID = b: Bytes | |b| == 16 witness [0, 0, 0, 0, 0, 0, 0, 0, 0, 0, 0, 0, 0, 0, 0, 0]

  /** The top 63 bits of the id. */
  function Top63(id: TraceID): (r: nat) {
    Decode(id[..8]) / 2
  }

  // ----- thresholds

  function Clamp(fraction: real): (r: real) {
    if fraction >= 1.0 then 1.0 else if fraction <= 0.0 then 0.0 else fraction
  }

  function TraceIDUpperBound(fraction: real): (bound: nat)
    ensures bound <= TWO63
    ensures fraction >= 1.0 ==> bound == TWO63
    ensures fraction <= 0.0 ==> bound == 0
    // the bound is the clamped fraction of 2^63, rounded down
    ensures bound as real <= Clamp(fraction) * TWO63 as real < bound as real + 1.0
  {
    (Clamp(fraction) * TWO63 as real).Floor
  }

  predicate SampledAt(fraction: real, id: TraceID) {
    Top63(id) < TraceIDUpperBound(fraction)
  }

  /** The leading bytes of the ids sampled at a fraction. */
  ghost function SampledPrefixes(fraction: real): (r: set<Bytes>) {
    Prefixes(2 * TraceIDUpperBound(fraction))
  }

  ghost function Prefixes(n: nat): (r: set<Bytes>) {
    set x: nat | x < n :: Encode(x, 8)
  }

  lemma {:induction false} PrefixCount(n: nat)
    requires n <= TWO64
    ensures |Prefixes(n)| == n
  {
    if n > 0 {
      PrefixCount(n - 1);
      PowEight();
      var last := Encode(n - 1, 8);
      if last in Prefixes(n - 1) {
        var x: nat :| x < n - 1 && Encode(x, 8) == last;
        DecodeEncode(x, 8);
        DecodeEncode(n - 1, 8);
        assert false;
      }
      forall b
        ensures b in Prefixes(n) <==> b in Prefixes(n - 1) || b == last
      {
        if b in Prefixes(n) {
          var x: nat :| x < n && Encode(x, 8) == b;
          assert x < n - 1 || x == n - 1;
        }
      }
      assert Prefixes(n) == Prefixes(n - 1) + {last};
    }
  }

  /** Of the 2^64 leading byte strings, exactly twice the bound are sampled. */
  lemma SampledShare(fraction: real)
    ensures |SampledPrefixes(fraction)| == 2 * TraceIDUpperBound(fraction)
    ensures forall id: TraceID :: SampledAt(fraction, id) <==> id[..8] in SampledPrefixes(fraction)
  {
    PrefixCount(2 * TraceIDUpperBound(fraction));
    PowEight();
    forall id: TraceID
      ensures SampledAt(fraction, id) <==> id[..8] in SampledPrefixes(fraction)
    {
      var x := Decode(id[..8]);
      EncodeDecode(id[..8]);
      if id[..8] in SampledPrefixes(fraction) {
        var y: nat :| y < 2 * TraceIDUpperBound(fraction) && Encode(y, 8) == id[..8];
        DecodeEncode(y, 8);
      }
    }
  }

  /** Raising a fraction never drops a trace. */
  lemma RaisingKeepsSampled(low: real, high: real, id: TraceID)
    requires low <= high && SampledAt(low, id)
    ensures SampledAt(high, id)
  {
    assert Clamp(low) * TWO63 as real <= Clamp(high) * TWO63 as real;
  }

  lemma FractionEnds(fraction: real, id: TraceID)
    ensures fraction <= 0.0 ==> !SampledAt(fraction, id)
    ensures fraction >= 1.0 ==> SampledAt(fraction, id)
  {
    EncodeDecode(id[..8]);
    PowEight();
  }

  // ----- tables of thresholds

  /** `traceIDUpperBound` is unexported: the caller leaves it alone and the sampler fills it in. */
  datatype MethodFraction = MethodFraction(fraction: real, traceIDUpperBound: nat)

  /** A nil map is None. */
  datatype SpecialFraction = SpecialFraction(defaultFraction: real, methods: Option<map<string, MethodFraction>>,
                                             defaultTraceIDUpperBound: nat)

  datatype SamplerConfig = SamplerConfig(fraction: real, specialFractions: Option<map<string, SpecialFraction>>,
                                         samplerServiceAddr: string, syncInterval: int, traceIDUpperBound: nat)

  datatype MethodInfo = MethodInfo(calleeService: string, calleeMethod: string)

  /** The fraction that applies to a callee: that of the method, else the default of the service, else the global one.
      Without a callee hook it is always the global one. */
  function ApplicableFraction(config: SamplerConfig, callee: Option<MethodInfo>): (r: real) {
    match (callee, config.specialFractions)
    case (Some(info), Some(services)) =>
      if info.calleeService in services then
        var service := services[info.calleeService];
        if service.methods.Some? && info.calleeMethod in service.methods.value then
          service.methods.value[info.calleeMethod].fraction
        else
          service.defaultFraction
      else
        config.fraction
    case _ => config.fraction
  }

  /** Giving a method its own fraction, whatever else is configured for its service, decides for that method; the
      service's other methods without one get the service's default, and no other callee is touched. */
  lemma MostSpecificFraction(config: SamplerConfig, services: map<string, SpecialFraction>, name: string,
                             service: SpecialFraction, methods: map<string, MethodFraction>, callee: string,
                             own: MethodFraction)
    requires config.specialFractions == Some(services)
    requires service.methods == Some(methods[callee := own])
    ensures var after := config.(specialFractions := Some(services[name := service]));
      && ApplicableFraction(after, Some(MethodInfo(name, callee))) == own.fraction
      && (forall other :: other !in methods && other != callee ==>
            ApplicableFraction(after, Some(MethodInfo(name, other))) == service.defaultFraction)
      && (forall info: MethodInfo :: info.calleeService != name ==>
            ApplicableFraction(after, Some(info)) == ApplicableFraction(config, Some(info)))
  {}

  /** A service that is not listed, and a sampler without a callee hook, get the global fraction. */
  lemma GlobalFraction(config: SamplerConfig, info: MethodInfo)
    requires config.specialFractions.Some? ==> info.calleeService !in config.specialFractions.value
    ensures ApplicableFraction(config, Some(info)) == ApplicableFraction(config, None) == config.fraction
  {}

  /** The lookup the sampler makes for each span, on thresholds only. */
  function UpperBoundFor(config: SamplerConfig, callee: Option<MethodInfo>): (r: nat) {
    if callee.None? || config.specialFractions.None? then
      config.traceIDUpperBound
    else if callee.value.calleeService !in config.specialFractions.value then
      config.traceIDUpperBound
    else
      var service := config.specialFractions.value[callee.value.calleeService];
      if service.methods.None? then
        service.defaultTraceIDUpperBound
      else if callee.value.calleeMethod !in service.methods.value then
        service.defaultTraceIDUpperBound
      else
        service.methods.value[callee.value.calleeMethod].traceIDUpperBound
  }

  ghost predicate MethodsFilled(from: Option<map<string, MethodFraction>>, to: Option<map<string, MethodFraction>>) {
    && to.Some?
    && (forall k :: k in to.value <==> from.Some? && k in from.value)
    && (forall k :: k in to.value ==>
          to.value[k] == MethodFraction(from.value[k].fraction, TraceIDUpperBound(from.value[k].fraction)))
  }

  ghost predicate ServiceFilled(from: SpecialFraction, to: SpecialFraction) {
    && to.defaultFraction == from.defaultFraction
    && to.defaultTraceIDUpperBound == TraceIDUpperBound(from.defaultFraction)
    && MethodsFilled(from.methods, to.methods)
  }

  method MethodsSpecialFraction(fractions: Option<map<string, MethodFraction>>)
      returns (result: Option<map<string, MethodFraction>>)
    ensures MethodsFilled(fractions, result)
  {
    var filled: map<string, MethodFraction> := map[];
    if fractions.Some? {
      var todo := fractions.value.Keys;
      while todo != {}
        invariant todo <= fractions.value.Keys
        invariant forall k :: k in filled <==> k in fractions.value && k !in todo
        invariant forall k :: k in filled ==>
          filled[k] == MethodFraction(fractions.value[k].fraction, TraceIDUpperBound(fractions.value[k].fraction))
        decreases todo
      {
        var k :| k in todo;
        var v := fractions.value[k];
        filled := filled[k := MethodFraction(v.fraction, TraceIDUpperBound(v.fraction))];
        todo := todo - {k};
      }
    }
    return Some(filled);
  }

  method SpecialFractions(fractions: Option<map<string, SpecialFraction>>)
      returns (result: Option<map<string, SpecialFraction>>)
    ensures result.Some? && forall k :: k in result.value <==> fractions.Some? && k in fractions.value
    ensures forall k :: k in result.value ==> ServiceFilled(fractions.value[k], result.value[k])
  {
    var filled: map<string, SpecialFraction> := map[];
    if fractions.Some? {
      var todo := fractions.value.Keys;
      while todo != {}
        invariant todo <= fractions.value.Keys
        invariant forall k :: k in filled <==> k in fractions.value && k !in todo
        invariant forall k :: k in filled ==> ServiceFilled(fractions.value[k], filled[k])
        decreases todo
      {
        var k :| k in todo;
        var v := fractions.value[k];
        var methods := MethodsSpecialFraction(v.methods);
        filled := filled[k := SpecialFraction(v.defaultFraction, methods, TraceIDUpperBound(v.defaultFraction))];
        todo := todo - {k};
      }
    }
    return Some(filled);
  }

  const DEFAULT_SYNC_INTERVAL := 10_000_000_000

  /** The thresholds looked up in the built config are those of the applicable fractions of the given one. */
  method BuildConfig(config: SamplerConfig) returns (r: SamplerConfig)
    ensures forall callee :: UpperBoundFor(r, callee) == TraceIDUpperBound(ApplicableFraction(config, callee))
    ensures r.fraction == config.fraction && r.samplerServiceAddr == config.samplerServiceAddr
    ensures r.syncInterval == if config.syncInterval == 0 then 10_000_000_000 else config.syncInterval
  {
    var special := SpecialFractions(config.specialFractions);
    r := SamplerConfig(config.fraction, special, config.samplerServiceAddr,
                       if config.syncInterval != 0 then config.syncInterval else DEFAULT_SYNC_INTERVAL,
                       TraceIDUpperBound(config.fraction));
  }

  // ----- dyeing

  /** One entry of the sampler service's answer; a key may occur in several entries. */
  datatype Entry = Entry(key: string, values: seq<string>)

  type Dyed = map<string, map<string, bool>>

  /** What a lookup of a value under a key gives; a missing value reads as false. */
  predicate IsDyed(kvs: Dyed, key: string, value: string) {
    key in kvs && value in kvs[key] && kvs[key][value]
  }

  ghost predicate ListedIn(entries: seq<Entry>, key: string, value: string, n: nat)
    requires n <= |entries|
  {
    exists i :: 0 <= i < n && entries[i].key == key && value in entries[i].values
  }

  ghost predicate Listed(entries: seq<Entry>, key: string, value: string) {
    ListedIn(entries, key, value, |entries|)
  }

  lemma ListedNext(entries: seq<Entry>, key: string, value: string, n: nat)
    requires n < |entries|
    ensures ListedIn(entries, key, value, n + 1)
         <==> ListedIn(entries, key, value, n) || (entries[n].key == key && value in entries[n].values)
  {}

  method DyeingMetadata(entries: seq<Entry>) returns (kvs: Dyed)
    ensures forall k, v :: IsDyed(kvs, k, v) <==> Listed(entries, k, v)
  {
    kvs := map[];
    for i := 0 to |entries|
      invariant forall k, v :: IsDyed(kvs, k, v) <==> ListedIn(entries, k, v, i)
    {
      ghost var before := kvs;
      var key, values := entries[i].key, entries[i].values;
      if key !in kvs {
        kvs := kvs[key := map[]];
      }
      for j := 0 to |values|
        invariant key in kvs
        invariant forall k, v :: IsDyed(kvs, k, v) <==> IsDyed(before, k, v) || (k == key && v in values[..j])
      {
        kvs := kvs[key := kvs[key][values[j] := true]];
        assert values[..j + 1] == values[..j] + [values[j]];
      }
      assert values[..|values|] == values;
      forall k, v
        ensures IsDyed(kvs, k, v) <==> ListedIn(entries, k, v, i + 1)
      {
        ListedNext(entries, k, v, i);
      }
    }
  }

  // ----- the sampler

  datatype Decision = Drop | RecordOnly | RecordAndSample

  /** `dyeing` says whether the trace state marks the trace as dyed. */
  datatype SamplingResult = SamplingResult(decision: Decision, dyeing: bool)

  /** An attribute with its value as emitted text. */
  datatype Attribute = Attribute(key: string, value: string)

  datatype SamplingParameters = SamplingParameters(parentSampled: bool, traceID: TraceID, attributes: seq<Attribute>)

  const FORCE_SAMPLER_KEY := "trace.force.sample"

  ghost predicate Forced(attributes: seq<Attribute>) {
    exists a :: a in attributes && a.key == "trace.force.sample" && a.value != ""
  }

  ghost predicate Matches(attributes: seq<Attribute>, entries: seq<Entry>) {
    exists a :: a in attributes && Listed(entries, a.key, a.value)
  }

  class Sampler {
    const samplerConfig: SamplerConfig
    const defaultDecision: Decision
    var sampledKvs: Option<Dyed>
    /** What the caller configured, and the last answer of the sampler service. */
    ghost const given: SamplerConfig
    ghost var answer: seq<Entry>

    ghost predicate Valid()
      reads this
    {
      && samplerConfig.samplerServiceAddr == given.samplerServiceAddr
      && (forall callee ::
            UpperBoundFor(samplerConfig, callee) == TraceIDUpperBound(ApplicableFraction(given, callee)))
      && (given.samplerServiceAddr != "" ==> sampledKvs.Some?)
      && (sampledKvs.Some? ==> forall k, v :: IsDyed(sampledKvs.value, k, v) <==> Listed(answer, k, v))
    }

    constructor (config: SamplerConfig, defaultDecision: Decision)
      ensures Valid() && given == config && answer == [] && this.defaultDecision == defaultDecision
    {
      var built := BuildConfig(config);
      samplerConfig, this.defaultDecision := built, defaultDecision;
      sampledKvs := if config.samplerServiceAddr != "" then Some(map[]) else None;
      given, answer := config, [];
    }

    /** One round of the daemon; `response` is None when the call fails, and then nothing changes. */
    method UpdateDyeingMetadata(response: Option<seq<Entry>>)
      requires Valid()
      modifies this
      ensures Valid() && answer == (if response.Some? then response.value else old(answer))
      ensures response.None? ==> sampledKvs == old(sampledKvs)
    {
      if response.None? {
        return;
      }
      var kvs := DyeingMetadata(response.value);
      sampledKvs, answer := Some(kvs), response.value;
    }

    /** `callee` is what the callee hook answers for the parent context, None when no hook is set. */
    method ShouldSample(p: SamplingParameters, callee: Option<MethodInfo>) returns (r: SamplingResult)
      requires Valid()
      ensures var dyed := given.samplerServiceAddr != "" && (Forced(p.attributes) || Matches(p.attributes, answer));
        && (p.parentSampled ==> r == SamplingResult(RecordAndSample, false))
        && (!p.parentSampled && dyed ==> r == SamplingResult(RecordAndSample, true))
        && (!p.parentSampled && !dyed && SampledAt(ApplicableFraction(given, callee), p.traceID) ==>
              r == SamplingResult(RecordAndSample, false))
        && (!p.parentSampled && !dyed && !SampledAt(ApplicableFraction(given, callee), p.traceID) ==>
              r == SamplingResult(defaultDecision, false))
    {
      if p.parentSampled {
        return SamplingResult(RecordAndSample, false);
      }
      if samplerConfig.samplerServiceAddr != "" {
        for i := 0 to |p.attributes|
          invariant forall j :: 0 <= j < i ==>
            var a := p.attributes[j];
            !(a.key == FORCE_SAMPLER_KEY && a.value != "") && !Listed(answer, a.key, a.value)
        {
          var a := p.attributes[i];
          if a.key == FORCE_SAMPLER_KEY && a.value != "" {
            assert a in p.attributes;
            return SamplingResult(RecordAndSample, true);
          }
          if sampledKvs.Some? && IsDyed(sampledKvs.value, a.key, a.value) {
            assert a in p.attributes;
            return SamplingResult(RecordAndSample, true);
          }
        }
      }
      var x := Top63(p.traceID);
      if x < UpperBoundFor(samplerConfig, callee) {
        return SamplingResult(RecordAndSample, false);
      }
      return SamplingResult(defaultDecision, false);
    }
  }
}
