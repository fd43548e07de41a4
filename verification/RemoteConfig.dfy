/** The configurator that fetches remote configurations, and the code converters registered with it. */
module RemoteConfig {
  import opened Prelude
  import opened CodeSort
  import opened CodeMapping

  method BuildTable(xs: seq<Code>) returns (t: Table)
    ensures t == Group(xs)
  {
    t := map[];
    for i := 0 to |xs|
      invariant t == Group(xs[..i])
    {
      assert xs[..i + 1] == xs[..i] + [xs[i]];
      GroupAppend(xs[..i], xs[i]);
      t := Append(t, xs[i]);
    }
    assert xs[..|xs|] == xs;
  }

  lemma RemoteNext(sorted: seq<Code>, remote: seq<RemoteCode>, i: nat)
    requires i < |remote|
    ensures Group(sorted + NewCodes(remote[..i + 1]))
         == Append(Group(sorted + NewCodes(remote[..i])), NewCode(remote[i]))
  {
    hide Group, NewCode, NewCodes, Append;
    NewCodesAppend(remote, i);
    GroupAppend(sorted + NewCodes(remote[..i]), NewCode(remote[i]));
    assert sorted + NewCodes(remote[..i + 1]) == sorted + NewCodes(remote[..i]) + [NewCode(remote[i])];
  }

  method AddRemote(local: Table, ghost sorted: seq<Code>, remote: seq<RemoteCode>) returns (t: Table)
    requires local == Group(sorted)
    ensures t == Group(sorted + NewCodes(remote))
  {
    t := local;
    assert remote[..0] == [] && sorted + NewCodes(remote[..0]) == sorted;
    hide Group, NewCode, NewCodes, Append;
    for i := 0 to |remote|
      invariant t == Group(sorted + NewCodes(remote[..i]))
    {
      RemoteNext(sorted, remote, i);
      t := Append(t, NewCode(remote[i]));
    }
    assert remote[..|remote|] == remote;
  }

  /** The array holds what some number of sorts make of the given entries. */
  ghost predicate SortedSome(local: seq<Code>, now: seq<Code>) {
    exists t :: t >= 1 && now == SortTimes(local, t)
  }

  lemma SortedOnceMore(local: seq<Code>, now: seq<Code>)
    requires SortedSome(local, now)
    ensures SortedSome(local, InsertionSort(now))
  {
    hide InsertionSort;
    var t :| t >= 1 && now == SortTimes(local, t);
    SortedAgain(local, t);
  }

  lemma SortedAgain(local: seq<Code>, t: nat)
    ensures SortTimes(local, t + 1) == InsertionSort(SortTimes(local, t))
  {}

  lemma FirstSort(local: seq<Code>)
    ensures InsertionSort(local) == SortTimes(local, 1)
  {
    SortedAgain(local, 0);
  }

  class CodeConverter {
    /** Several converters may share one array; each callback sorts it once more. */
    const codes: array<Code>
    const defaultCodeTypeFunc: (string, string, string) -> Code
    var mapping: Table
    ghost const local: seq<Code> // the entries as configured
    ghost var sorts: nat // how often they had been sorted when the live table was built
    ghost var lastApplied: Option<Config> // the argument of the last callback; None for nil and for no call yet
    ghost var applies: nat // how many callbacks there were

    /** The live table is that of the sorted local entries followed by those of the last configuration. */
    ghost predicate Valid()
      reads this, codes
    {
      && sorts >= 1
      && SortedSome(local, codes[..])
      && mapping == Group(SortTimes(local, sorts) + RemoteCodes(lastApplied))
    }

    /** Nobody else has sorted the array since. */
    ghost predicate InStep()
      reads this, codes
    {
      codes[..] == SortTimes(local, sorts)
    }

    constructor (codes: array<Code>, default: (string, string, string) -> Code)
      modifies codes
      ensures Valid() && this.codes == codes && local == old(codes[..]) && lastApplied == None && applies == 0
      ensures this.defaultCodeTypeFunc == default
      ensures InStep() && sorts == 1
      ensures codes[..] == InsertionSort(old(codes[..]))
    {
      this.codes := codes;
      this.defaultCodeTypeFunc := default;
      local := codes[..];
      sorts := 1;
      lastApplied, applies := None, 0;
      mapping := map[];
      new;
      hide InsertionSort, Group, SortTimes;
      FirstSort(local);
      mapping := CovertCodesToMapping();
      assert codes[..] + RemoteCodes(None) == codes[..];
    }

    method CovertCodesToMapping() returns (t: Table)
      modifies codes
      ensures codes[..] == InsertionSort(old(codes[..])) && t == Group(codes[..])
    {
      SortCodes(codes);
      t := BuildTable(codes[..]);
    }

    /** The callback registered with the configurator. */
    method ApplyConfig(config: Option<Config>)
      requires Valid()
      modifies this`mapping, this`sorts, this`lastApplied, this`applies, codes
      ensures Valid() && lastApplied == config && applies == old(applies) + 1
      ensures codes[..] == InsertionSort(old(codes[..])) && mapping == Group(codes[..] + RemoteCodes(config))
      ensures InStep() && (old(InStep()) ==> sorts == old(sorts) + 1)
    {
      hide InsertionSort, Group, SortTimes;
      SortedAgain(local, sorts);
      SortedOnceMore(local, codes[..]);
      ghost var inStep := codes[..] == SortTimes(local, sorts);
      var t := CovertCodesToMapping();
      mapping := AddRemote(t, codes[..], if config.Some? then config.value.codes else []);
      ghost var n: nat :| n >= 1 && codes[..] == SortTimes(local, n);
      sorts, lastApplied, applies := if inStep then sorts + 1 else n, config, applies + 1;
    }

    /** Another converter with the same array was applied; the live table of this one is as before. */
    twostate lemma ArraySortedAgain()
      requires old(Valid()) && unchanged(this) && codes[..] == InsertionSort(old(codes[..]))
      ensures Valid()
    {
      SortedOnceMore(local, old(codes[..]));
    }

    /** A local entry if one matches, else what the first matching code of the last configuration says, else the
        default. */
    method Mapping(code: string, service: string, callee: string) returns (r: Code)
      requires Valid()
      ensures var a := Answer(SortTimes(local, sorts), lastApplied, code, service, callee);
        r == if a.Some? then a.value else defaultCodeTypeFunc(code, service, callee)
      ensures var own, remote := LocalAnswer(SortTimes(local, sorts), code, service, callee), CodesOf(lastApplied);
        if own.Some? then r == own.value
        else
          || FirstRemoteSays(remote, code, service, callee, r)
          || (NoRemoteMatches(remote, code, service, callee) && r == defaultCodeTypeFunc(code, service, callee))
    {
      RemoteAnswers(SortTimes(local, sorts), lastApplied, code, service, callee);
      hide FirstRemoteSays, NoRemoteMatches, LocalAnswer, SortTimes, RemoteCodes, NewCode;
      GroupIsForCode(SortTimes(local, sorts) + RemoteCodes(lastApplied), code);
      if code in mapping {
        var m := MatchCode(mapping[code], service, callee);
        if m.Some? {
          return m.value;
        }
      }
      r := defaultCodeTypeFunc(code, service, callee);
    }
  }

  /** Applies the configuration to one converter; others that share its array stay valid. */
  method ApplyAmong(f: CodeConverter, config: Option<Config>, ghost all: set<CodeConverter>)
    requires f in all && forall c :: c in all ==> c.Valid()
    modifies f`mapping, f`sorts, f`lastApplied, f`applies, f.codes
    ensures forall c :: c in all ==> c.Valid()
    ensures f.lastApplied == config && f.applies == old(f.applies) + 1
    ensures f.InStep() && (old(f.InStep()) ==> f.sorts == old(f.sorts) + 1)
  {
    hide InsertionSort, CodeConverter.Valid;
    f.ApplyConfig(config);
    forall c | c in all && c != f
      ensures c.Valid()
    {
      if c.codes == f.codes {
        c.ArraySortedAgain();
      }
    }
  }

  class RemoteConfigurator {
    var lastConfig: Option<Config>
    var configApplyFuncList: seq<CodeConverter>

    ghost function Converters(): (r: set<CodeConverter>)
      reads this
    {
      set c | c in configApplyFuncList
    }

    ghost function Arrays(): (r: set<array<Code>>)
      reads this
    {
      set c | c in configApplyFuncList :: c.codes
    }

    /** Every registered converter runs on the latest configuration. */
    ghost predicate Valid()
      reads this, Converters(), Arrays()
    {
      forall c :: c in configApplyFuncList ==> c.Valid() && c.lastApplied == lastConfig
    }

    constructor ()
      ensures Valid() && lastConfig == None && configApplyFuncList == []
    {
      lastConfig, configApplyFuncList := None, [];
    }

    lemma InArrays()
      ensures forall k :: 0 <= k < |configApplyFuncList| ==>
        configApplyFuncList[k] in Converters() && configApplyFuncList[k].codes in Arrays()
    {}

    /** The locked part of sync: the configuration just fetched replaces the last one and goes to every callback, as
        often as it is registered. */
    method Sync(fetched: Option<Config>)
      requires Valid()
      modifies this`lastConfig, Converters(), Arrays()
      ensures Valid() && lastConfig == fetched && configApplyFuncList == old(configApplyFuncList)
      ensures forall c :: c in configApplyFuncList ==> c.applies == old(c.applies) + multiset(configApplyFuncList)[c]
    {
      hide CodeConverter.Valid, CodeConverter.InStep, Group, SortTimes, RemoteCodes, Arrays;
      InArrays();
      lastConfig := fetched;
      var fs := configApplyFuncList;
      for i := 0 to |fs|
        invariant configApplyFuncList == fs && lastConfig == fetched
        invariant forall c :: c in Converters() ==> c.Valid()
        invariant forall c :: c in fs ==> c.applies == old(c.applies) + multiset(fs[..i])[c]
        invariant forall k :: 0 <= k < i ==> fs[k].lastApplied == fetched
      {
        assert fs[..i + 1] == fs[..i] + [fs[i]];
        ApplyAmong(fs[i], fetched, Converters());
      }
      assert fs[..|fs|] == fs;
    }

    /** Registering applies the last configuration at once, if there is one. */
    method RegisterConfigApplyFunc(fn: CodeConverter)
      requires Valid() && fn.Valid() && (lastConfig.None? ==> fn.lastApplied == None)
      modifies this`configApplyFuncList, fn`mapping, fn`sorts, fn`lastApplied, fn`applies, fn.codes
      ensures Valid() && configApplyFuncList == old(configApplyFuncList) + [fn] && lastConfig == old(lastConfig)
      ensures fn.applies == old(fn.applies) + if lastConfig.Some? then 1 else 0
    {
      hide CodeConverter.Valid, Group, SortTimes, RemoteCodes;
      configApplyFuncList := configApplyFuncList + [fn];
      if lastConfig.Some? {
        ApplyAmong(fn, lastConfig, Converters());
      }
    }
  }
}
