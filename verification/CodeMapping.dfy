/** Return-code mapping: the lookup table built from the sorted local entries and those of a remote configuration, and
    what a query finds in it. */
module CodeMapping {
  import opened Prelude
  import opened CodeSort
  import Truncation

  /** A code of the remote configuration. */
  datatype RemoteCode = RemoteCode(code: int, kind: string, description: Bytes, service: string, callee: string)

  datatype Config = Config(codes: seq<RemoteCode>)

  type Table = map<string, seq<Code>>

  // ----- building the table

  function Append(t: Table, x: Code): (r: Table) {
    t[x.code := (if x.code in t then t[x.code] else []) + [x]]
  }

  function Group(xs: seq<Code>): (r: Table) {
    if xs == [] then map[] else Append(Group(xs[..|xs| - 1]), xs[|xs| - 1])
  }

  /** The entries for one code, in order. */
  function ForCode(xs: seq<Code>, code: string): (r: seq<Code>) {
    if xs == [] then []
    else ForCode(xs[..|xs| - 1], code) + if xs[|xs| - 1].code == code then [xs[|xs| - 1]] else []
  }

  lemma GroupAppend(xs: seq<Code>, x: Code)
    ensures Group(xs + [x]) == Append(Group(xs), x)
  {
    assert (xs + [x])[..|xs|] == xs;
  }

  lemma NewCodesAppend(rs: seq<RemoteCode>, i: nat)
    requires i < |rs|
    ensures NewCodes(rs[..i + 1]) == NewCodes(rs[..i]) + [NewCode(rs[i])]
  {
    assert rs[..i + 1][..i] == rs[..i];
  }

  lemma {:induction false} GroupIsForCode(xs: seq<Code>, code: string)
    ensures (code in Group(xs)) <==> ForCode(xs, code) != []
    ensures code in Group(xs) ==> Group(xs)[code] == ForCode(xs, code)
  {
    if xs != [] {
      GroupIsForCode(xs[..|xs| - 1], code);
    }
  }

  function Digits(n: nat): (r: string) {
    if n < 10 then ["0123456789"[n]] else Digits(n / 10) + ["0123456789"[n % 10]]
  }

  /** strconv.FormatInt in base ten. */
  function FormatInt(n: int): (r: string) {
    if n < 0 then "-" + Digits(-n) else Digits(n)
  }

  function DigitsValue(s: string): (r: nat) {
    if s == [] then 0
    else
      var last := s[|s| - 1];
      10 * DigitsValue(s[..|s| - 1]) + if '0' <= last <= '9' then (last - '0') as nat else 0
  }

  lemma {:induction false} DigitsReadBack(n: nat)
    ensures DigitsValue(Digits(n)) == n && Digits(n) != [] && '-' !in Digits(n)
  {
    if n >= 10 {
      DigitsReadBack(n / 10);
      var last := "0123456789"[n % 10];
      assert Digits(n)[..|Digits(n)| - 1] == Digits(n / 10);
      assert (last - '0') as nat == n % 10;
    } else {
      assert Digits(n)[..0] == [];
    }
  }

  /** Different remote codes have different keys. */
  lemma FormatIntInjective(n: int, k: int)
    ensures FormatInt(n) == FormatInt(k) ==> n == k
  {
    DigitsReadBack(if n < 0 then -n else n);
    DigitsReadBack(if k < 0 then -k else k);
    if FormatInt(n) == FormatInt(k) {
      assert FormatInt(n)[0] == FormatInt(k)[0];
      if n < 0 {
        assert FormatInt(n)[1..] == Digits(-n);
        assert FormatInt(k)[1..] == Digits(-k);
      }
    }
  }

  /** Decimal digits without a leading zero. */
  predicate IsDecimal(s: string) {
    s != [] && (forall i :: 0 <= i < |s| ==> '0' <= s[i] <= '9') && (|s| > 1 ==> s[0] != '0')
  }

  /** The string writes the number in decimal, with a sign exactly if it is negative. */
  predicate Numeral(s: string, n: int) {
    if s != [] && s[0] == '-' then IsDecimal(s[1..]) && DigitsValue(s[1..]) == -n && n < 0
    else IsDecimal(s) && n == DigitsValue(s)
  }

  lemma {:induction false} DigitsDecimal(n: nat)
    ensures IsDecimal(Digits(n)) && (n > 0 ==> Digits(n)[0] != '0')
  {
    if n >= 10 {
      DigitsDecimal(n / 10);
    }
  }

  lemma {:induction false} DecimalPositive(s: string)
    requires IsDecimal(s) && s[0] != '0'
    ensures DigitsValue(s) > 0
  {
    if |s| > 1 {
      DecimalPositive(s[..|s| - 1]);
    } else {
      assert s[..0] == [];
    }
  }

  lemma DigitsNext(n: nat, c: char)
    requires n > 0 && '0' <= c <= '9'
    ensures Digits(10 * n + (c - '0') as nat) == Digits(n) + [c]
  {
    DigitBack(c);
  }

  lemma DigitBack(c: char)
    requires '0' <= c <= '9'
    ensures "0123456789"[(c - '0') as nat] == c
  {}

  lemma DecimalOne(c: char)
    requires '0' <= c <= '9'
    ensures Digits(DigitsValue([c])) == [c]
  {
    DigitBack(c);
    assert [c][..0] == [];
  }

  lemma DecimalInit(init: string, last: char)
    requires IsDecimal(init + [last]) && init != []
    ensures IsDecimal(init) && init[0] != '0' && '0' <= last <= '9'
  {
    assert (init + [last])[|init|] == last;
    assert forall i :: 0 <= i < |init| ==> (init + [last])[i] == init[i];
  }

  lemma ValueNext(init: string, last: char)
    requires '0' <= last <= '9'
    ensures DigitsValue(init + [last]) == 10 * DigitsValue(init) + (last - '0') as nat
  {
    assert (init + [last])[..|init|] == init;
  }

  lemma {:induction false} DecimalIsDigits(s: string)
    requires IsDecimal(s)
    ensures Digits(DigitsValue(s)) == s
  {
    var init, last := s[..|s| - 1], s[|s| - 1];
    assert s == init + [last];
    if init == [] {
      DecimalOne(last);
    } else {
      DecimalInit(init, last);
      hide IsDecimal, Digits, DigitsValue;
      DecimalIsDigits(init);
      DecimalPositive(init);
      ValueNext(init, last);
      DigitsNext(DigitsValue(init), last);
    }
  }

  /** The key of a remote code is the one decimal numeral of its number, sign included. */
  lemma NumeralIff(s: string, n: int)
    ensures Numeral(s, n) <==> s == FormatInt(n)
  {
    if n < 0 {
      NegativeIff(s, n, -n);
    } else {
      NaturalIff(s, n);
    }
  }

  lemma NaturalIff(s: string, n: nat)
    ensures Numeral(s, n) <==> s == Digits(n)
  {
    DigitsReadBack(n);
    DigitsDecimal(n);
    if s != [] && s[0] == '-' {
    } else if IsDecimal(s) {
      DecimalIsDigits(s);
    }
    hide Digits, DigitsValue, IsDecimal;
  }

  lemma NegativeIff(s: string, n: int, size: nat)
    requires n < 0 && size == -n
    ensures Numeral(s, n) <==> s == "-" + Digits(size)
  {
    DigitsReadBack(size);
    DigitsDecimal(size);
    assert ("-" + Digits(size))[1..] == Digits(size);
    if s != [] && s[0] == '-' && IsDecimal(s[1..]) {
      DecimalIsDigits(s[1..]);
      assert s == "-" + s[1..];
    }
    hide Digits, DigitsValue, IsDecimal;
  }

  /** NewCode: a kind other than the three known ones counts as success. */
  function NewCode(r: RemoteCode): (res: Code) {
    Code(FormatInt(r.code), if r.kind == "exception" || r.kind == "timeout" then r.kind else "success",
         Truncation.LegalizeDescription(r.description), r.service, r.callee)
  }

  function NewCodes(rs: seq<RemoteCode>): (r: seq<Code>) {
    if rs == [] then [] else NewCodes(rs[..|rs| - 1]) + [NewCode(rs[|rs| - 1])]
  }

  function RemoteCodes(config: Option<Config>): (r: seq<Code>) {
    match config case None => [] case Some(c) => NewCodes(c.codes)
  }

  // ----- looking up

  predicate Matches(x: Code, service: string, callee: string) {
    x.service == service || x.callee == callee || (x.service == "" && x.callee == "")
  }

  function FirstMatch(xs: seq<Code>, service: string, callee: string): (r: Option<Code>) {
    if xs == [] then None
    else if Matches(xs[0], service, callee) then Some(xs[0])
    else FirstMatch(xs[1..], service, callee)
  }

  method MatchCode(xs: seq<Code>, service: string, callee: string) returns (r: Option<Code>)
    ensures r == FirstMatch(xs, service, callee)
  {
    for i := 0 to |xs|
      invariant FirstMatch(xs, service, callee) == FirstMatch(xs[i..], service, callee)
    {
      if xs[i].service == service || xs[i].callee == callee {
        return Some(xs[i]);
      }
      if xs[i].service == "" && xs[i].callee == "" {
        return Some(xs[i]);
      }
    }
    return None;
  }

  lemma {:induction false} FirstMatchConcat(a: seq<Code>, b: seq<Code>, service: string, callee: string)
    ensures FirstMatch(a + b, service, callee) ==
      if FirstMatch(a, service, callee).Some? then FirstMatch(a, service, callee) else FirstMatch(b, service, callee)
  {
    if a == [] {
      assert a + b == b;
    } else {
      assert (a + b)[1..] == a[1..] + b;
      FirstMatchConcat(a[1..], b, service, callee);
    }
  }

  /** The first match is an entry that matches, with none before it; there is none exactly if nothing matches. */
  lemma {:induction false} FirstMatchFinds(xs: seq<Code>, service: string, callee: string) returns (i: nat)
    ensures FirstMatch(xs, service, callee).None? ==> i == |xs|
    ensures FirstMatch(xs, service, callee).Some? ==> i < |xs| && FirstMatch(xs, service, callee) == Some(xs[i])
    ensures FirstMatch(xs, service, callee).Some? ==> Matches(xs[i], service, callee)
    ensures i <= |xs| && forall j :: 0 <= j < i ==> !Matches(xs[j], service, callee)
  {
    if xs == [] || Matches(xs[0], service, callee) {
      i := 0;
    } else {
      var k := FirstMatchFinds(xs[1..], service, callee);
      i := k + 1;
      forall j | 0 <= j < i
        ensures !Matches(xs[j], service, callee)
      {
        if j > 0 {
          assert xs[1..][j - 1] == xs[j];
        }
      }
    }
  }

  /** What Mapping answers from the local entries sorted as `sorted` and a remote configuration, before it falls back
      to its default. */
  function Answer(sorted: seq<Code>, config: Option<Config>, code: string, service: string, callee: string)
    : (r: Option<Code>)
  {
    FirstMatch(ForCode(sorted + RemoteCodes(config), code), service, callee)
  }

  // ----- remote answers, in terms of the remote configuration

  function CodesOf(config: Option<Config>): (r: seq<RemoteCode>) {
    match config case None => [] case Some(c) => c.codes
  }

  /** The remote code is for the query's code and names its service, or its method, or neither of the two. */
  predicate RemoteMatches(c: RemoteCode, code: string, service: string, callee: string) {
    Numeral(code, c.code) && (c.service == service || c.callee == callee || (c.service == "" && c.callee == ""))
  }

  /** The entry says what the remote code says, with its description cut and an unknown kind read as success. */
  predicate SaysTheSame(x: Code, c: RemoteCode) {
    && Numeral(x.code, c.code) && x.service == c.service && x.callee == c.callee
    && x.kind == (if c.kind in ["success", "exception", "timeout"] then c.kind else "success")
    && x.description == Truncation.LegalizeDescription(c.description)
  }

  predicate NoRemoteMatches(rs: seq<RemoteCode>, code: string, service: string, callee: string) {
    forall i :: 0 <= i < |rs| ==> !RemoteMatches(rs[i], code, service, callee)
  }

  /** The entry is what the first of the matching remote codes says. */
  ghost predicate FirstRemoteSays(rs: seq<RemoteCode>, code: string, service: string, callee: string, x: Code) {
    exists i :: 0 <= i < |rs| && RemoteMatches(rs[i], code, service, callee) && SaysTheSame(x, rs[i])
      && NoRemoteMatches(rs[..i], code, service, callee)
  }

  lemma NewCodeSays(c: RemoteCode, code: string, service: string, callee: string)
    ensures SaysTheSame(NewCode(c), c)
    ensures RemoteMatches(c, code, service, callee) <==> NewCode(c).code == code && Matches(NewCode(c), service, callee)
  {
    NumeralIff(code, c.code);
    NumeralIff(FormatInt(c.code), c.code);
  }

  lemma {:induction false} FirstRemote(rs: seq<RemoteCode>, code: string, service: string, callee: string)
    ensures var a := FirstMatch(ForCode(NewCodes(rs), code), service, callee);
      if a.Some? then FirstRemoteSays(rs, code, service, callee, a.value)
      else NoRemoteMatches(rs, code, service, callee)
  {
    NoRemoteCodes(code, service, callee);
    hide RemoteMatches, SaysTheSame, FirstRemoteSays, NoRemoteMatches, FirstMatch, ForCode, NewCodes, NewCode, Matches;
    if rs != [] {
      var init, c := rs[..|rs| - 1], rs[|rs| - 1];
      FirstRemote(init, code, service, callee);
      assert rs == init + [c];
      OneMore(init, c, code, service, callee);
      FirstRemoteNext(init, c, FirstMatch(ForCode(NewCodes(init), code), service, callee), code, service, callee);
    }
  }

  lemma NoRemoteCodes(code: string, service: string, callee: string)
    ensures FirstMatch(ForCode(NewCodes([]), code), service, callee) == None
    ensures NoRemoteMatches([], code, service, callee)
  {}

  lemma FirstRemoteNext(init: seq<RemoteCode>, c: RemoteCode, a: Option<Code>, code: string, service: string,
                        callee: string)
    requires if a.Some? then FirstRemoteSays(init, code, service, callee, a.value)
             else NoRemoteMatches(init, code, service, callee)
    ensures a.Some? ==> FirstRemoteSays(init + [c], code, service, callee, a.value)
    ensures a.None? ==>
      if NewCode(c).code == code && Matches(NewCode(c), service, callee)
      then FirstRemoteSays(init + [c], code, service, callee, NewCode(c))
      else NoRemoteMatches(init + [c], code, service, callee)
  {
    NewCodeSays(c, code, service, callee);
    hide RemoteMatches, SaysTheSame, NewCode, Matches;
    var rs := init + [c];
    if a.Some? {
      var i :| 0 <= i < |init| && RemoteMatches(init[i], code, service, callee) && SaysTheSame(a.value, init[i])
        && NoRemoteMatches(init[..i], code, service, callee);
      assert rs[i] == init[i] && rs[..i] == init[..i];
    } else {
      assert rs[|init|] == c && rs[..|init|] == init;
    }
  }

  lemma OneMore(init: seq<RemoteCode>, c: RemoteCode, code: string, service: string, callee: string)
    ensures var a := FirstMatch(ForCode(NewCodes(init), code), service, callee);
      FirstMatch(ForCode(NewCodes(init + [c]), code), service, callee)
        == if a.Some? then a
           else if NewCode(c).code == code && Matches(NewCode(c), service, callee) then Some(NewCode(c)) else None
  {
    assert (init + [c])[..|init|] == init;
    var xs, x := NewCodes(init), NewCode(c);
    assert (xs + [x])[..|xs|] == xs;
    var tail := if x.code == code then [x] else [];
    FirstMatchConcat(ForCode(xs, code), tail, service, callee);
    hide Matches, NewCode;
  }

  /** A query that the local entries answer gets that answer. Any other is answered by the first remote code that
      matches, and by none exactly if none does. */
  lemma RemoteAnswers(sorted: seq<Code>, config: Option<Config>, code: string, service: string, callee: string)
    ensures var local, a := LocalAnswer(sorted, code, service, callee), Answer(sorted, config, code, service, callee);
      if local.Some? then a == local
      else if a.Some? then FirstRemoteSays(CodesOf(config), code, service, callee, a.value)
      else NoRemoteMatches(CodesOf(config), code, service, callee)
  {
    LocalAnswerConcat(sorted, RemoteCodes(config), code, service, callee);
    FirstRemote(CodesOf(config), code, service, callee);
    hide FirstMatch, ForCode, FirstRemoteSays, NoRemoteMatches;
  }

  // ----- specificity

  lemma {:induction false} ForCodeConcat(a: seq<Code>, b: seq<Code>, code: string)
    ensures ForCode(a + b, code) == ForCode(a, code) + ForCode(b, code)
    decreases |b|
  {
    if b == [] {
      assert a + b == a;
    } else {
      ForCodeConcat(a, b[..|b| - 1], code);
      assert (a + b)[..|a + b| - 1] == a + b[..|b| - 1];
    }
  }

  lemma {:induction false} ForCodeMembers(xs: seq<Code>, code: string, y: Code)
    ensures y in ForCode(xs, code) <==> y in xs && y.code == code
  {
    if xs != [] {
      ForCodeMembers(xs[..|xs| - 1], code, y);
      assert xs == xs[..|xs| - 1] + [xs[|xs| - 1]];
    }
  }

  lemma {:induction false} ForCodeSorted(xs: seq<Code>, code: string)
    requires MostSpecificFirst(xs)
    ensures MostSpecificFirst(ForCode(xs, code))
  {
    if xs != [] {
      var init, y := xs[..|xs| - 1], xs[|xs| - 1];
      ForCodeSorted(init, code);
      var r := ForCode(init, code);
      forall i | 0 <= i < |r|
        ensures Rank(r[i]) >= Rank(y)
      {
        ForCodeMembers(init, code, r[i]);
        var k :| 0 <= k < |init| && init[k] == r[i];
        assert Rank(xs[k]) >= Rank(xs[|xs| - 1]);
      }
      hide Rank;
    }
  }

  /** Among the local entries for a code that match a query, the answer is one that names the most: in particular an
      entry that names neither service nor method is never the answer when a matching one names something. */
  lemma MostSpecificLocalAnswer(local: seq<Code>, config: Option<Config>, code: string, service: string,
                                callee: string, y: Code)
    requires y in local && y.code == code && Matches(y, service, callee)
    ensures var r := Answer(InsertionSort(local), config, code, service, callee);
      && r.Some? && r.value in local && r.value.code == code
      && Matches(r.value, service, callee) && Rank(r.value) >= Rank(y)
  {
    var sorted := InsertionSort(local);
    var mine := ForCode(sorted, code);
    SortSorts(local);
    ForCodeSorted(sorted, code);
    ForCodeConcat(sorted, RemoteCodes(config), code);
    FirstMatchConcat(mine, ForCode(RemoteCodes(config), code), service, callee);
    var i := FirstMatchFinds(mine, service, callee);
    hide InsertionSort, FirstMatch, ForCode, Rank, Matches;
    SortMembers(local, y);
    ForCodeMembers(sorted, code, y);
    var k :| 0 <= k < |mine| && mine[k] == y;
    assert i <= k;
    ForCodeMembers(sorted, code, mine[i]);
    SortMembers(local, mine[i]);
  }

  lemma SortMembers(xs: seq<Code>, y: Code)
    ensures y in InsertionSort(xs) <==> y in xs
  {
    hide InsertionSort;
    SortPermutes(xs);
    InBoth(InsertionSort(xs), xs, y);
  }

  lemma InBoth(a: seq<Code>, b: seq<Code>, y: Code)
    requires multiset(a) == multiset(b)
    ensures y in a <==> y in b
  {
    assert y in multiset(a) <==> y in multiset(b);
  }

  // ----- what a remote update does to local answers

  function LocalAnswer(xs: seq<Code>, code: string, service: string, callee: string): (r: Option<Code>) {
    FirstMatch(ForCode(xs, code), service, callee)
  }

  function OrElse(a: Option<Code>, b: Option<Code>): (r: Option<Code>) {
    if a.Some? then a else b
  }

  lemma LocalAnswerConcat(a: seq<Code>, b: seq<Code>, code: string, service: string, callee: string)
    ensures LocalAnswer(a + b, code, service, callee)
         == OrElse(LocalAnswer(a, code, service, callee), LocalAnswer(b, code, service, callee))
  {
    ForCodeConcat(a, b, code);
    FirstMatchConcat(ForCode(a, code), ForCode(b, code), service, callee);
  }

  lemma BlocksAnswer(b: seq<Code>, p: seq<Code>, q: seq<Code>, n: seq<Code>, code: string, service: string,
                     callee: string)
    ensures LocalAnswer(Blocks(b, p, q, n), code, service, callee)
         == OrElse(LocalAnswer(b, code, service, callee),
                   OrElse(LocalAnswer(p, code, service, callee),
                          OrElse(LocalAnswer(q, code, service, callee), LocalAnswer(n, code, service, callee))))
  {
    LocalAnswerConcat(b + (p + q), n, code, service, callee);
    LocalAnswerConcat(b, p + q, code, service, callee);
    LocalAnswerConcat(p, q, code, service, callee);
  }

  lemma AnswerOfKind(xs: seq<Code>, k: Kind, code: string, service: string, callee: string)
    ensures var r := LocalAnswer(OfKind(xs, k), code, service, callee); r.Some? ==> KindOf(r.value) == k
  {
    var ys := OfKind(xs, k);
    OfKindUniform(xs, k);
    var i := FirstMatchFinds(ForCode(ys, code), service, callee);
    if LocalAnswer(ys, code, service, callee).Some? {
      ForCodeMembers(ys, code, ForCode(ys, code)[i]);
    }
  }

  /** No entry naming both matches the query, but a service-only one and a method-only one do. */
  predicate Torn(local: seq<Code>, code: string, service: string, callee: string) {
    && LocalAnswer(OfKind(local, Both), code, service, callee).None?
    && LocalAnswer(OfKind(local, ServiceOnly), code, service, callee).Some?
    && LocalAnswer(OfKind(local, MethodOnly), code, service, callee).Some?
  }

  /** Sorting once more leaves the local answer to a query alone exactly when the query is not torn. */
  lemma ResortKeepsAnswerIff(local: seq<Code>, code: string, service: string, callee: string)
    ensures LocalAnswer(InsertionSort(InsertionSort(local)), code, service, callee)
         == LocalAnswer(InsertionSort(local), code, service, callee)
       <==> !Torn(local, code, service, callee)
  {
    SortedTwice(local);
    SortIsClosedForm(local);
    AnswerOfKind(local, ServiceOnly, code, service, callee);
    AnswerOfKind(local, MethodOnly, code, service, callee);
    if Torn(local, code, service, callee) {
      TornIsMixed(local, code, service, callee);
    }
    var b, s, m, n :=
      OfKind(local, Both), OfKind(local, ServiceOnly), OfKind(local, MethodOnly), OfKind(local, Neither);
    BlocksAnswer(b, s, m, n, code, service, callee);
    BlocksAnswer(b, m, s, n, code, service, callee);
    hide OfKind, ServiceFirst, InsertionSort, Blocks, LocalAnswer, KindOf, Mixed;
  }

  lemma TornIsMixed(local: seq<Code>, code: string, service: string, callee: string)
    requires Torn(local, code, service, callee)
    ensures Mixed(local)
  {}

  /** After any number of updates, whatever they carried, a query that is not torn gets the local answer it got from
      the start. */
  lemma LocalAnswersStable(local: seq<Code>, n: nat, config: Option<Config>, code: string, service: string,
                           callee: string)
    requires n >= 1 && !Torn(local, code, service, callee)
    requires LocalAnswer(InsertionSort(local), code, service, callee).Some?
    ensures Answer(SortTimes(local, n), config, code, service, callee)
         == LocalAnswer(InsertionSort(local), code, service, callee)
  {
    SortTimesParity(local, n);
    ResortKeepsAnswerIff(local, code, service, callee);
    LocalAnswerConcat(SortTimes(local, n), RemoteCodes(config), code, service, callee);
  }

  lemma AnswerIsLocal(sorted: seq<Code>, config: Option<Config>, code: string, service: string, callee: string)
    ensures Answer(sorted, config, code, service, callee)
         == LocalAnswer(sorted + RemoteCodes(config), code, service, callee)
  {}

  /** After the first sort a torn query is answered by a service-only entry exactly if the first entry of the list that
      names one of the two names the method, otherwise by a method-only entry. */
  lemma TornAnswerIff(local: seq<Code>, code: string, service: string, callee: string)
    requires Torn(local, code, service, callee)
    ensures var r := LocalAnswer(InsertionSort(local), code, service, callee);
      r.Some? && KindOf(r.value) == if ServiceFirst(local) then MethodOnly else ServiceOnly
  {
    SortIsClosedForm(local);
    AnswerOfKind(local, ServiceOnly, code, service, callee);
    AnswerOfKind(local, MethodOnly, code, service, callee);
    var b, s, m, n :=
      OfKind(local, Both), OfKind(local, ServiceOnly), OfKind(local, MethodOnly), OfKind(local, Neither);
    BlocksAnswer(b, s, m, n, code, service, callee);
    BlocksAnswer(b, m, s, n, code, service, callee);
    hide OfKind, ServiceFirst, InsertionSort, Blocks, LocalAnswer, KindOf;
  }

  /** A torn query is answered differently after every single update, whatever the two updates carry. */
  lemma TornAnswersAlternate(local: seq<Code>, n: nat, config: Option<Config>, next: Option<Config>, code: string,
                             service: string, callee: string)
    requires n >= 1 && Torn(local, code, service, callee)
    ensures Answer(SortTimes(local, n), config, code, service, callee)
         != Answer(SortTimes(local, n + 1), next, code, service, callee)
  {
    hide InsertionSort, LocalAnswer, SortTimes, RemoteCodes, Torn, Answer;
    SortTimesNext(local, n);
    ResortKeepsAnswerIff(local, code, service, callee);
    AnswerIsLocal(SortTimes(local, n), config, code, service, callee);
    AnswerIsLocal(SortTimes(local, n + 1), next, code, service, callee);
    LocalAnswerConcat(SortTimes(local, n), RemoteCodes(config), code, service, callee);
    LocalAnswerConcat(SortTimes(local, n + 1), RemoteCodes(next), code, service, callee);
    TornHasAnswer(local, code, service, callee);
  }

  lemma TornHasAnswer(local: seq<Code>, code: string, service: string, callee: string)
    requires Torn(local, code, service, callee)
    ensures LocalAnswer(InsertionSort(local), code, service, callee).Some?
    ensures LocalAnswer(InsertionSort(InsertionSort(local)), code, service, callee).Some?
  {
    SortedTwice(local);
    SortIsClosedForm(local);
    var b, s, m, n :=
      OfKind(local, Both), OfKind(local, ServiceOnly), OfKind(local, MethodOnly), OfKind(local, Neither);
    BlocksAnswer(b, s, m, n, code, service, callee);
    BlocksAnswer(b, m, s, n, code, service, callee);
    hide OfKind, ServiceFirst, InsertionSort, Blocks, LocalAnswer;
  }

  /** Two entries are enough to tear a query. */
  lemma TornExample(s: Code, m: Code)
    requires s.code == m.code && KindOf(s) == ServiceOnly && KindOf(m) == MethodOnly
    ensures Torn([s, m], s.code, s.service, m.callee)
  {
    var xs := [s, m];
    hide OfKind, KindOf, LocalAnswer;
    Unfolded([], s, [s]);
    Unfolded([s], m, xs);
    NothingOfKind();
    assert OfKind(xs, ServiceOnly) == [] + [s] == [s] && OfKind(xs, MethodOnly) == [] + [m] == [m];
    assert OfKind(xs, Both) == [];
    OneAnswer(s, s.service, m.callee);
    OneAnswer(m, s.service, m.callee);
  }

  lemma OneAnswer(x: Code, service: string, callee: string)
    requires Matches(x, service, callee)
    ensures LocalAnswer([x], x.code, service, callee) == Some(x)
    ensures LocalAnswer([], x.code, service, callee) == None
  {
    assert ForCode([x], x.code) == [x];
  }

  lemma NothingOfKind()
    ensures forall k :: OfKind([], k) == []
  {}
}
