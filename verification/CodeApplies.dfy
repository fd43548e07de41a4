/** Exactly when the lookup answers with an entry that applies to the query.

    An entry applies if each of service and method is left empty in it or is the query's. The lookup takes more: an
    entry of which one name is the query's, whatever the other says. */
module CodeApplies {
  import opened Prelude
  import opened CodeSort
  import opened CodeMapping

  predicate Applies(x: Code, service: string, callee: string) {
    (x.service == "" || x.service == service) && (x.callee == "" || x.callee == callee)
  }

  /** One of the two names is the query's, the other is given and is not. */
  predicate HalfMatches(x: Code, service: string, callee: string) {
    || (x.service == service && x.callee != "" && x.callee != callee)
    || (x.callee == callee && x.service != "" && x.service != service)
  }

  /** The lookup takes an entry exactly if it applies or half matches, and never both. */
  lemma MatchesIff(x: Code, service: string, callee: string)
    ensures Matches(x, service, callee) <==> Applies(x, service, callee) || HalfMatches(x, service, callee)
    ensures !(Applies(x, service, callee) && HalfMatches(x, service, callee))
  {}

  /** Which entries half match: under a query with both names, those naming both that share one name with it; under a
      query without a method, also every entry that names another service only; and the other way round. */
  lemma HalfMatchKinds(x: Code, service: string, callee: string)
    ensures HalfMatches(x, service, callee) <==>
      match KindOf(x)
      case Both => (x.service == service) != (x.callee == callee)
      case ServiceOnly => callee == "" && x.service != service
      case MethodOnly => service == "" && x.callee != callee
      case Neither => false
  {}

  // ----- on a list

  /** The lookup that the documentation of an entry asks for. */
  function FirstApplying(xs: seq<Code>, service: string, callee: string): (r: Option<Code>)
    ensures r.Some? ==> Applies(r.value, service, callee)
  {
    if xs == [] then None
    else if Applies(xs[0], service, callee) then Some(xs[0])
    else FirstApplying(xs[1..], service, callee)
  }

  /** Every half match comes behind an entry that applies. */
  ghost predicate HalfMatchesCovered(xs: seq<Code>, service: string, callee: string) {
    forall i :: 0 <= i < |xs| && HalfMatches(xs[i], service, callee) ==>
      exists j :: 0 <= j < i && Applies(xs[j], service, callee)
  }

  lemma CoveredTail(xs: seq<Code>, service: string, callee: string)
    requires xs != [] && !Applies(xs[0], service, callee)
    ensures HalfMatchesCovered(xs, service, callee)
       <==> !HalfMatches(xs[0], service, callee) && HalfMatchesCovered(xs[1..], service, callee)
  {
    var rest := xs[1..];
    hide HalfMatches, Applies;
    if HalfMatchesCovered(xs, service, callee) {
      forall i | 0 <= i < |rest| && HalfMatches(rest[i], service, callee)
        ensures exists j :: 0 <= j < i && Applies(rest[j], service, callee)
      {
        assert xs[i + 1] == rest[i];
        var j :| 0 <= j < i + 1 && Applies(xs[j], service, callee);
        assert rest[j - 1] == xs[j];
      }
    }
    if !HalfMatches(xs[0], service, callee) && HalfMatchesCovered(rest, service, callee) {
      forall i | 0 <= i < |xs| && HalfMatches(xs[i], service, callee)
        ensures exists j :: 0 <= j < i && Applies(xs[j], service, callee)
      {
        assert rest[i - 1] == xs[i];
        var j :| 0 <= j < i - 1 && Applies(rest[j], service, callee);
        assert xs[j + 1] == rest[j];
      }
    }
  }

  /** On any list, for any query: the lookup answers as documented, and its answer if any applies, exactly if every half
      match comes behind an entry that applies. */
  lemma {:induction false} LookupRightIff(xs: seq<Code>, service: string, callee: string)
    ensures FirstMatch(xs, service, callee) == FirstApplying(xs, service, callee)
       <==> HalfMatchesCovered(xs, service, callee)
    ensures var r := FirstMatch(xs, service, callee);
      (r.Some? ==> Applies(r.value, service, callee)) <==> HalfMatchesCovered(xs, service, callee)
  {
    if xs != [] {
      MatchesIff(xs[0], service, callee);
      if Applies(xs[0], service, callee) {
        assert HalfMatchesCovered(xs, service, callee);
      } else {
        CoveredTail(xs, service, callee);
        LookupRightIff(xs[1..], service, callee);
      }
    }
  }

  /** The same for what Mapping finds in the sorted local entries and the remote ones of a code. */
  lemma AnswerRightIff(sorted: seq<Code>, config: Option<Config>, code: string, service: string, callee: string)
    ensures var r, xs := Answer(sorted, config, code, service, callee), ForCode(sorted + RemoteCodes(config), code);
      (r.Some? ==> Applies(r.value, service, callee)) <==> HalfMatchesCovered(xs, service, callee)
  {
    LookupRightIff(ForCode(sorted + RemoteCodes(config), code), service, callee);
  }

  // ----- on the configured local entries

  lemma LocalAnswerMatches(xs: seq<Code>, code: string, service: string, callee: string)
    ensures var r := LocalAnswer(xs, code, service, callee);
      r.Some? ==> Matches(r.value, service, callee) && r.value in xs && r.value.code == code
  {
    var i := FirstMatchFinds(ForCode(xs, code), service, callee);
    if LocalAnswer(xs, code, service, callee).Some? {
      ForCodeMembers(xs, code, ForCode(xs, code)[i]);
    }
  }

  /** However often they were sorted, the local entries naming both come first and those naming neither last. */
  lemma SortedForms(local: seq<Code>, n: nat)
    requires n >= 1
    ensures var b, s, m, e :=
        OfKind(local, Both), OfKind(local, ServiceOnly), OfKind(local, MethodOnly), OfKind(local, Neither);
      SortTimes(local, n) == Blocks(b, s, m, e) || SortTimes(local, n) == Blocks(b, m, s, e)
  {
    SortTimesParity(local, n);
    SortedTwice(local);
    SortIsClosedForm(local);
    hide OfKind, ServiceFirst, InsertionSort, Blocks, SortTimes;
  }

  /** The local answer comes from the entries naming both if one of them is taken, else from the others. */
  lemma AnswerFromBlocks(local: seq<Code>, n: nat, code: string, service: string, callee: string)
    requires n >= 1
    ensures var r, b := LocalAnswer(SortTimes(local, n), code, service, callee),
                        LocalAnswer(OfKind(local, Both), code, service, callee);
      && (b.Some? ==> r == b && KindOf(b.value) == Both)
      && (b.None? && r.Some? ==> KindOf(r.value) != Both)
      && (r.Some? <==> b.Some? || LocalAnswer(OfKind(local, ServiceOnly), code, service, callee).Some?
                       || LocalAnswer(OfKind(local, MethodOnly), code, service, callee).Some?
                       || LocalAnswer(OfKind(local, Neither), code, service, callee).Some?)
  {
    SortedForms(local, n);
    var b, s, m, e :=
      OfKind(local, Both), OfKind(local, ServiceOnly), OfKind(local, MethodOnly), OfKind(local, Neither);
    BlocksAnswer(b, s, m, e, code, service, callee);
    BlocksAnswer(b, m, s, e, code, service, callee);
    AnswerOfKind(local, Both, code, service, callee);
    AnswerOfKind(local, ServiceOnly, code, service, callee);
    AnswerOfKind(local, MethodOnly, code, service, callee);
    AnswerOfKind(local, Neither, code, service, callee);
    hide OfKind, InsertionSort, Blocks, SortTimes, LocalAnswer, KindOf;
  }

  /** Under a query with both names, a local answer fails to apply exactly if the first local entry naming both that the
      lookup takes half matches, however often the entries were sorted again and whatever the remote codes are. */
  lemma LocalAnswerAppliesIff(local: seq<Code>, n: nat, config: Option<Config>, code: string, service: string,
                              callee: string)
    requires n >= 1 && service != "" && callee != ""
    requires LocalAnswer(InsertionSort(local), code, service, callee).Some?
    ensures var r, b := Answer(SortTimes(local, n), config, code, service, callee),
                        LocalAnswer(OfKind(local, Both), code, service, callee);
      r.Some? && (Applies(r.value, service, callee) <==> !(b.Some? && HalfMatches(b.value, service, callee)))
  {
    SortTimesParity(local, 1);
    AnswerFromBlocks(local, 1, code, service, callee);
    AnswerFromBlocks(local, n, code, service, callee);
    AnswerIsLocal(SortTimes(local, n), config, code, service, callee);
    LocalAnswerConcat(SortTimes(local, n), RemoteCodes(config), code, service, callee);
    LocalAnswerMatches(SortTimes(local, n), code, service, callee);
    hide OfKind, InsertionSort, SortTimes, LocalAnswer, RemoteCodes, Answer, KindOf, Matches, Applies, HalfMatches;
    var r := LocalAnswer(SortTimes(local, n), code, service, callee).value;
    MatchesIff(r, service, callee);
    HalfMatchKinds(r, service, callee);
  }

  lemma {:induction false} SortTimesPermutes(xs: seq<Code>, n: nat)
    ensures multiset(SortTimes(xs, n)) == multiset(xs)
  {
    if n > 0 {
      SortTimesPermutes(xs, n - 1);
      SortPermutes(SortTimes(xs, n - 1));
    }
  }

  lemma SameMembers(xs: seq<Code>, n: nat, y: Code)
    ensures y in SortTimes(xs, n) <==> y in xs
  {
    hide SortTimes;
    SortTimesPermutes(xs, n);
    InBoth(SortTimes(xs, n), xs, y);
  }

  /** No entry for the code half matches the query. */
  ghost predicate NoHalfMatch(xs: seq<Code>, code: string, service: string, callee: string) {
    forall x :: x in xs && x.code == code ==> !HalfMatches(x, service, callee)
  }

  lemma SortedApplies(xs: seq<Code>, config: Option<Config>, code: string, service: string, callee: string, y: Code)
    requires y in xs && y.code == code && Applies(y, service, callee) && NoHalfMatch(xs, code, service, callee)
    ensures var r := Answer(InsertionSort(xs), config, code, service, callee);
      r.Some? && r.value in xs && Applies(r.value, service, callee) && Rank(r.value) >= Rank(y)
  {
    hide InsertionSort, Answer, Rank, Matches, Applies, HalfMatches;
    MatchesIff(y, service, callee);
    MostSpecificLocalAnswer(xs, config, code, service, callee, y);
    MatchesIff(Answer(InsertionSort(xs), config, code, service, callee).value, service, callee);
  }

  lemma SameHalfMatches(xs: seq<Code>, n: nat, code: string, service: string, callee: string)
    requires NoHalfMatch(xs, code, service, callee)
    ensures NoHalfMatch(SortTimes(xs, n), code, service, callee)
  {
    hide SortTimes, HalfMatches;
    forall x | x in SortTimes(xs, n) && x.code == code
      ensures !HalfMatches(x, service, callee)
    {
      SameMembers(xs, n, x);
    }
  }

  /** If no local entry of the code half matches the query, then after any number of updates the answer applies and
      names at least as much as any local entry that applies. */
  lemma MostSpecificApplies(local: seq<Code>, n: nat, config: Option<Config>, code: string, service: string,
                            callee: string, y: Code)
    requires n >= 1 && y in local && y.code == code && Applies(y, service, callee)
    requires NoHalfMatch(local, code, service, callee)
    ensures var r := Answer(SortTimes(local, n), config, code, service, callee);
      r.Some? && r.value in local && Applies(r.value, service, callee) && Rank(r.value) >= Rank(y)
  {
    hide InsertionSort, Answer, Rank, Applies, NoHalfMatch, SortTimes;
    SortTimesLast(local, n);
    SameMembers(local, n - 1, y);
    SameHalfMatches(local, n - 1, code, service, callee);
    SortedApplies(SortTimes(local, n - 1), config, code, service, callee, y);
    SameMembers(local, n - 1, Answer(SortTimes(local, n), config, code, service, callee).value);
  }

  lemma SortTimesLast(xs: seq<Code>, n: nat)
    requires n >= 1
    ensures SortTimes(xs, n) == InsertionSort(SortTimes(xs, n - 1))
  {}

  // ----- inputs that fall short

  lemma SortPair(x: Code, y: Code)
    ensures InsertionSort([x, y]) == if Less(y, x) then [y, x] else [x, y]
  {
    hide Less;
    SortUnfold([x, y], [x], y);
    SortUnfold([x], [], x);
    assert [x] == [] + [x] && [x, y] == [x] + [y];
    assert InsertionSort([]) == [] && Insert([], x) == [x] && Insert([], y) == [y];
    assert [x][..0] == [];
  }

  /** An entry for one method of a service hides the entry for the whole service from its other methods. */
  lemma HalfMatchHides(s: Code, b: Code, callee: string)
    requires KindOf(b) == Both && KindOf(s) == ServiceOnly && s.code == b.code && s.service == b.service
    requires callee != "" && callee != b.callee
    ensures Answer(InsertionSort([s, b]), None, b.code, b.service, callee) == Some(b)
    ensures !Applies(b, b.service, callee) && Applies(s, b.service, callee)
  {
    hide InsertionSort;
    SortPair(s, b);
    assert [b, s] + [] == [b, s];
    assert [b, s] == [b] + [s];
    ForCodeConcat([b], [s], b.code);
    assert ForCode([b], b.code) == [b] && ForCode([s], b.code) == [s];
  }

  /** Without a method in the query, an entry for another service hides the global one. */
  lemma EmptyMethodHides(s: Code, g: Code, service: string)
    requires KindOf(s) == ServiceOnly && KindOf(g) == Neither && s.code == g.code && service != s.service
    ensures Answer(InsertionSort([s, g]), None, s.code, service, "") == Some(s)
    ensures !Applies(s, service, "") && Applies(g, service, "")
  {
    hide InsertionSort;
    SortPair(s, g);
    assert [s, g] + [] == [s, g];
    assert [s, g] == [s] + [g];
    ForCodeConcat([s], [g], s.code);
    assert ForCode([s], s.code) == [s] && ForCode([g], s.code) == [g];
  }
}
