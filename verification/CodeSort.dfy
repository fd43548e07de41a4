/** The specificity sort of return-code entries.

    The comparator is not an order: a service-only and a method-only entry are each less than the other. What
    insertion sort then does to a list is worked out here in closed form. */
module CodeSort {
  import opened Prelude

  datatype Code = Code(code: string, kind: string, description: Bytes, service: string, callee: string)

  /** Which of service and method an entry names. */
  datatype Kind = Both | ServiceOnly | MethodOnly | Neither

  function KindOf(x: Code): (r: Kind) {
    if x.service != "" then (if x.callee != "" then Both else ServiceOnly)
    else if x.callee != "" then MethodOnly else Neither
  }

  function Rank(x: Code): (r: nat) {
    match KindOf(x) case Both => 2 case ServiceOnly => 1 case MethodOnly => 1 case Neither => 0
  }

  predicate Less(x: Code, y: Code) {
    (x.service != "" && y.service == "") || (x.callee != "" && y.callee == "")
  }

  /** One round of insertion sort: `x` moves left past every entry it is less than. */
  function Insert(xs: seq<Code>, x: Code): (r: seq<Code>) {
    if xs != [] && Less(x, xs[|xs| - 1]) then Insert(xs[..|xs| - 1], x) + [xs[|xs| - 1]] else xs + [x]
  }

  function InsertionSort(xs: seq<Code>): (r: seq<Code>) {
    if xs == [] then [] else Insert(InsertionSort(xs[..|xs| - 1]), xs[|xs| - 1])
  }

  /** Sorting `n` times over. */
  function SortTimes(xs: seq<Code>, n: nat): (r: seq<Code>) {
    if n == 0 then xs else InsertionSort(SortTimes(xs, n - 1))
  }

  // ----- closed form

  function OfKind(xs: seq<Code>, k: Kind): (r: seq<Code>) {
    if xs == [] then []
    else OfKind(xs[..|xs| - 1], k) + if KindOf(xs[|xs| - 1]) == k then [xs[|xs| - 1]] else []
  }

  /** The first entry that names only one of service and method names the service. */
  predicate ServiceFirst(xs: seq<Code>) {
    xs != [] && (ServiceFirst(xs[..|xs| - 1])
                 || (KindOf(xs[|xs| - 1]) == ServiceOnly && OfKind(xs[..|xs| - 1], MethodOnly) == []))
  }

  predicate Mixed(xs: seq<Code>) {
    OfKind(xs, ServiceOnly) != [] && OfKind(xs, MethodOnly) != []
  }

  function Blocks(b: seq<Code>, p: seq<Code>, q: seq<Code>, n: seq<Code>): (r: seq<Code>) {
    b + (p + q) + n
  }

  /** Entries that name both come first, those that name neither last; of the two kinds between them, if both occur,
      the kind that came first goes last. */
  function ClosedForm(xs: seq<Code>): (r: seq<Code>) {
    if ServiceFirst(xs) then
      Blocks(OfKind(xs, Both), OfKind(xs, MethodOnly), OfKind(xs, ServiceOnly), OfKind(xs, Neither))
    else
      Blocks(OfKind(xs, Both), OfKind(xs, ServiceOnly), OfKind(xs, MethodOnly), OfKind(xs, Neither))
  }

  lemma {:induction false} KindsOnly(xs: seq<Code>, k: Kind, i: nat)
    requires i < |OfKind(xs, k)|
    ensures KindOf(OfKind(xs, k)[i]) == k
  {
    var init := xs[..|xs| - 1];
    if i < |OfKind(init, k)| {
      KindsOnly(init, k, i);
    }
  }

  lemma {:induction false} InsertPasses(a: seq<Code>, b: seq<Code>, x: Code)
    requires a == [] || !Less(x, a[|a| - 1])
    requires forall i :: 0 <= i < |b| ==> Less(x, b[i])
    ensures Insert(a + b, x) == a + [x] + b
    decreases |b|
  {
    if b == [] {
      assert a + b == a && a + [x] + b == a + [x];
    } else {
      var init := b[..|b| - 1];
      InsertPasses(a, init, x);
      assert (a + b)[..|a + b| - 1] == a + init;
      assert a + [x] + b == (a + [x] + init) + [b[|b| - 1]];
    }
  }

  lemma {:induction false} FirstKind(xs: seq<Code>)
    ensures ServiceFirst(xs) ==> OfKind(xs, ServiceOnly) != []
    ensures OfKind(xs, ServiceOnly) != [] && OfKind(xs, MethodOnly) == [] ==> ServiceFirst(xs)
  {
    if xs != [] {
      FirstKind(xs[..|xs| - 1]);
    }
  }

  ghost predicate Uniform(ys: seq<Code>, k: Kind) {
    forall i :: 0 <= i < |ys| ==> KindOf(ys[i]) == k
  }

  lemma OfKindUniform(xs: seq<Code>, k: Kind)
    ensures Uniform(OfKind(xs, k), k)
  {
    forall i | 0 <= i < |OfKind(xs, k)|
      ensures KindOf(OfKind(xs, k)[i]) == k
    {
      KindsOnly(xs, k, i);
    }
  }

  predicate Beats(k: Kind, j: Kind) {
    match k
    case Both => !j.Both?
    case ServiceOnly => j.MethodOnly? || j.Neither?
    case MethodOnly => j.ServiceOnly? || j.Neither?
    case Neither => false
  }

  lemma LessBeats(x: Code, y: Code)
    ensures Less(x, y) <==> Beats(KindOf(x), KindOf(y))
  {}

  /** Inserting between uniform blocks: past `q` and `r`, which `x` beats, and up to `a` and `p`, which it does not. */
  lemma InsertBetween(a: seq<Code>, p: seq<Code>, q: seq<Code>, r: seq<Code>,
                      ka: Kind, kp: Kind, kq: Kind, kr: Kind, x: Code)
    requires Uniform(a, ka) && Uniform(p, kp) && Uniform(q, kq) && Uniform(r, kr)
    requires (a == [] || !Beats(KindOf(x), ka)) && (p == [] || !Beats(KindOf(x), kp))
    requires (q == [] || Beats(KindOf(x), kq)) && (r == [] || Beats(KindOf(x), kr))
    ensures Insert(a + p + (q + r), x) == a + p + [x] + (q + r)
  {
    hide Insert, Less, KindOf;
    forall i | 0 <= i < |q + r|
      ensures Less(x, (q + r)[i])
    {
      LessBeats(x, (q + r)[i]);
    }
    if a + p != [] {
      LessBeats(x, (a + p)[|a + p| - 1]);
    }
    InsertPasses(a + p, q + r, x);
  }

  lemma Regroup(b: seq<Code>, p: seq<Code>, q: seq<Code>, n: seq<Code>, x: Code)
    ensures Blocks(b, p, q, n) == b + p + (q + n) == b + (p + (q + n))
    ensures b + p + [x] + (q + n) == Blocks(b, p + [x], q, n)
    ensures Blocks(b, p, q, n) + [x] == Blocks(b, p, q, n + [x])
    ensures b + [x] + (p + (q + n)) == Blocks(b + [x], p, q, n)
    ensures (b + (p + q)) + [x] + n == Blocks(b, p, q + [x], n)
    ensures b + [] + (p + n) == Blocks(b, p, [], n) == Blocks(b, [], p, n)
    ensures b + [] + [x] + (p + n) == Blocks(b, [x], p, n)
  {}

  /** Inserting into four blocks, where `p` and `q` name one thing each, not the same. */
  lemma InsertBlocks(b: seq<Code>, p: seq<Code>, q: seq<Code>, n: seq<Code>, kp: Kind, kq: Kind, x: Code)
    requires Uniform(b, Both) && Uniform(p, kp) && Uniform(q, kq) && Uniform(n, Neither)
    requires (kp == ServiceOnly && kq == MethodOnly) || (kp == MethodOnly && kq == ServiceOnly)
    ensures Insert(Blocks(b, p, q, n), x) ==
      match KindOf(x)
      case Both => Blocks(b + [x], p, q, n)
      case Neither => Blocks(b, p, q, n + [x])
      case k =>
        if k == kp then Blocks(b, p + [x], q, n)
        else if q != [] then Blocks(b, p, q + [x], n)
        else Blocks(b, [x], p, n)
  {
    Regroup(b, p, q, n, x);
    hide Insert, Blocks;
    var k := KindOf(x);
    if k == Both {
      InsertAfterBoth(b, p, q, n, kp, kq, x);
    } else if k == Neither {
      InsertPassesNone(Blocks(b, p, q, n), x);
    } else if k == kp {
      InsertBetween(b, p, q, n, Both, kp, kq, Neither, x);
    } else if q != [] {
      InsertAfterLast(b, p, q, n, kq, x);
    } else {
      InsertBetween(b, [], p, n, Both, Both, kp, Neither, x);
    }
  }

  lemma InsertPassesNone(xs: seq<Code>, x: Code)
    requires KindOf(x) == Neither
    ensures Insert(xs, x) == xs + [x]
  {}

  lemma InsertAfterBoth(b: seq<Code>, p: seq<Code>, q: seq<Code>, n: seq<Code>, kp: Kind, kq: Kind, x: Code)
    requires Uniform(b, Both) && Uniform(p, kp) && Uniform(q, kq) && Uniform(n, Neither) && !kp.Both? && !kq.Both?
    requires KindOf(x) == Both
    ensures Insert(Blocks(b, p, q, n), x) == Blocks(b + [x], p, q, n)
  {
    hide Insert, Less, KindOf;
    var rest := p + (q + n);
    forall i | 0 <= i < |rest|
      ensures Less(x, rest[i])
    {
      LessBeats(x, rest[i]);
    }
    if b != [] {
      LessBeats(x, b[|b| - 1]);
    }
    InsertPasses(b, rest, x);
    Regroup(b, p, q, n, x);
  }

  lemma InsertAfterLast(b: seq<Code>, p: seq<Code>, q: seq<Code>, n: seq<Code>, kq: Kind, x: Code)
    requires Uniform(q, kq) && q != [] && Uniform(n, Neither) && KindOf(x) == kq && (kq.ServiceOnly? || kq.MethodOnly?)
    ensures Insert(Blocks(b, p, q, n), x) == Blocks(b, p, q + [x], n)
  {
    hide Insert, Less, KindOf;
    var front := b + (p + q);
    forall i | 0 <= i < |n|
      ensures Less(x, n[i])
    {
      LessBeats(x, n[i]);
    }
    assert front[|front| - 1] == q[|q| - 1];
    LessBeats(x, q[|q| - 1]);
    InsertPasses(front, n, x);
    Regroup(b, p, q, n, x);
  }

  lemma {:induction false} SortIsClosedForm(xs: seq<Code>)
    ensures InsertionSort(xs) == ClosedForm(xs)
  {
    if xs != [] {
      var init, x := xs[..|xs| - 1], xs[|xs| - 1];
      SortIsClosedForm(init);
      InsertIntoClosedForm(init, x, xs);
    }
  }

  lemma InsertIntoClosedForm(init: seq<Code>, x: Code, xs: seq<Code>)
    requires xs != [] && init == xs[..|xs| - 1] && x == xs[|xs| - 1]
    ensures Insert(ClosedForm(init), x) == ClosedForm(xs)
  {
    FirstKind(init);
    Unfolded(init, x, xs);
    OfKindUniform(init, Both);
    OfKindUniform(init, ServiceOnly);
    OfKindUniform(init, MethodOnly);
    OfKindUniform(init, Neither);
    hide Insert, Uniform, OfKind, ServiceFirst, Blocks, KindOf;
    var b, s, m, n := OfKind(init, Both), OfKind(init, ServiceOnly), OfKind(init, MethodOnly), OfKind(init, Neither);
    if ServiceFirst(init) {
      InsertBlocks(b, m, s, n, MethodOnly, ServiceOnly, x);
    } else {
      InsertBlocks(b, s, m, n, ServiceOnly, MethodOnly, x);
      if m == [] {
        assert s == [] && m + [x] == s + [x] == [x];
        Regroup(b, [x], [], n, x);
      }
    }
  }

  /** How each part of the closed form grows. */
  lemma Unfolded(init: seq<Code>, x: Code, xs: seq<Code>)
    requires xs != [] && init == xs[..|xs| - 1] && x == xs[|xs| - 1]
    ensures forall k :: OfKind(xs, k) == if KindOf(x) == k then OfKind(init, k) + [x] else OfKind(init, k)
    ensures ServiceFirst(xs) <==> ServiceFirst(init) || (KindOf(x) == ServiceOnly && OfKind(init, MethodOnly) == [])
  {}

  // ----- sorting again

  lemma {:induction false} OfKindConcat(a: seq<Code>, b: seq<Code>, k: Kind)
    ensures OfKind(a + b, k) == OfKind(a, k) + OfKind(b, k)
    decreases |b|
  {
    if b == [] {
      assert a + b == a;
    } else {
      OfKindConcat(a, b[..|b| - 1], k);
      assert (a + b)[..|a + b| - 1] == a + b[..|b| - 1];
    }
  }

  lemma {:induction false} ServiceFirstConcat(a: seq<Code>, b: seq<Code>)
    ensures ServiceFirst(a + b) <==> ServiceFirst(a) || (OfKind(a, MethodOnly) == [] && ServiceFirst(b))
    decreases |b|
  {
    if b == [] {
      assert a + b == a;
    } else {
      var init := b[..|b| - 1];
      ServiceFirstConcat(a, init);
      OfKindConcat(a, init, MethodOnly);
      assert (a + b)[..|a + b| - 1] == a + init;
    }
  }

  lemma {:induction false} OfUniform(ys: seq<Code>, k: Kind, j: Kind)
    requires Uniform(ys, k)
    ensures OfKind(ys, j) == if j == k then ys else []
  {
    if ys != [] {
      assert KindOf(ys[|ys| - 1]) == k && Uniform(ys[..|ys| - 1], k);
      hide KindOf, Uniform;
      OfUniform(ys[..|ys| - 1], k, j);
    }
  }

  lemma {:induction false} FirstOfUniform(ys: seq<Code>, k: Kind)
    requires Uniform(ys, k)
    ensures ServiceFirst(ys) <==> k == ServiceOnly && ys != []
  {
    if ys != [] {
      FirstOfUniform(ys[..|ys| - 1], k);
      OfUniform(ys[..|ys| - 1], k, MethodOnly);
    }
  }

  lemma OfKindTwice(xs: seq<Code>, k: Kind, j: Kind)
    ensures OfKind(OfKind(xs, k), j) == if j == k then OfKind(xs, k) else []
    ensures ServiceFirst(OfKind(xs, k)) <==> k == ServiceOnly && OfKind(xs, k) != []
  {
    OfKindUniform(xs, k);
    OfUniform(OfKind(xs, k), k, j);
    FirstOfUniform(OfKind(xs, k), k);
  }

  /** Sorting keeps the entries of each kind in their order, and turns the order of the two kinds around. */
  lemma SortKinds(xs: seq<Code>, j: Kind)
    ensures OfKind(InsertionSort(xs), j) == OfKind(xs, j)
    ensures ServiceFirst(InsertionSort(xs)) <==> (if Mixed(xs) then !ServiceFirst(xs) else ServiceFirst(xs))
  {
    SortIsClosedForm(xs);
    FirstKind(xs);
    hide OfKind, ServiceFirst, InsertionSort, Insert;
    if ServiceFirst(xs) {
      BlockKinds(xs, MethodOnly, ServiceOnly, j);
    } else {
      BlockKinds(xs, ServiceOnly, MethodOnly, j);
    }
  }

  lemma BlockKinds(xs: seq<Code>, kp: Kind, kq: Kind, j: Kind)
    requires (kp == ServiceOnly && kq == MethodOnly) || (kp == MethodOnly && kq == ServiceOnly)
    ensures var r := Blocks(OfKind(xs, Both), OfKind(xs, kp), OfKind(xs, kq), OfKind(xs, Neither));
      && OfKind(r, j) == OfKind(xs, j)
      && (ServiceFirst(r) <==>
            if kp == ServiceOnly then OfKind(xs, kp) != [] else OfKind(xs, kp) == [] && OfKind(xs, kq) != [])
  {
    hide OfKind, ServiceFirst;
    var b, p, q, n := OfKind(xs, Both), OfKind(xs, kp), OfKind(xs, kq), OfKind(xs, Neither);
    OfKindBlocks(b, p, q, n, j);
    OfKindTwice(xs, Both, j);
    OfKindTwice(xs, kp, j);
    OfKindTwice(xs, kq, j);
    OfKindTwice(xs, Neither, j);
    ServiceFirstConcat(b + (p + q), n);
    ServiceFirstConcat(b, p + q);
    ServiceFirstConcat(p, q);
    OfKindConcat(b, p + q, MethodOnly);
    OfKindConcat(p, q, MethodOnly);
    OfKindTwice(xs, Both, MethodOnly);
    OfKindTwice(xs, kp, MethodOnly);
    OfKindTwice(xs, kq, MethodOnly);
  }

  lemma OfKindBlocks(b: seq<Code>, p: seq<Code>, q: seq<Code>, n: seq<Code>, j: Kind)
    ensures OfKind(Blocks(b, p, q, n), j) == OfKind(b, j) + (OfKind(p, j) + OfKind(q, j)) + OfKind(n, j)
  {
    OfKindConcat(b + (p + q), n, j);
    OfKindConcat(b, p + q, j);
    OfKindConcat(p, q, j);
  }

  // ----- what sorting promises

  /** Sorting a sorted list changes nothing exactly when the list does not mix service-only with method-only
      entries. */
  lemma SortIdempotentIff(xs: seq<Code>)
    ensures InsertionSort(InsertionSort(xs)) == InsertionSort(xs) <==> !Mixed(xs)
  {
    var b, s, m, n := OfKind(xs, Both), OfKind(xs, ServiceOnly), OfKind(xs, MethodOnly), OfKind(xs, Neither);
    SortedTwice(xs);
    OfKindUniform(xs, ServiceOnly);
    OfKindUniform(xs, MethodOnly);
    SortIsClosedForm(xs);
    hide OfKind, ServiceFirst, InsertionSort;
    if Mixed(xs) {
      assert KindOf(s[0]) == ServiceOnly && KindOf(m[0]) == MethodOnly;
      assert Blocks(b, s, m, n)[|b|] == s[0] && Blocks(b, m, s, n)[|b|] == m[0];
    }
  }

  /** Every service-only entry stands before every method-only one. */
  ghost predicate ServicePrecedes(xs: seq<Code>) {
    forall i, j :: 0 <= i < |xs| && 0 <= j < |xs| ==>
      KindOf(xs[i]) == ServiceOnly && KindOf(xs[j]) == MethodOnly ==> i < j
  }

  lemma BlocksPrecede(b: seq<Code>, p: seq<Code>, q: seq<Code>, n: seq<Code>, kp: Kind, kq: Kind)
    requires Uniform(b, Both) && Uniform(p, kp) && Uniform(q, kq) && Uniform(n, Neither)
    requires (kp == ServiceOnly && kq == MethodOnly) || (kp == MethodOnly && kq == ServiceOnly)
    ensures ServicePrecedes(Blocks(b, p, q, n)) <==> kp == ServiceOnly || p == [] || q == []
  {
    var xs := Blocks(b, p, q, n);
    hide KindOf;
    forall i | 0 <= i < |xs|
      ensures KindOf(xs[i]) == kp <==> |b| <= i < |b| + |p|
      ensures KindOf(xs[i]) == kq <==> |b| + |p| <= i < |b| + |p| + |q|
    {
      if i < |b| {
        assert xs[i] == b[i];
      } else if i < |b| + |p| {
        assert xs[i] == p[i - |b|];
      } else if i < |b| + |p| + |q| {
        assert xs[i] == q[i - |b| - |p|];
      } else {
        assert xs[i] == n[i - |b| - |p| - |q|];
      }
    }
    if kp == MethodOnly && p != [] && q != [] {
      assert KindOf(xs[|b|]) == MethodOnly && KindOf(xs[|b| + |p|]) == ServiceOnly;
    }
  }

  /** After one sort the service-only entries come before the method-only ones exactly if the two kinds are not mixed or
      the first of them in the list was a method-only one. */
  lemma ServicePrecedesIff(xs: seq<Code>)
    ensures ServicePrecedes(InsertionSort(xs)) <==> !Mixed(xs) || !ServiceFirst(xs)
  {
    SortIsClosedForm(xs);
    FirstKind(xs);
    OfKindUniform(xs, Both);
    OfKindUniform(xs, ServiceOnly);
    OfKindUniform(xs, MethodOnly);
    OfKindUniform(xs, Neither);
    hide OfKind, ServiceFirst, InsertionSort, Blocks, Uniform, ServicePrecedes;
    var b, s, m, n := OfKind(xs, Both), OfKind(xs, ServiceOnly), OfKind(xs, MethodOnly), OfKind(xs, Neither);
    if ServiceFirst(xs) {
      BlocksPrecede(b, m, s, n, MethodOnly, ServiceOnly);
    } else {
      BlocksPrecede(b, s, m, n, ServiceOnly, MethodOnly);
    }
  }

  lemma SortedTwice(xs: seq<Code>)
    ensures InsertionSort(InsertionSort(xs)) ==
      if Mixed(xs) && ServiceFirst(xs) then
        Blocks(OfKind(xs, Both), OfKind(xs, ServiceOnly), OfKind(xs, MethodOnly), OfKind(xs, Neither))
      else if Mixed(xs) then
        Blocks(OfKind(xs, Both), OfKind(xs, MethodOnly), OfKind(xs, ServiceOnly), OfKind(xs, Neither))
      else InsertionSort(xs)
  {
    SortIsClosedForm(xs);
    SortIsClosedForm(InsertionSort(xs));
    SortKinds(xs, Both);
    SortKinds(xs, ServiceOnly);
    SortKinds(xs, MethodOnly);
    SortKinds(xs, Neither);
    hide OfKind, ServiceFirst, InsertionSort, Blocks;
  }

  /** A third sort undoes the second. */
  lemma SortPeriodTwo(xs: seq<Code>)
    ensures InsertionSort(InsertionSort(InsertionSort(xs))) == InsertionSort(xs)
  {
    var r := InsertionSort(xs);
    SortedTwice(r);
    SortIsClosedForm(xs);
    SortKinds(xs, Both);
    SortKinds(xs, ServiceOnly);
    SortKinds(xs, MethodOnly);
    SortKinds(xs, Neither);
    SortIdempotentIff(xs);
    hide OfKind, ServiceFirst, InsertionSort, Blocks;
  }

  /** One more sort after at least one takes the first form to the second and back. */
  lemma SortTimesNext(xs: seq<Code>, n: nat)
    requires n >= 1
    ensures var one, two := InsertionSort(xs), InsertionSort(InsertionSort(xs));
      || (SortTimes(xs, n) == one && SortTimes(xs, n + 1) == two)
      || (SortTimes(xs, n) == two && SortTimes(xs, n + 1) == one)
  {
    hide InsertionSort, SortTimes;
    SortTimesParity(xs, n);
    SortTimesParity(xs, n + 1);
  }

  /** After any number of sorts the list is that of the first or of the second. */
  lemma {:induction false} SortTimesParity(xs: seq<Code>, n: nat)
    requires n >= 1
    ensures SortTimes(xs, n) == if n % 2 == 1 then InsertionSort(xs) else InsertionSort(InsertionSort(xs))
  {
    hide InsertionSort;
    if n == 1 {
      assert SortTimes(xs, 0) == xs;
    } else {
      SortTimesParity(xs, n - 1);
      SortPeriodTwo(xs);
    }
  }

  lemma {:induction false} InsertPermutes(xs: seq<Code>, x: Code)
    ensures multiset(Insert(xs, x)) == multiset(xs) + multiset{x}
  {
    if xs != [] && Less(x, xs[|xs| - 1]) {
      InsertPermutes(xs[..|xs| - 1], x);
      assert xs == xs[..|xs| - 1] + [xs[|xs| - 1]];
    }
  }

  ghost predicate MostSpecificFirst(xs: seq<Code>) {
    forall i, j :: 0 <= i < j < |xs| ==> Rank(xs[i]) >= Rank(xs[j])
  }

  lemma SortUnfold(xs: seq<Code>, init: seq<Code>, x: Code)
    requires xs == init + [x]
    ensures InsertionSort(xs) == Insert(InsertionSort(init), x)
    ensures multiset(xs) == multiset(init) + multiset{x}
  {
    assert xs[..|xs| - 1] == init;
  }

  lemma {:induction false} SortPermutes(xs: seq<Code>)
    ensures multiset(InsertionSort(xs)) == multiset(xs)
  {
    if xs != [] {
      hide InsertionSort, Insert;
      var init, x := xs[..|xs| - 1], xs[|xs| - 1];
      SortPermutes(init);
      SortUnfold(xs, init, x);
      InsertPermutes(InsertionSort(init), x);
    }
  }

  /** The sorted list has the most specific entries first. */
  lemma {:induction false} SortSorts(xs: seq<Code>)
    ensures MostSpecificFirst(InsertionSort(xs))
  {
    if xs != [] {
      SortSorts(xs[..|xs| - 1]);
      InsertSorted(InsertionSort(xs[..|xs| - 1]), xs[|xs| - 1]);
    }
  }

  /** Less never puts an entry before a more specific one, and an entry it does not move past is no less specific. */
  lemma LessRank(x: Code, y: Code)
    ensures Less(x, y) ==> Rank(x) >= Rank(y)
    ensures !Less(x, y) ==> Rank(y) >= Rank(x)
  {}

  lemma {:induction false} InsertSorted(xs: seq<Code>, x: Code)
    requires MostSpecificFirst(xs)
    ensures MostSpecificFirst(Insert(xs, x))
    ensures |Insert(xs, x)| == |xs| + 1
    ensures forall i :: 0 <= i <= |xs| ==> Insert(xs, x)[i] == x || Insert(xs, x)[i] in xs
  {
    if xs != [] {
      var init, y := xs[..|xs| - 1], xs[|xs| - 1];
      LessRank(x, y);
      hide Rank, Less;
      if Less(x, y) {
        InsertSorted(init, x);
        var r := Insert(init, x);
        forall i | 0 <= i < |r|
          ensures Rank(r[i]) >= Rank(y)
        {
          if r[i] != x {
            var k :| 0 <= k < |init| && init[k] == r[i];
            assert Rank(xs[k]) >= Rank(xs[|xs| - 1]);
          }
        }
      } else {
        forall i | 0 <= i < |xs|
          ensures Rank(xs[i]) >= Rank(x)
        {
          assert Rank(xs[i]) >= Rank(y);
        }
      }
    }
  }

  // ----- the sort in place

  lemma {:induction false} InsertTail(p: seq<Code>, x: Code, j: nat)
    requires j <= |p| && forall i :: j <= i < |p| ==> Less(x, p[i])
    ensures Insert(p, x) == Insert(p[..j], x) + p[j..]
    decreases |p| - j
  {
    if j == |p| {
      assert p[..j] == p;
    } else {
      InsertTail(p, x, j + 1);
      assert p[..j + 1][..j] == p[..j];
      assert p[j..] == [p[j]] + p[j + 1..];
    }
  }

  /** Where `x` comes to rest: past everything it is less than, and behind an entry it is not less than. */
  lemma InsertRests(p: seq<Code>, x: Code, j: nat)
    requires j <= |p| && (forall i :: j <= i < |p| ==> Less(x, p[i])) && (j > 0 ==> !Less(x, p[j - 1]))
    ensures Insert(p, x) == p[..j] + [x] + p[j..]
  {
    InsertTail(p, x, j);
  }

  /** `x` at position `j` of the first `i + 1` entries `q`, on its way down through `p`. */
  ghost predicate Sinking(q: seq<Code>, p: seq<Code>, x: Code, j: nat) {
    && j <= |p| && |q| == |p| + 1 && q[j] == x
    && (forall k :: 0 <= k < j ==> q[k] == p[k])
    && (forall k :: j < k < |q| ==> q[k] == p[k - 1])
    && (forall k :: j <= k < |p| ==> Less(x, p[k]))
  }

  lemma SinksOne(q: seq<Code>, p: seq<Code>, x: Code, j: nat)
    requires 0 < j && Sinking(q, p, x, j) && Less(x, q[j - 1])
    ensures Sinking(q[j := q[j - 1]][j - 1 := x], p, x, j - 1)
  {
    hide Less;
  }

  lemma Sunk(q: seq<Code>, p: seq<Code>, x: Code, j: nat)
    requires Sinking(q, p, x, j) && (j > 0 ==> !Less(x, q[j - 1]))
    ensures q == Insert(p, x)
  {
    hide Less, Insert;
    InsertRests(p, x, j);
    assert q == p[..j] + [x] + p[j..];
  }

  lemma SinkStart(q: seq<Code>, p: seq<Code>, x: Code)
    requires q == p + [x]
    ensures Sinking(q, p, x, |p|)
  {}

  /** The inner loop: the entry at `i` sinks into the part before it. */
  method SinkInto(codes: array<Code>, i: nat)
    requires i < codes.Length
    modifies codes
    ensures codes[..i + 1] == Insert(old(codes[..i]), old(codes[i]))
    ensures forall k :: i < k < codes.Length ==> codes[k] == old(codes[k])
  {
    hide Insert, Less;
    ghost var p, x := codes[..i], codes[i];
    var j := i;
    SinkStart(codes[..i + 1], p, x);
    while j > 0 && Less(codes[j], codes[j - 1])
      invariant j <= i && codes[j] == x && Sinking(codes[..i + 1], p, x, j)
      invariant forall k :: i < k < codes.Length ==> codes[k] == old(codes[k])
    {
      SinksOne(codes[..i + 1], p, x, j);
      ghost var q := codes[..i + 1][j := codes[j - 1]][j - 1 := x];
      hide Sinking;
      codes[j], codes[j - 1] := codes[j - 1], codes[j];
      j := j - 1;
      assert codes[..i + 1] == q;
    }
    Sunk(codes[..i + 1], p, x, j);
  }

  /** Insertion sort as sort.Slice runs it on short slices. */
  method SortCodes(codes: array<Code>)
    modifies codes
    ensures codes[..] == InsertionSort(old(codes[..]))
  {
    ghost var was := codes[..];
    for i := 0 to codes.Length
      invariant codes[..i] == InsertionSort(was[..i])
      invariant forall k :: i <= k < codes.Length ==> codes[k] == was[k]
    {
      SinkInto(codes, i);
      assert was[..i + 1][..i] == was[..i];
    }
    assert was[..codes.Length] == was && codes[..codes.Length] == codes[..];
  }
}
