/** The hash that keys the cached metric vectors: 64-bit FNV-1a, section 2 of draft-eastlake-fnv, over the metric name
    and the label names, each label followed by a separator byte. */
module LabelHash {
  import opened Prelude
  import Utf8

  type Hash = h: nat | h < 0x1_0000_0000_0000_0000

  const OFFSET64: Hash := 14695981039346656037
  const PRIME64: nat := 1099511628211

  /** The multiplicative inverse of the prime modulo 2^64. */
  const INVERSE64: nat := 14886173955864302971

  // ----- bits

  function Xor(a: nat, b: nat): (r: nat)
    decreases a + b
  {
    if a == 0 && b == 0 then 0 else 2 * Xor(a / 2, b / 2) + (if a % 2 == b % 2 then 0 else 1)
  }

  lemma {:induction false} XorTwice(a: nat, b: nat)
    ensures Xor(Xor(a, b), b) == a
    decreases a + b
  {
    if a > 0 || b > 0 {
      XorTwice(a / 2, b / 2);
      var x := Xor(a, b);
      assert x / 2 == Xor(a / 2, b / 2);
    }
  }

  lemma {:induction false} XorCommutes(a: nat, b: nat)
    ensures Xor(a, b) == Xor(b, a)
    decreases a + b
  {
    if a > 0 || b > 0 {
      XorCommutes(a / 2, b / 2);
    }
  }

  function Pow2(n: nat): (r: nat) {
    if n == 0 then 1 else 2 * Pow2(n - 1)
  }

  lemma {:induction false} XorBound(a: nat, b: nat, n: nat)
    requires a < Pow2(n) && b < Pow2(n)
    ensures Xor(a, b) < Pow2(n)
    decreases n
  {
    if n > 0 {
      XorBound(a / 2, b / 2, n - 1);
    }
  }

  lemma Pow2Octet(n: nat)
    ensures Pow2(n + 8) == 256 * Pow2(n)
  {
    assert Pow2(n + 2) == 4 * Pow2(n);
    assert Pow2(n + 4) == 16 * Pow2(n);
    assert Pow2(n + 6) == 64 * Pow2(n);
  }

  lemma Pow2SixtyFour()
    ensures Pow2(8) == 0x100 && Pow2(64) == TWO64
  {
    Pow2Octet(0);
    Pow2Octet(8);
    Pow2Octet(16);
    Pow2Octet(24);
    Pow2Octet(32);
    Pow2Octet(40);
    Pow2Octet(48);
    Pow2Octet(56);
  }

  lemma {:induction false} XorZero(a: nat)
    ensures Xor(a, 0) == a
  {
    if a > 0 {
      XorZero(a / 2);
    }
  }

  /** An operand below 2^n touches the low n bits only. */
  lemma {:induction false} XorLow(q: nat, r: nat, b: nat, n: nat)
    requires r < Pow2(n) && b < Pow2(n)
    ensures Pow2(n) * q >= 0 && Xor(Pow2(n) * q + r, b) == Pow2(n) * q + Xor(r, b)
    decreases n
  {
    if n == 0 {
      XorZero(q);
    } else {
      var p := Pow2(n - 1) * q;
      assert Pow2(n) * q == 2 * p;
      XorLow(q, r / 2, b / 2, n - 1);
      assert (2 * p + r) / 2 == p + r / 2 && (2 * p + r) % 2 == r % 2;
    }
  }

  // ----- the hash

  /** One octet: exclusive or first, then the product modulo 2^64. */
  function Step(h: Hash, b: Byte): (r: Hash) {
    Xor(h, b) * PRIME64 % TWO64
  }

  function Fnv(h: Hash, s: Bytes): (r: Hash) {
    if s == [] then h else Step(Fnv(h, s[..|s| - 1]), s[|s| - 1])
  }

  method HashAddByte(h: Hash, b: Byte) returns (r: Hash)
    ensures r == Fnv(h, [b])
  {
    var x := Xor(h, b);
    r := x * PRIME64 % TWO64;
    assert [b][..0] == [];
  }

  method HashAdd(h: Hash, s: Bytes) returns (r: Hash)
    ensures r == Fnv(h, s)
  {
    r := h;
    for i := 0 to |s|
      invariant r == Fnv(h, s[..i])
    {
      var x := Xor(r, s[i]);
      assert s[..i + 1][..i] == s[..i];
      r := x * PRIME64 % TWO64;
    }
    assert s[..|s|] == s;
  }

  lemma {:induction false} FnvConcat(h: Hash, s: Bytes, t: Bytes)
    ensures Fnv(h, s + t) == Fnv(Fnv(h, s), t)
    decreases |t|
  {
    if t == [] {
      assert s + t == s;
    } else {
      var init := t[..|t| - 1];
      FnvConcat(h, s, init);
      assert (s + t)[..|s + t| - 1] == s + init;
    }
  }

  lemma ByteStep(h: Hash, b: Byte, low: Byte)
    requires low == Xor(h % 256, b)
    ensures Step(h, b) == (h - h % 256 + low) * PRIME64 % TWO64
  {
    Pow2SixtyFour();
    XorLow(h / 256, h % 256, b, 8);
  }

  lemma LowBits()
    ensures Xor(0x25, 0x61) == 0x44
  {
    assert Xor(1, 3) == 2;
    assert Xor(4, 12) == 8;
    assert Xor(9, 24) == 17;
    assert Xor(18, 48) == 34;
  }

  lemma FnvOne(h: Hash, b: Byte)
    ensures Fnv(h, [b]) == Step(h, b)
  {
    assert [b][..0] == [];
  }

  /** The published value of the hash for "a". */
  lemma KnownValue()
    ensures Fnv(OFFSET64, [0x61]) == 0xaf63dc4c8601ec8c
  {
    hide Xor, Step, Fnv;
    LowBits();
    ByteStep(OFFSET64, 0x61, 0x44);
    FnvOne(OFFSET64, 0x61);
  }

  lemma ModUnique(x: nat, y: int, k: int)
    requires x < TWO64 && y == x + TWO64 * k
    ensures y % TWO64 == x
  {}

  lemma Unmultiply(x: nat)
    requires x < TWO64
    ensures (x * PRIME64 % TWO64) * INVERSE64 % TWO64 == x
  {
    var q, r := x * PRIME64 / TWO64, x * PRIME64 % TWO64;
    assert r * INVERSE64 == x + TWO64 * (887285111055 * x - INVERSE64 * q);
    ModUnique(x, r * INVERSE64, 887285111055 * x - INVERSE64 * q);
  }

  /** A step loses nothing: it can be undone in the state, and in the byte. */
  lemma StepInjective(h: Hash, b: Byte, g: Hash, c: Byte)
    requires Step(h, b) == Step(g, c)
    ensures b == c ==> h == g
    ensures h == g ==> b == c
  {
    Pow2SixtyFour();
    XorBound(h, b, 64);
    XorBound(g, c, 64);
    Unmultiply(Xor(h, b));
    Unmultiply(Xor(g, c));
    XorTwice(h, b);
    XorTwice(g, c);
    XorCommutes(h, b);
    XorCommutes(g, c);
    XorTwice(b, h);
    XorTwice(c, g);
  }

  /** Hashing the same continuation keeps different states different. */
  lemma {:induction false} ContinuationInjective(h: Hash, g: Hash, s: Bytes)
    requires Fnv(h, s) == Fnv(g, s)
    ensures h == g
    decreases |s|
  {
    if s != [] {
      var init, b := s[..|s| - 1], s[|s| - 1];
      StepInjective(Fnv(h, init), b, Fnv(g, init), b);
      ContinuationInjective(h, g, init);
    }
  }

  /** Two streams of one length that differ in a single byte never collide. */
  lemma SingleByteDetected(h: Hash, s: Bytes, b: Byte, c: Byte, t: Bytes)
    requires b != c
    ensures Fnv(h, s + [b] + t) != Fnv(h, s + [c] + t)
  {
    FnvConcat(h, s + [b], t);
    FnvConcat(h, s + [c], t);
    assert (s + [b])[..|s|] == s && (s + [c])[..|s|] == s;
    if Fnv(h, s + [b] + t) == Fnv(h, s + [c] + t) {
      ContinuationInjective(Fnv(h, s + [b]), Fnv(h, s + [c]), t);
      StepInjective(Fnv(h, s), b, Fnv(h, s), c);
      assert false;
    }
  }

  // ----- the stream of a name and its labels

  /** model.SeparatorByte */
  const SEPARATOR: Byte := 0xFF

  function Terminated(labels: seq<Bytes>): (r: Bytes) {
    if labels == [] then []
    else Terminated(labels[..|labels| - 1]) + labels[|labels| - 1] + [SEPARATOR]
  }

  function Stream(name: Bytes, labels: seq<Bytes>): (r: Bytes) {
    name + Terminated(labels)
  }

  method LabelsHash(name: Bytes, labels: seq<Bytes>) returns (h: Hash)
    ensures h == Fnv(OFFSET64, Stream(name, labels))
  {
    hide Fnv, Step, Stream;
    h := HashAdd(OFFSET64, name);
    StreamNext(name, labels);
    for i := 0 to |labels|
      invariant h == Fnv(OFFSET64, Stream(name, labels[..i]))
    {
      ghost var before := Stream(name, labels[..i]);
      FnvConcat(OFFSET64, before, labels[i]);
      FnvConcat(OFFSET64, before + labels[i], [SEPARATOR]);
      h := HashAdd(h, labels[i]);
      h := HashAddByte(h, SEPARATOR);
    }
    assert labels[..|labels|] == labels;
  }

  lemma StreamNext(name: Bytes, labels: seq<Bytes>)
    ensures Stream(name, labels[..0]) == name
    ensures forall i :: 0 <= i < |labels| ==>
      Stream(name, labels[..i + 1]) == Stream(name, labels[..i]) + labels[i] + [SEPARATOR]
  {
    forall i | 0 <= i < |labels|
      ensures Stream(name, labels[..i + 1]) == Stream(name, labels[..i]) + labels[i] + [SEPARATOR]
    {
      assert labels[..i + 1][..i] == labels[..i];
    }
  }

  /** A reader of the stream: the labels ended so far, and the bytes since the last separator. */
  datatype Reader = Reader(ended: seq<Bytes>, open: Bytes)

  function Read(s: Bytes): (r: Reader) {
    if s == [] then Reader([], [])
    else
      var r, b := Read(s[..|s| - 1]), s[|s| - 1];
      if b == SEPARATOR then Reader(r.ended + [r.open], []) else Reader(r.ended, r.open + [b])
  }

  ghost predicate Separable(labels: seq<Bytes>) {
    forall i :: 0 <= i < |labels| ==> SEPARATOR !in labels[i]
  }

  lemma ReadNext(s: Bytes, b: Byte)
    requires b != SEPARATOR
    ensures Read(s + [b]) == Reader(Read(s).ended, Read(s).open + [b])
  {
    assert (s + [b])[..|s|] == s;
  }

  lemma {:induction false} ReadText(s: Bytes, text: Bytes)
    requires SEPARATOR !in text
    ensures Read(s + text) == Reader(Read(s).ended, Read(s).open + text)
    decreases |text|
  {
    hide Read;
    if text == [] {
      assert s + text == s;
      assert Read(s).open + [] == Read(s).open;
    } else {
      var init, b := text[..|text| - 1], text[|text| - 1];
      ReadText(s, init);
      ReadNext(s + init, b);
      assert s + init + [b] == s + text;
      assert Read(s).open + init + [b] == Read(s).open + text;
    }
  }

  /** The reader recovers the labels from the stream. */
  lemma {:induction false} ReadTerminated(labels: seq<Bytes>)
    requires Separable(labels)
    ensures Read(Terminated(labels)) == Reader(labels, [])
  {
    if labels != [] {
      var init, last := labels[..|labels| - 1], labels[|labels| - 1];
      ReadTerminated(init);
      var s := Terminated(init);
      ReadText(s, last);
      assert (s + last + [SEPARATOR])[..|s + last|] == s + last;
      assert [] + last == last;
      assert init + [last] == labels;
    }
  }

  lemma {:induction false} TerminatedSplit(labels: seq<Bytes>, n: nat)
    requires n <= |labels|
    ensures Terminated(labels) == Terminated(labels[..n]) + Terminated(labels[n..])
    decreases |labels|
  {
    if n == |labels| {
      assert labels[..n] == labels && labels[n..] == [];
    } else {
      var init := labels[..|labels| - 1];
      TerminatedSplit(init, n);
      assert init[..n] == labels[..n];
      assert labels[n..][..|labels| - n - 1] == init[n..];
      assert Terminated(labels[n..])
          == Terminated(init[n..]) + labels[|labels| - 1] + [SEPARATOR];
    }
  }

  /** The name and the first label run together in the stream. */
  function Joined(name: Bytes, labels: seq<Bytes>): (r: seq<Bytes>)
    requires labels != []
  {
    [name + labels[0]] + labels[1..]
  }

  lemma StreamJoined(name: Bytes, labels: seq<Bytes>)
    requires labels != []
    ensures Stream(name, labels) == Terminated(Joined(name, labels))
  {
    var joined := Joined(name, labels);
    TerminatedSplit(labels, 1);
    TerminatedSplit(joined, 1);
    assert joined[1..] == labels[1..];
    assert labels[..1] == [labels[0]] && joined[..1] == [name + labels[0]];
    assert Terminated([labels[0]]) == labels[0] + [SEPARATOR];
    assert Terminated([name + labels[0]]) == name + labels[0] + [SEPARATOR];
  }

  /** Under one name, the stream determines the labels. */
  lemma LabelsDetermined(name: Bytes, labels: seq<Bytes>, others: seq<Bytes>)
    requires Separable(labels) && Separable(others)
    ensures Stream(name, labels) == Stream(name, others) <==> labels == others
  {
    if Stream(name, labels) == Stream(name, others) {
      assert Stream(name, labels)[|name|..] == Terminated(labels);
      assert Stream(name, others)[|name|..] == Terminated(others);
      ReadTerminated(labels);
      ReadTerminated(others);
    }
  }

  /** Across names, streams agree exactly when name and first label run together to the same bytes and the remaining
      labels agree. */
  lemma StreamsAgreeIff(name: Bytes, labels: seq<Bytes>, other: Bytes, others: seq<Bytes>)
    requires labels != [] && others != []
    requires SEPARATOR !in name && SEPARATOR !in other && Separable(labels) && Separable(others)
    ensures Stream(name, labels) == Stream(other, others)
       <==> name + labels[0] == other + others[0] && labels[1..] == others[1..]
  {
    StreamJoined(name, labels);
    StreamJoined(other, others);
    var mine, theirs := Joined(name, labels), Joined(other, others);
    ReadTerminated(mine);
    ReadTerminated(theirs);
    if mine == theirs {
      assert mine[0] == theirs[0] && mine[1..] == theirs[1..];
    }
    assert mine[1..] == labels[1..] && theirs[1..] == others[1..];
  }

  /** Valid UTF-8 never holds the separator. */
  lemma ValidLabelsSeparable(labels: seq<Bytes>)
    requires forall i :: 0 <= i < |labels| ==> Utf8.Valid(labels[i])
    ensures Separable(labels)
  {
    forall i | 0 <= i < |labels|
      ensures SEPARATOR !in labels[i]
    {
      Utf8.NoFF(labels[i]);
    }
  }

  /** Moving the start of the first label into the name changes the metric and leaves the stream, and so the hash, as it
      was. */
  lemma NamesCollide(name: Bytes, first: Bytes, rest: seq<Bytes>, k: nat)
    requires k <= |first|
    ensures Stream(name, [first] + rest) == Stream(name + first[..k], [first[k..]] + rest)
  {
    hide Stream, Terminated;
    var mine, moved := [first] + rest, [first[k..]] + rest;
    StreamJoined(name, mine);
    StreamJoined(name + first[..k], moved);
    assert mine[1..] == rest && moved[1..] == rest;
    assert name + first == name + first[..k] + first[k..];
    assert Joined(name, mine) == Joined(name + first[..k], moved);
  }
}
