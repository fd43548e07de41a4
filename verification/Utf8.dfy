/** UTF-8 byte sequences as section 4 of RFC 3629 defines them, and strings.ToValidUTF8 with an empty replacement. */
module Utf8 {
  import opened Prelude

  predicate Tail(b: Byte) {
    0x80 <= b <= 0xBF
  }

  /** The second byte a given first byte allows, and the number of bytes it announces. */
  function Length(first: Byte): (r: nat) {
    if first < 0x80 then 1
    else if 0xC2 <= first <= 0xDF then 2
    else if 0xE0 <= first <= 0xEF then 3
    else if 0xF0 <= first <= 0xF4 then 4
    else 0
  }

  predicate SecondByte(first: Byte, b: Byte) {
    if first == 0xE0 then 0xA0 <= b <= 0xBF
    else if first == 0xED then 0x80 <= b <= 0x9F
    else if first == 0xF0 then 0x90 <= b <= 0xBF
    else if first == 0xF4 then 0x80 <= b <= 0x8F
    else Tail(b)
  }

  /** The number of bytes of the code point at the head of `s`, zero if there is none. */
  function Width(s: Bytes): (w: nat)
    ensures w <= |s|
  {
    if s == [] then 0
    else
      var n := Length(s[0]);
      if n <= |s|
         && (n >= 2 ==> SecondByte(s[0], s[1])) && (n >= 3 ==> Tail(s[2])) && (n >= 4 ==> Tail(s[3]))
      then n else 0
  }

  predicate Valid(s: Bytes) {
    s == [] || (Width(s) > 0 && Valid(s[Width(s)..]))
  }

  /** Drops every byte that does not belong to a code point. */
  function ToValid(s: Bytes): (r: Bytes) {
    if s == [] then []
    else if Width(s) == 0 then ToValid(s[1..])
    else s[..Width(s)] + ToValid(s[Width(s)..])
  }

  // ----- the code points themselves

  /** A Unicode scalar value: no surrogate, at most U+10FFFF. */
  predicate Scalar(c: nat) {
    c < 0xD800 || 0xE000 <= c < 0x110000
  }

  /** Section 3 of RFC 3629: the bits of the value, six to a byte after the first. */
  function Encoded(c: nat): (r: Bytes)
    requires Scalar(c)
  {
    if c < 0x80 then [c]
    else if c < 0x800 then [0xC0 + c / 64, 0x80 + c % 64]
    else if c < 0x10000 then [0xE0 + c / 64 / 64, 0x80 + c / 64 % 64, 0x80 + c % 64]
    else [0xF0 + c / 64 / 64 / 64, 0x80 + c / 64 / 64 % 64, 0x80 + c / 64 % 64, 0x80 + c % 64]
  }

  /** The head of a string is a code point exactly if the string begins with the encoding of a scalar value. */
  lemma WidthIff(s: Bytes)
    ensures Width(s) > 0 <==> exists c :: Scalar(c) && Encoded(c) <= s
    ensures Width(s) > 0 ==> exists c :: Scalar(c) && Encoded(c) == s[..Width(s)]
  {
    if Width(s) > 0 {
      var c := Scanned(s);
    }
    forall c | Scalar(c) && Encoded(c) <= s
      ensures Width(s) > 0
    {
      EncodedWidth(c, s);
    }
  }

  lemma EncodedWidth(c: nat, s: Bytes)
    requires Scalar(c) && Encoded(c) <= s
    ensures Width(s) == |Encoded(c)|
  {
    var e := Encoded(c);
    assert s[0] == e[0] && (|e| > 1 ==> s[1] == e[1]) && (|e| > 2 ==> s[2] == e[2]) && (|e| > 3 ==> s[3] == e[3]);
  }

  /** Six more bits. */
  function Continued(high: nat, b: Byte): (c: nat)
    ensures 64 * high <= c < 64 * high + 64
    ensures c / 64 == high
  {
    64 * high + b % 64
  }

  lemma ContinuedBack(high: nat, b: Byte)
    requires Tail(b)
    ensures 0x80 + Continued(high, b) % 64 == b
    ensures b >= 0xA0 ==> Continued(high, b) >= 64 * high + 32
    ensures b >= 0x90 ==> Continued(high, b) >= 64 * high + 16
    ensures b < 0xA0 ==> Continued(high, b) < 64 * high + 32
    ensures b < 0x90 ==> Continued(high, b) < 64 * high + 16
  {}

  lemma ScannedTwo(x: nat, b: Byte)
    requires 2 <= x < 0x20 && Tail(b)
    ensures var c := Continued(x, b); Scalar(c) && Encoded(c) == [0xC0 + x, b]
  {
    ContinuedBack(x, b);
    hide Continued;
  }

  lemma ScannedThree(x: nat, b: Byte, b': Byte)
    requires x < 0x10 && SecondByte(0xE0 + x, b) && Tail(b')
    ensures var c := Continued(Continued(x, b), b'); Scalar(c) && Encoded(c) == [0xE0 + x, b, b']
  {
    ContinuedBack(x, b);
    ContinuedBack(Continued(x, b), b');
    hide Continued;
  }

  lemma ScannedFour(x: nat, b: Byte, b': Byte, b'': Byte)
    requires x < 5 && SecondByte(0xF0 + x, b) && Tail(b') && Tail(b'')
    ensures var c := Continued(Continued(Continued(x, b), b'), b'');
      Scalar(c) && Encoded(c) == [0xF0 + x, b, b', b'']
  {
    ContinuedBack(x, b);
    ContinuedBack(Continued(x, b), b');
    ContinuedBack(Continued(Continued(x, b), b'), b'');
    hide Continued;
  }

  lemma Scanned(s: Bytes) returns (c: nat)
    requires Width(s) > 0
    ensures Scalar(c) && Encoded(c) == s[..Width(s)]
  {
    var first: int := s[0];
    hide Encoded, Continued, Scalar;
    if Width(s) == 1 {
      c := first;
      ScannedOne(c);
    } else if Width(s) == 2 {
      ScannedTwo(first - 0xC0, s[1]);
      c := Continued(first - 0xC0, s[1]);
    } else if Width(s) == 3 {
      ScannedThree(first - 0xE0, s[1], s[2]);
      c := Continued(Continued(first - 0xE0, s[1]), s[2]);
    } else {
      ScannedFour(first - 0xF0, s[1], s[2], s[3]);
      c := Continued(Continued(Continued(first - 0xF0, s[1]), s[2]), s[3]);
    }
  }

  lemma ScannedOne(c: nat)
    requires c < 0x80
    ensures Scalar(c) && Encoded(c) == [c]
  {}

  function EncodedAll(cs: seq<nat>): (r: Bytes)
    requires forall i :: 0 <= i < |cs| ==> Scalar(cs[i])
  {
    if cs == [] then [] else Encoded(cs[0]) + EncodedAll(cs[1..])
  }

  ghost predicate Encodes(cs: seq<nat>, s: Bytes) {
    (forall i :: 0 <= i < |cs| ==> Scalar(cs[i])) && EncodedAll(cs) == s
  }

  /** The valid byte strings are the encodings of sequences of scalar values, and no others. */
  lemma ValidIff(s: Bytes)
    ensures Valid(s) <==> exists cs :: Encodes(cs, s)
  {
    if Valid(s) {
      var cs := Decoded(s);
    }
    forall cs | Encodes(cs, s)
      ensures Valid(s)
    {
      EncodedValid(cs);
    }
  }

  lemma {:induction false} Decoded(s: Bytes) returns (cs: seq<nat>)
    requires Valid(s)
    ensures Encodes(cs, s)
    decreases |s|
  {
    hide Encoded, Width, Valid, Encodes;
    cs := [];
    EncodesNone();
    if s != [] {
      ValidRest(s);
      var w := Width(s);
      var c := Scanned(s);
      var rest := Decoded(s[w..]);
      EncodesNext(c, rest, s[w..]);
      assert s == s[..w] + s[w..];
      cs := [c] + rest;
    }
  }

  lemma ValidRest(s: Bytes)
    requires Valid(s) && s != []
    ensures Width(s) > 0 && Valid(s[Width(s)..])
  {}

  lemma EncodesNone()
    ensures Encodes([], [])
  {}

  lemma EncodesNext(c: nat, cs: seq<nat>, s: Bytes)
    requires Scalar(c) && Encodes(cs, s)
    ensures Encodes([c] + cs, Encoded(c) + s)
  {
    hide Encoded;
    assert ([c] + cs)[1..] == cs;
  }

  lemma {:induction false} EncodedValid(cs: seq<nat>)
    requires forall i :: 0 <= i < |cs| ==> Scalar(cs[i])
    ensures Valid(EncodedAll(cs))
  {
    if cs != [] {
      var e, rest := Encoded(cs[0]), EncodedAll(cs[1..]);
      EncodedValid(cs[1..]);
      EncodedWidth(cs[0], e + rest);
      hide Encoded;
      assert (e + rest)[|e|..] == rest;
    }
  }

  predicate Ascii(s: Bytes) {
    forall i :: 0 <= i < |s| ==> s[i] < 0x80
  }

  /** `m` is the end of the last whole code point within the first `n` bytes. */
  ghost predicate LongestWithin(s: Bytes, n: nat, m: nat)
    requires n <= |s|
  {
    m <= n && Valid(s[..m]) && forall k :: m < k <= n ==> !Valid(s[..k])
  }

  lemma {:induction false} AsciiKept(t: Bytes)
    requires Ascii(t)
    ensures ToValid(t) == t && Valid(t)
  {
    if t != [] {
      AsciiKept(t[1..]);
    }
  }

  lemma {:induction false} TailsDropped(c: Bytes, t: Bytes)
    requires forall i :: 0 <= i < |c| ==> Tail(c[i])
    requires Ascii(t)
    ensures ToValid(c + t) == t
  {
    if c == [] {
      assert c + t == t;
      AsciiKept(t);
    } else {
      assert (c + t)[1..] == c[1..] + t;
      TailsDropped(c[1..], t);
    }
  }

  /** The width at the head depends on that code point's own bytes only. */
  lemma WidthOfPrefix(s: Bytes, n: nat, t: Bytes)
    requires n <= |s| && 0 < Width(s) <= n
    ensures Width(s[..n] + t) == Width(s)
  {}

  /** A code point cut short, followed by ASCII or nothing, is not one. */
  lemma CutShort(s: Bytes, n: nat, t: Bytes)
    requires 0 < n < Width(s) && Ascii(t)
    ensures Width(s[..n] + t) == 0
    ensures forall i :: 1 <= i < n ==> Tail(s[i])
  {}

  lemma CutShortDropped(s: Bytes, n: nat, t: Bytes)
    requires 0 < n < Width(s) && Ascii(t)
    ensures ToValid(s[..n] + t) == t
  {
    CutShort(s, n, t);
    assert (s[..n] + t)[1..] == s[1..n] + t;
    TailsDropped(s[1..n], t);
  }

  lemma LongestShift(s: Bytes, n: nat, m: nat)
    requires n <= |s| && 0 < Width(s) <= n
    requires LongestWithin(s[Width(s)..], n - Width(s), m)
    ensures LongestWithin(s, n, Width(s) + m)
  {
    var w := Width(s);
    forall k | w <= k <= n
      ensures Valid(s[..k]) <==> Valid(s[w..][..k - w])
    {
      WidthOfPrefix(s, k, []);
      assert s[..k] + [] == s[..k];
      assert s[..k][w..] == s[w..][..k - w];
    }
  }

  lemma ToValidHead(s: Bytes, n: nat, t: Bytes)
    requires n <= |s| && 0 < Width(s) <= n
    ensures ToValid(s[..n] + t) == s[..Width(s)] + ToValid(s[Width(s)..][..n - Width(s)] + t)
  {
    var w := Width(s);
    WidthOfPrefix(s, n, t);
    assert (s[..n] + t)[w..] == s[w..][..n - w] + t;
    assert (s[..n] + t)[..w] == s[..w];
  }

  lemma NothingWithin(s: Bytes, n: nat)
    requires n < Width(s)
    ensures LongestWithin(s, n, 0)
  {
    forall k | 0 < k <= n
      ensures !Valid(s[..k])
    {
      CutShort(s, k, []);
      assert s[..k] + [] == s[..k];
    }
  }

  /** Cutting valid UTF-8 anywhere, appending ASCII and dropping invalid bytes keeps exactly the whole code points
      before the cut, and the appended text. */
  lemma {:induction false} CutKeepsWholeCodePoints(s: Bytes, n: nat, t: Bytes) returns (m: nat)
    requires Valid(s) && n <= |s| && Ascii(t)
    ensures LongestWithin(s, n, m) && ToValid(s[..n] + t) == s[..m] + t
    decreases |s|
  {
    hide ToValid, Width;
    var w := Width(s);
    if n == 0 {
      m := 0;
      assert s[..0] + t == t;
      AsciiKept(t);
    } else if n < w {
      m := 0;
      CutShortDropped(s, n, t);
      NothingWithin(s, n);
      assert s[..0] + t == t;
    } else {
      var m' := CutKeepsWholeCodePoints(s[w..], n - w, t);
      m := w + m';
      LongestShift(s, n, m');
      ToValidHead(s, n, t);
      assert s[..m] == s[..w] + s[w..][..m'];
      assert s[..w] + (s[w..][..m'] + t) == s[..m] + t;
    }
  }

  /** The prefix is determined by the cut. */
  lemma LongestUnique(s: Bytes, n: nat, m: nat, k: nat)
    requires n <= |s| && LongestWithin(s, n, m) && LongestWithin(s, n, k)
    ensures m == k
  {}

  /** The result is always valid UTF-8, and valid text is left alone. */
  lemma {:induction false} ToValidIsValid(s: Bytes)
    ensures Valid(ToValid(s)) && |ToValid(s)| <= |s| && (Valid(s) <==> ToValid(s) == s)
    decreases |s|
  {
    if s != [] {
      var w := Width(s);
      if w == 0 {
        ToValidIsValid(s[1..]);
      } else {
        ToValidIsValid(s[w..]);
        var r := ToValid(s[w..]);
        WidthOfPrefix(s, w, r);
        assert (s[..w] + r)[w..] == r;
        assert s == s[..w] + s[w..];
      }
    }
  }

  lemma HeadDropped(b: Byte, t: Bytes)
    requires Width([b] + t) == 0
    ensures ToValid([b] + t) == ToValid(t)
  {
    assert ([b] + t)[1..] == t;
  }

  /** A byte that begins no code point is dropped, and nothing but it: the valid text before it stays, and what follows
      it is read on its own. */
  lemma {:induction false} OneByteDropped(s: Bytes, b: Byte, t: Bytes)
    requires Valid(s) && Width([b] + t) == 0
    ensures ToValid(s + [b] + t) == s + ToValid(t)
    decreases |s|
  {
    hide Valid, Width, ToValid;
    if s == [] {
      HeadDropped(b, t);
      assert s + [b] + t == [b] + t && s + ToValid(t) == ToValid(t);
    } else {
      ValidRest(s);
      var w := Width(s);
      ToValidHead(s, |s|, [b] + t);
      OneByteDropped(s[w..], b, t);
      assert s[..|s|] == s && s[w..][..|s| - w] == s[w..];
      assert s + ([b] + t) == s + [b] + t && s[w..] + ([b] + t) == s[w..] + [b] + t;
      assert s[..w] + (s[w..] + ToValid(t)) == s + ToValid(t);
    }
  }

  lemma {:induction false} ValidConcat(s: Bytes, t: Bytes)
    requires Valid(s) && Valid(t)
    ensures Valid(s + t)
    decreases |s|
  {
    if s == [] {
      assert s + t == t;
    } else {
      var w := Width(s);
      WidthOfPrefix(s, |s|, t);
      assert s[..|s|] == s;
      assert (s + t)[w..] == s[w..] + t;
      ValidConcat(s[w..], t);
    }
  }

  /** Valid text never contains the byte 0xFF. */
  lemma {:induction false} NoFF(s: Bytes)
    requires Valid(s)
    ensures 0xFF !in s
    decreases |s|
  {
    if s != [] {
      var w := Width(s);
      NoFF(s[w..]);
      assert s == s[..w] + s[w..];
    }
  }
}
