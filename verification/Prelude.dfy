/** Shared datatypes and sequence lemmas. */
module Prelude {

  datatype Option<+T> = None | Some(value: T)

  /** A timer with a one-slot channel that stopping and resetting do not drain. */
  datatype Timer = Timer(armed: bool, tick: bool)

  const TWO64: nat := 0x1_0000_0000_0000_0000

  type Byte = x: int | 0 <= x < 256

  type Bytes = seq<Byte>

  /** The bytes of an ASCII text. */
  function Text(s: string): (r: Bytes)
    requires forall i :: 0 <= i < |s| ==> s[i] < 128 as char
  {
    seq(|s|, i requires 0 <= i < |s| => s[i] as int)
  }

  /** All inner sequences, one after the other. */
  function Flatten<T>(xss: seq<seq<T>>): (r: seq<T>) {
    if xss == [] then [] else Flatten(xss[..|xss| - 1]) + xss[|xss| - 1]
  }

  lemma FlattenAppend<T>(xss: seq<seq<T>>, xs: seq<T>)
    ensures Flatten(xss + [xs]) == Flatten(xss) + xs
  {
    assert (xss + [xs])[..|xss|] == xss;
  }

  lemma {:induction false} FlattenConcat<T>(xss: seq<seq<T>>, yss: seq<seq<T>>)
    ensures Flatten(xss + yss) == Flatten(xss) + Flatten(yss)
    decreases |yss|
  {
    if yss == [] {
      assert xss + yss == xss;
    } else {
      var init := yss[..|yss| - 1];
      FlattenConcat(xss, init);
      assert (xss + yss)[..|xss + yss| - 1] == xss + init;
    }
  }
}
