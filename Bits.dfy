/** Binary patterns as bit sequences, least significant bit first: bit k of a
    local binary pattern is the comparison made for sample k. */
module Bits {

  function Pow2(n: nat): (r: nat)
    ensures r >= 1
  {
    if n == 0 then 1 else 2 * Pow2(n - 1)
  }

  /** The number whose binary digits, least significant first, are b. */
  function Value(b: seq<bool>): nat
  {
    if b == [] then 0 else (if b[0] then 1 else 0) + 2 * Value(b[1..])
  }

  /** A pattern of n bits is below 2^n. */
  lemma {:induction false} ValueBelow(b: seq<bool>)
    ensures Value(b) < Pow2(|b|)
  {
    if b != [] {
      ValueBelow(b[1..]);
    }
  }

  /** The n lowest binary digits of x, least significant first. */
  function ToBits(x: nat, n: nat): (b: seq<bool>)
    ensures |b| == n
  {
    if n == 0 then [] else [x % 2 == 1] + ToBits(x / 2, n - 1)
  }

  /** Reading back the digits of a pattern that fits in n bits gives the pattern. */
  lemma {:induction false} ValueOfToBits(x: nat, n: nat)
    requires x < Pow2(n)
    ensures Value(ToBits(x, n)) == x
  {
    if n > 0 {
      ValueOfToBits(x / 2, n - 1);
      assert ToBits(x, n)[1..] == ToBits(x / 2, n - 1);
    }
  }

  /** Writing out the digits of a bit sequence's value gives the sequence back. */
  lemma {:induction false} ToBitsOfValue(b: seq<bool>)
    ensures ToBits(Value(b), |b|) == b
  {
    if b != [] {
      ToBitsOfValue(b[1..]);
      var v := Value(b);
      assert v % 2 == (if b[0] then 1 else 0);
      assert v / 2 == Value(b[1..]);
    }
  }

  /** Two patterns of the same width are equal iff their values are. */
  lemma ValueInjective(a: seq<bool>, b: seq<bool>)
    requires |a| == |b|
    ensures Value(a) == Value(b) <==> a == b
  {
    if Value(a) == Value(b) {
      ToBitsOfValue(a);
      ToBitsOfValue(b);
    }
  }

  /** The number of set bits (popcount). */
  function Ones(b: seq<bool>): (n: nat)
    ensures n <= |b|
    ensures n == 0 <==> Value(b) == 0
  {
    if b == [] then 0 else (if b[0] then 1 else 0) + Ones(b[1..])
  }

  lemma {:induction false} OnesAppend(a: seq<bool>, b: seq<bool>)
    ensures Ones(a + b) == Ones(a) + Ones(b)
  {
    if a == [] {
      assert a + b == b;
    } else {
      assert (a + b)[1..] == a[1..] + b;
      OnesAppend(a[1..], b);
    }
  }
}
