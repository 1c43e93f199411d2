/**
 Fixed-width unsigned integers as sequences of bits, least significant bit
 first: bit i of the integer is element i.
 */
module Bits {

  type Nibble = w: seq<bool> | |w| == 4 witness [false, false, false, false]

  // uint8_t
  type Byte = w: seq<bool> | |w| == 8
    witness [false, false, false, false, false, false, false, false]

  // uint16_t
  type Word = w: seq<bool> | |w| == 16
    witness [false, false, false, false, false, false, false, false,
             false, false, false, false, false, false, false, false]

  const ZERO_BYTE: Byte := [false, false, false, false, false, false, false, false]

  const ZERO: Word :=
    [false, false, false, false, false, false, false, false,
     false, false, false, false, false, false, false, false]

  // `a ^ b`
  function Xor(a: seq<bool>, b: seq<bool>): (r: seq<bool>)
    requires |a| == |b|
    ensures |r| == |a|
  {
    seq(|a|, i requires 0 <= i < |a| => a[i] != b[i])
  }

  // `a << 1`
  function Shift(a: seq<bool>): (r: seq<bool>)
    requires |a| > 0
    ensures |r| == |a|
  {
    [false] + a[..|a| - 1]
  }

  // `(uint16_t)b`
  function Low(b: Byte): Word {
    b + ZERO_BYTE
  }

  // `(uint16_t)b << 8`
  function High(b: Byte): Word {
    ZERO_BYTE + b
  }

  // `1u << m` as a byte
  function Mask(m: nat): Byte {
    seq(8, i => i == m)
  }

  function Unit(b: bool): nat {
    if b then 1 else 0
  }

  function Pow2(n: nat): (p: nat)
    ensures p >= 1
  {
    if n == 0 then 1 else 2 * Pow2(n - 1)
  }

  // The integer a bit sequence stands for.
  function Value(s: seq<bool>): (v: nat)
    ensures v < Pow2(|s|)
  {
    if s == [] then 0 else Unit(s[0]) + 2 * Value(s[1..])
  }

  // The `n` low bits of an integer.
  function ToBits(v: nat, n: nat): (s: seq<bool>)
    ensures |s| == n
  {
    if n == 0 then [] else [v % 2 == 1] + ToBits(v / 2, n - 1)
  }

  lemma ValueFrom(s: seq<bool>, k: nat)
    requires k < |s|
    ensures Value(s[k..]) == Unit(s[k]) + 2 * Value(s[k + 1..])
  {
    assert s[k..][1..] == s[k + 1..];
  }

  function Number(n: Nibble): nat {
    Unit(n[0]) + 2 * Unit(n[1]) + 4 * Unit(n[2]) + 8 * Unit(n[3])
  }

  lemma NumberIsValue(n: Nibble)
    ensures Value(n) == Number(n)
  {
    assert n[0..] == n && n[4..] == [];
    ValueFrom(n, 0);
    ValueFrom(n, 1);
    ValueFrom(n, 2);
    ValueFrom(n, 3);
  }

  lemma {:induction false} ValueToBits(v: nat, n: nat)
    requires v < Pow2(n)
    ensures Value(ToBits(v, n)) == v
  {
    if n > 0 {
      ValueToBits(v / 2, n - 1);
      assert ToBits(v, n)[1..] == ToBits(v / 2, n - 1);
    }
  }

  lemma {:induction false} ToBitsValue(s: seq<bool>)
    ensures ToBits(Value(s), |s|) == s
  {
    if s != [] {
      ToBitsValue(s[1..]);
    }
  }

  lemma ValueInjective(a: seq<bool>, b: seq<bool>)
    requires |a| == |b| && Value(a) == Value(b)
    ensures a == b
  {
    ToBitsValue(a);
    ToBitsValue(b);
  }

  lemma XorLaws(a: seq<bool>, b: seq<bool>)
    requires |a| == |b|
    ensures Xor(Xor(a, b), b) == a && Xor(a, Xor(a, b)) == b && Xor(a, b) == Xor(b, a)
  {}

  lemma XorAssociative(a: seq<bool>, b: seq<bool>, c: seq<bool>)
    requires |a| == |b| == |c|
    ensures Xor(Xor(a, b), c) == Xor(a, Xor(b, c))
  {}

  // ---- Counting bits ----

  // __builtin_popcount
  function Ones(s: seq<bool>): nat {
    if s == [] then 0 else Ones(s[..|s| - 1]) + Unit(s[|s| - 1])
  }

  predicate Odd(s: seq<bool>) {
    Ones(s) % 2 == 1
  }

  lemma OnesNext(s: seq<bool>, k: nat)
    requires k < |s|
    ensures Ones(s[..k + 1]) == Ones(s[..k]) + Unit(s[k])
  {
    assert s[..k + 1][..k] == s[..k];
  }

  lemma {:induction false} OnesConcat(a: seq<bool>, b: seq<bool>)
    ensures Ones(a + b) == Ones(a) + Ones(b)
  {
    if b == [] {
      assert a + b == a;
    } else {
      assert (a + b)[..|a + b| - 1] == a + b[..|b| - 1];
      OnesConcat(a, b[..|b| - 1]);
    }
  }

  lemma {:induction false} OnesXor(a: seq<bool>, b: seq<bool>)
    requires |a| == |b|
    ensures Ones(Xor(a, b)) <= Ones(a) + Ones(b) && Ones(Xor(a, b)) % 2 == (Ones(a) + Ones(b)) % 2
  {
    if a != [] {
      var n := |a| - 1;
      assert Xor(a, b)[..n] == Xor(a[..n], b[..n]);
      OnesXor(a[..n], b[..n]);
    }
  }

  lemma OddConcat(a: seq<bool>, b: seq<bool>)
    ensures Odd(a + b) == (Odd(a) != Odd(b))
  {
    OnesConcat(a, b);
  }

  lemma OddXor(a: seq<bool>, b: seq<bool>)
    requires |a| == |b|
    ensures Odd(Xor(a, b)) == (Odd(a) != Odd(b))
  {
    OnesXor(a, b);
  }

  lemma OddBit(b: bool)
    ensures Odd([b]) == b
  {
    assert Ones([b]) == Ones([]) + Unit(b);
  }

  lemma OddPair(a: bool, b: bool)
    ensures Odd([a, b]) == (a != b)
  {
    assert [a, b] == [a] + [b];
    OddConcat([a], [b]);
    OddBit(a);
    OddBit(b);
  }

  lemma OddNibble(p: seq<bool>)
    requires |p| == 4
    ensures Odd(p) == ((p[0] != p[1]) != (p[2] != p[3]))
  {
    assert p == [p[0], p[1]] + [p[2], p[3]];
    OddConcat([p[0], p[1]], [p[2], p[3]]);
    OddPair(p[0], p[1]);
    OddPair(p[2], p[3]);
  }
}
