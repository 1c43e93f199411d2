/**
 The arithmetic behind the LoRa payload CRC: sixteen-bit remainders modulo
 x^16 + x^12 + x^5 + 1 over GF(2).  `Step` is one iteration of the inner loop of
 `lora_crc16`, that is, multiplication by x.  The main result is that x has
 multiplicative order exactly 32767.
 */
module CrcPolynomial {
  import opened Arithmetic
  import opened Bits

  const ONE: Word :=
    [true, false, false, false, false, false, false, false,
     false, false, false, false, false, false, false, false]

  // 0x1021
  const TAPS: Word :=
    [true, false, false, false, false, true, false, false,
     false, false, false, false, true, false, false, false]

  // `(c & 0x8000) ? (c << 1) ^ 0x1021 : (c << 1)`
  function Step(c: Word): Word {
    if c[15] then Xor(Shift(c), TAPS) else Shift(c)
  }

  function Steps(c: Word, n: nat): Word {
    if n == 0 then c else Step(Steps(c, n - 1))
  }

  // x^n modulo the generator.
  function Pow(n: nat): Word {
    Steps(ONE, n)
  }

  lemma StepLinear(a: Word, b: Word)
    ensures Step(Xor(a, b)) == Xor(Step(a), Step(b))
  {}

  lemma {:induction false} StepsLinear(a: Word, b: Word, n: nat)
    ensures Steps(Xor(a, b), n) == Xor(Steps(a, n), Steps(b, n))
  {
    if n > 0 {
      StepsLinear(a, b, n - 1);
      StepLinear(Steps(a, n - 1), Steps(b, n - 1));
    }
  }

  lemma StepInjective(a: Word, b: Word)
    requires Step(a) == Step(b)
    ensures a == b
  {
    assert Step(a)[0] == a[15] && Step(b)[0] == b[15];
    forall i | 0 <= i < 15
      ensures a[i] == b[i]
    {
      assert Step(a)[i + 1] == Step(b)[i + 1];
    }
  }

  lemma OddWord(c: Word)
    ensures Odd(c) == ((Odd(c[..4]) != Odd(c[4..8])) != (Odd(c[8..12]) != Odd(c[12..])))
  {
    var p, q, r, s := c[..4], c[4..8], c[8..12], c[12..];
    assert c == p + q + (r + s);
    OddConcat(p + q, r + s);
    OddConcat(p, q);
    OddConcat(r, s);
  }

  // Three of the generator's four terms are below x^16.
  lemma OddTaps()
    ensures Odd(TAPS)
  {
    OddWord(TAPS);
    OddNibble(TAPS[..4]);
    OddNibble(TAPS[4..8]);
    OddNibble(TAPS[8..12]);
    OddNibble(TAPS[12..]);
  }

  // The generator has an even number of terms, so multiplying by x keeps the parity.
  lemma StepKeepsParity(c: Word)
    ensures Odd(Step(c)) == Odd(c)
  {
    assert c == c[..15] + [c[15]];
    OddConcat(c[..15], [c[15]]);
    OddBit(c[15]);
    OddConcat([false], c[..15]);
    OddBit(false);
    OddTaps();
    OddXor(Shift(c), TAPS);
  }

  lemma {:induction false} PowParity(n: nat)
    ensures Odd(Pow(n))
  {
    if n > 0 {
      PowParity(n - 1);
      StepKeepsParity(Pow(n - 1));
    } else {
      OddWord(ONE);
      OddNibble(ONE[..4]);
      OddNibble(ONE[4..8]);
      OddNibble(ONE[8..12]);
      OddNibble(ONE[12..]);
    }
  }

  lemma {:induction false} StepsAdd(c: Word, m: nat, n: nat)
    ensures Steps(Steps(c, m), n) == Steps(c, m + n)
  {
    if n > 0 {
      StepsAdd(c, m, n - 1);
    }
  }

  lemma {:induction false} StepsInjective(a: Word, b: Word, n: nat)
    requires Steps(a, n) == Steps(b, n)
    ensures a == b
  {
    if n > 0 {
      StepInjective(Steps(a, n - 1), Steps(b, n - 1));
      StepsInjective(a, b, n - 1);
    }
  }

  // Equal powers differ by a period.
  lemma PowEqual(m: nat, n: nat)
    requires m <= n && Pow(m) == Pow(n)
    ensures Pow(n - m) == ONE
  {
    StepsAdd(ONE, n - m, m);
    StepsInjective(Pow(n - m), ONE, m);
  }

  // `Step` bit by bit.
  function StepBits(c: Word): Word {
    [c[15], c[0], c[1], c[2], c[3], c[4] != c[15], c[5], c[6], c[7],
     c[8], c[9], c[10], c[11] != c[15], c[12], c[13], c[14]]
  }

  lemma StepIsStepBits(c: Word)
    ensures Step(c) == StepBits(c)
  {}

  // Squaring modulo the generator.  Squaring is linear over GF(2): bit i
  // contributes x^(2i), and the powers from x^16 on are reduced.
  function Square(c: Word): Word {
    [c[0] != (c[8] != (c[10] != (c[12] != c[14]))),
     c[14],
     c[1] != (c[9] != (c[11] != (c[13] != c[15]))),
     c[15],
     c[2] != (c[10] != (c[12] != c[14])),
     c[8] != (c[10] != (c[12] != c[14])),
     c[3] != (c[11] != (c[13] != (c[14] != c[15]))),
     c[9] != (c[11] != (c[13] != c[15])),
     c[4] != (c[12] != (c[14] != c[15])),
     c[10] != (c[12] != c[14]),
     c[5] != (c[13] != c[15]),
     c[11] != (c[13] != c[15]),
     c[6] != (c[8] != (c[10] != c[12])),
     c[12],
     c[7] != (c[9] != (c[11] != c[13])),
     c[13]]
  }

  function StepTwice(c: Word): Word {
    [c[14], c[15], c[0], c[1], c[2], c[3] != c[14], c[4] != c[15], c[5], c[6],
     c[7], c[8], c[9], c[10] != c[14], c[11] != c[15], c[12], c[13]]
  }

  lemma StepTwiceIs(c: Word)
    ensures StepBits(StepBits(c)) == StepTwice(c)
  {}

  lemma SquareStepTwice(c: Word)
    ensures Square(StepBits(c)) == StepTwice(Square(c))
  {}

  lemma SquareStepBits(c: Word)
    ensures Square(StepBits(c)) == StepBits(StepBits(Square(c)))
  {
    StepTwiceIs(Square(c));
    SquareStepTwice(c);
  }

  lemma SquareStep(c: Word)
    ensures Square(Step(c)) == Step(Step(Square(c)))
  {
    StepIsStepBits(c);
    StepIsStepBits(Square(c));
    StepIsStepBits(Step(Square(c)));
    SquareStepBits(c);
  }

  lemma SquareOne()
    ensures Square(ONE) == ONE
  {
    var c := Square(ONE);
    assert c[0] && !c[1] && !c[2] && !c[3] && !c[4] && !c[5] && !c[6] && !c[7];
    assert !c[8] && !c[9] && !c[10] && !c[11] && !c[12] && !c[13] && !c[14] && !c[15];
  }

  lemma PowTwice(m: nat)
    ensures Pow(m + 2) == Step(Step(Pow(m)))
  {
    assert Pow(m + 1) == Step(Pow(m));
  }

  lemma {:induction false} PowSquare(n: nat)
    ensures Pow(2 * n) == Square(Pow(n))
  {
    if n > 0 {
      PowSquare(n - 1);
      PowSquareNext(n - 1);
    } else {
      SquareOne();
    }
  }

  lemma PowSquareNext(n: nat)
    requires Pow(2 * n) == Square(Pow(n))
    ensures Pow(2 * (n + 1)) == Square(Pow(n + 1))
  {
    SquareStep(Pow(n));
    PowTwice(2 * n);
  }

  lemma PowSquareStep(n: nat)
    ensures Pow(2 * n + 1) == StepBits(Square(Pow(n)))
  {
    PowSquare(n);
    StepIsStepBits(Square(Pow(n)));
  }

  lemma PowPeriod()
    ensures Pow(32767) == ONE
  {
    PowSquareStep(0); PowSquareStep(1); PowSquareStep(3); PowSquareStep(7); PowSquareStep(15);
    PowSquareStep(31); PowSquareStep(63); PowSquareStep(127); PowSquareStep(255); PowSquareStep(511);
    PowSquareStep(1023); PowSquareStep(2047); PowSquareStep(4095); PowSquareStep(8191); PowSquareStep(16383);
  }

  lemma Pow217()
    ensures Pow(217) != ONE
  {
    PowSquareStep(0); PowSquareStep(1); PowSquare(3); PowSquareStep(6); PowSquareStep(13); PowSquare(27);
    PowSquare(54); PowSquareStep(108);
  }

  lemma Pow1057()
    ensures Pow(1057) != ONE
  {
    PowSquareStep(0); PowSquare(1); PowSquare(2); PowSquare(4); PowSquare(8); PowSquareStep(16);
    PowSquare(33); PowSquare(66); PowSquare(132); PowSquare(264); PowSquareStep(528);
  }

  lemma Pow4681()
    ensures Pow(4681) != ONE
  {
    PowSquareStep(0); PowSquare(1); PowSquare(2); PowSquareStep(4); PowSquare(9); PowSquare(18);
    PowSquareStep(36); PowSquare(73); PowSquare(146); PowSquareStep(292); PowSquare(585); PowSquare(1170);
    PowSquareStep(2340);
  }

  // The least positive period divides every other period.
  lemma {:induction false} PeriodMultiple(o: nat, n: nat) returns (k: nat)
    requires o > 0 && Pow(o) == ONE && Pow(n) == ONE
    requires forall i :: 0 < i < o ==> Pow(i) != ONE
    ensures n == k * o
  {
    if n < o {
      k := 0;
    } else {
      StepsAdd(ONE, o, n - o);
      var j := PeriodMultiple(o, n - o);
      k := j + 1;
    }
  }

  lemma SevenAndThirtyOneArePrime(p: nat, i: nat)
    requires (p == 7 || p == 31) && 1 < i < p
    ensures p % i != 0
  {
    assert i == 2 || i == 3 || i == 4 || i == 5 || i == 6 || i == 7 || i == 8 || i == 9 || i == 10
        || i == 11 || i == 12 || i == 13 || i == 14 || i == 15 || i >= 16;
  }

  lemma ScaleRemainder(p: nat, i: nat, j: nat, m: int)
    requires 0 < i && i * j == p * m
    ensures (p % i) * j == p * (j - (p / i) * m)
  {
    var q, r := p / i, p % i;
    assert p == i * q + r;
    assert p * j == (i * q) * j + r * j;
    assert (i * q) * j == q * (i * j) == q * (p * m) == p * (q * m);
    assert p * (j - q * m) == p * j - p * (q * m);
  }

  // Euclid's lemma for the primes 7 and 31.
  lemma {:induction false} Euclid(p: nat, i: nat, j: nat, m: int)
    requires (p == 7 || p == 31) && 0 < i < p && i * j == p * m
    ensures j % p == 0
    decreases i
  {
    if i > 1 {
      SevenAndThirtyOneArePrime(p, i);
      ScaleRemainder(p, i, j, m);
      Euclid(p, p % i, j, j - (p / i) * m);
    }
  }

  lemma EuclidProduct(p: nat, a: nat, b: nat, c: nat)
    requires (p == 7 || p == 31) && a * b == p * c
    ensures a % p == 0 || b % p == 0
  {
    if a % p != 0 {
      var q, r := a / p, a % p;
      assert a == p * q + r;
      assert a * b == (p * q) * b + r * b;
      assert (p * q) * b == p * (q * b);
      assert r * b == p * (c - q * b);
      Euclid(p, r, b, c - q * b);
    }
  }

  lemma Prime151(k: nat, b: nat)
    requires k * b == 151
    ensures k == 1 || k == 151
  {
    if k > 12 && b > 12 {
      MulAtLeast(k - 12, b);
    } else if k <= 12 {
      assert k == 0 || k == 1 || k == 2 || k == 3 || k == 4 || k == 5 || k == 6
          || k == 7 || k == 8 || k == 9 || k == 10 || k == 11 || k == 12;
    } else {
      assert b == 0 || b == 1 || b == 2 || b == 3 || b == 4 || b == 5 || b == 6
          || b == 7 || b == 8 || b == 9 || b == 10 || b == 11 || b == 12;
    }
  }

  lemma {:induction false} PowMultiple(o: nat, m: nat)
    requires Pow(o) == ONE
    ensures Pow(m * o) == ONE
  {
    if m > 0 {
      PowMultiple(o, m - 1);
      StepsAdd(ONE, (m - 1) * o, o);
      assert (m - 1) * o + o == m * o;
    }
  }

  // 32767 == 7 * 31 * 151, and no proper divisor is a period.
  lemma ProperDivisorIsNoPeriod(o: nat, k: nat)
    requires k * o == 32767 && k > 1
    ensures Pow(o) != ONE
  {
    EuclidProduct(7, k, o, 4681);
    if k % 7 == 0 {
      ProductCancel(7, k / 7, o, 4681);
      if Pow(o) == ONE { PowMultiple(o, k / 7); Pow4681(); }
    } else {
      var a := o / 7;
      ProductCancel(7, a, k, 4681);
      EuclidProduct(31, k, a, 151);
      if k % 31 == 0 {
        var m := k / 31;
        ProductCancel(31, m, a, 151);
        assert m * o == 7 * (m * a);
        if Pow(o) == ONE { PowMultiple(o, m); Pow1057(); }
      } else {
        ProductCancel(31, a / 31, k, 151);
        Prime151(k, a / 31);
        Pow217();
      }
    }
  }

  lemma ProductCancel(p: nat, q: nat, b: nat, c: nat)
    requires p > 0 && (p * q) * b == p * c
    ensures q * b == c && b * q == c
  {
    assert p * (q * b) == p * c;
  }

  // x returns to one at 32767 and not before.
  lemma {:induction false} Order(d: nat)
    requires 0 < d < 32767
    ensures Pow(d) != ONE
  {
    if Pow(d) == ONE {
      var o := LeastPeriod(d, 1);
      PowPeriod();
      var k := PeriodMultiple(o, 32767);
      ProperDivisorIsNoPeriod(o, k);
    }
  }

  lemma {:induction false} LeastPeriod(d: nat, from: nat) returns (o: nat)
    requires 0 < from <= d && Pow(d) == ONE
    requires forall i :: 0 < i < from ==> Pow(i) != ONE
    ensures 0 < o <= d && Pow(o) == ONE
    ensures forall i :: 0 < i < o ==> Pow(i) != ONE
    decreases d - from
  {
    if Pow(from) == ONE {
      o := from;
    } else {
      o := LeastPeriod(d, from + 1);
    }
  }
}
