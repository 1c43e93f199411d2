/**
 The payload CRC of a LoRa frame and its two brute-force recovery tiers
 (`lora_crc16`, `lora_crc_bruteforce_correct`, `lora_crc_bruteforce_correct_2bit`
 and the tier order in `state_tick`).  A frame is the payload followed by a
 two-byte little-endian trailer.
 */
module LoraCrc {
  import opened Arithmetic
  import opened Bits
  import opened CrcPolynomial

  // A step for each bit of a byte.
  function ByteSteps(c: Word): Word {
    Steps(c, |ZERO_BYTE|)
  }

  function Crc16(data: seq<Byte>): Word {
    if data == [] then ZERO
    else ByteSteps(Xor(Crc16(data[..|data| - 1]), High(data[|data| - 1])))
  }

  // What the decoder compares with the trailer: CRC-16 of all but the last two
  // payload bytes, with those two XORed in raw.
  function Check(payload: seq<Byte>): Word
    requires |payload| >= 2
  {
    var n := |payload|;
    Xor(Xor(Crc16(payload[..n - 2]), Low(payload[n - 1])), High(payload[n - 2]))
  }

  // The payload read as a polynomial, most significant bit first, modulo the generator.
  function Remainder(payload: seq<Byte>): Word {
    if payload == [] then ZERO
    else Absorb(Remainder(payload[..|payload| - 1]), payload[|payload| - 1])
  }

  function Absorb(r: Word, b: Byte): Word {
    Xor(ByteSteps(r), Low(b))
  }

  function Payload(frame: seq<Byte>): seq<Byte>
    requires |frame| >= 2
  {
    frame[..|frame| - 2]
  }

  function Trailer(frame: seq<Byte>): Word
    requires |frame| >= 2
  {
    Xor(Low(frame[|frame| - 2]), High(frame[|frame| - 1]))
  }

  predicate Passes(frame: seq<Byte>)
    requires |frame| >= 4
  {
    Trailer(frame) == Check(Payload(frame))
  }

  function Mismatch(frame: seq<Byte>): Word
    requires |frame| >= 4
  {
    Xor(Check(Payload(frame)), Trailer(frame))
  }

  // The frame with bit `k` inverted; bit k is bit k % 8 of byte k / 8.
  function Flip(frame: seq<Byte>, k: nat): (r: seq<Byte>)
    requires k < 8 * |frame|
    ensures |r| == |frame|
  {
    frame[k / 8 := Xor(frame[k / 8], Mask(k % 8))]
  }

  // The power of x that payload bit `k` stands for in a payload of `n` bytes.
  function Exponent(n: nat, k: nat): nat
    requires k < 8 * n
  {
    8 * (n - 1 - k / 8) + k % 8
  }

  predicate Repairs(frame: seq<Byte>, k: nat)
    requires |frame| >= 4
  {
    k < 8 * (|frame| - 2) && Passes(Flip(frame, k))
  }

  predicate RepairsPair(frame: seq<Byte>, i: nat, j: nat)
    requires |frame| >= 4
  {
    i < 8 * (|frame| - 2) && j < 8 * (|frame| - 2) && i != j && Passes(Flip(Flip(frame, i), j))
  }

  // ---- The check value is a polynomial remainder ----

  lemma ByteIsPower(m: nat)
    requires m < 8
    ensures Low(Mask(m)) == Pow(m)
    ensures High(Mask(m)) == Pow(8 + m)
  {
    PowSmall(m);
    PowSmall(8 + m);
    forall i | 0 <= i < 16
      ensures Low(Mask(m))[i] == ZERO[m := true][i] && High(Mask(m))[i] == ZERO[8 + m := true][i]
    {
      NoBits(i);
    }
  }

  lemma NoBits(i: nat)
    requires i < 16
    ensures !ZERO[i] && (i < 8 ==> !ZERO_BYTE[i]) && (i >= 8 ==> !ZERO_BYTE[i - 8])
  {}

  // Powers below sixteen are single bits: nothing is reduced yet.
  lemma {:induction false} PowSmall(e: nat)
    requires e < 16
    ensures Pow(e) == ZERO[e := true]
  {
    if e > 0 {
      PowSmall(e - 1);
      assert Shift(ZERO[e - 1 := true]) == ZERO[e := true];
    }
  }

  // A byte n places up in a word.
  function Placed(b: Byte, n: nat): Word {
    seq(16, i requires 0 <= i < 16 => n <= i < n + 8 && b[i - n])
  }

  lemma {:induction false} StepsLow(b: Byte, n: nat)
    requires n <= 8
    ensures Steps(Low(b), n) == Placed(b, n)
  {
    if n == 0 {
      assert Low(b) == Placed(b, 0);
    } else {
      StepsLow(b, n - 1);
      var before := Placed(b, n - 1);
      assert !before[15];
      forall i | 0 <= i < 16
        ensures Shift(before)[i] == Placed(b, n)[i]
      {
        assert i > 0 ==> Shift(before)[i] == before[i - 1];
      }
      assert Shift(before) == Placed(b, n);
    }
  }

  lemma LowToHigh(b: Byte)
    ensures ByteSteps(Low(b)) == High(b)
  {
    StepsLow(b, |ZERO_BYTE|);
    assert Placed(b, |ZERO_BYTE|) == High(b);
  }

  lemma ByteStepsLinear(a: Word, b: Word)
    ensures ByteSteps(Xor(a, b)) == Xor(ByteSteps(a), ByteSteps(b))
  {
    StepsLinear(a, b, |ZERO_BYTE|);
  }

  lemma ByteStepsPow(e: nat)
    ensures ByteSteps(Pow(e)) == Pow(e + 8)
  {
    StepsAdd(ONE, e, |ZERO_BYTE|);
  }

  lemma ByteStepsZero()
    ensures ByteSteps(ZERO) == ZERO
  {
    ZeroSteps(|ZERO_BYTE|);
  }

  lemma {:induction false} CrcIsShiftedRemainder(data: seq<Byte>)
    ensures Crc16(data) == ByteSteps(ByteSteps(Remainder(data)))
  {
    if data == [] {
      ByteStepsZero();
    } else {
      var init, b := data[..|data| - 1], data[|data| - 1];
      CrcIsShiftedRemainder(init);
      LowToHigh(b);
      ByteStepsLinear(ByteSteps(Remainder(init)), Low(b));
      assert Xor(Crc16(init), High(b)) == ByteSteps(Remainder(data));
    }
  }

  lemma {:induction false} ZeroSteps(n: nat)
    ensures Steps(ZERO, n) == ZERO
  {
    if n > 0 {
      ZeroSteps(n - 1);
    }
  }

  lemma XorSwap(a: Word, b: Word, c: Word)
    ensures Xor(Xor(a, b), c) == Xor(Xor(a, c), b)
  {}

  lemma CheckIsRemainder(payload: seq<Byte>)
    requires |payload| >= 2
    ensures Check(payload) == Remainder(payload)
  {
    var n := |payload|;
    var data, hi, lo := payload[..n - 2], payload[n - 2], payload[n - 1];
    assert payload[..n - 1][..n - 2] == data;
    assert ByteSteps(Remainder(payload[..n - 1])) == Xor(Crc16(data), High(hi)) by {
      CrcIsShiftedRemainder(data);
      LowToHigh(hi);
      ByteStepsLinear(ByteSteps(Remainder(data)), Low(hi));
    }
    XorSwap(Crc16(data), High(hi), Low(lo));
  }

  lemma TrailerBit(frame: seq<Byte>, j: nat)
    requires |frame| >= 2 && j < 16
    ensures Trailer(frame)[j] == frame[|frame| - 2 + j / 8][j % 8]
  {
    if j >= 8 {
      assert j / 8 == 1 && j % 8 == j - 8;
    }
  }

  // A frame passes exactly when the payload's remainder follows it, low byte first.
  lemma PassesByBits(frame: seq<Byte>)
    requires |frame| >= 4
    ensures Passes(frame) <==> forall j :: 0 <= j < 16 ==>
      Remainder(Payload(frame))[j] == frame[|frame| - 2 + j / 8][j % 8]
  {
    CheckIsRemainder(Payload(frame));
    forall j | 0 <= j < 16
      ensures Trailer(frame)[j] == frame[|frame| - 2 + j / 8][j % 8]
    {
      TrailerBit(frame, j);
    }
  }

  // Inverting a payload bit adds one power of x to the remainder, whatever else is in the payload.
  lemma {:induction false} FlipRemainder(p: seq<Byte>, k: nat)
    requires k < 8 * |p|
    ensures Remainder(Flip(p, k)) == Xor(Remainder(p), Pow(Exponent(|p|, k)))
  {
    if k / 8 == |p| - 1 {
      FlipLast(p, k);
    } else {
      FlipRemainder(p[..|p| - 1], k);
      FlipEarlier(p, k);
    }
  }

  lemma AbsorbFlip(r: Word, b: Byte, m: nat)
    requires m < 8
    ensures Absorb(r, Xor(b, Mask(m))) == Xor(Absorb(r, b), Pow(m))
  {
    ByteIsPower(m);
    assert Low(Xor(b, Mask(m))) == Xor(Low(b), Low(Mask(m)));
    XorAssociative(ByteSteps(r), Low(b), Pow(m));
  }

  lemma AbsorbLinear(r: Word, d: Word, b: Byte)
    ensures Absorb(Xor(r, d), b) == Xor(Absorb(r, b), ByteSteps(d))
  {
    ByteStepsLinear(r, d);
    XorSwap(ByteSteps(r), ByteSteps(d), Low(b));
  }

  lemma FlipLast(p: seq<Byte>, k: nat)
    requires k < 8 * |p| && k / 8 == |p| - 1
    ensures Remainder(Flip(p, k)) == Xor(Remainder(p), Pow(Exponent(|p|, k)))
  {
    var n := |p|;
    assert Flip(p, k)[..n - 1] == p[..n - 1] && Flip(p, k)[n - 1] == Xor(p[n - 1], Mask(k % 8));
    assert Exponent(n, k) == k % 8;
    AbsorbFlip(Remainder(p[..n - 1]), p[n - 1], k % 8);
  }

  lemma FlipInPrefix(p: seq<Byte>, k: nat)
    requires k < 8 * |p| && k / 8 < |p| - 1
    ensures Flip(p, k)[..|p| - 1] == Flip(p[..|p| - 1], k) && Flip(p, k)[|p| - 1] == p[|p| - 1]
    ensures Exponent(|p|, k) == Exponent(|p| - 1, k) + 8
  {}

  lemma FlipEarlier(p: seq<Byte>, k: nat)
    requires k < 8 * |p| && k / 8 < |p| - 1
    requires var init := p[..|p| - 1]; Remainder(Flip(init, k)) == Xor(Remainder(init), Pow(Exponent(|p| - 1, k)))
    ensures Remainder(Flip(p, k)) == Xor(Remainder(p), Pow(Exponent(|p|, k)))
  {
    FlipInPrefix(p, k);
    LastByteKept(p, Flip(p, k), Exponent(|p| - 1, k));
  }

  // What a difference in the bytes before contributes after one byte more.
  lemma LastByteKept(p: seq<Byte>, q: seq<Byte>, e: nat)
    requires |p| == |q| > 0 && p[|p| - 1] == q[|p| - 1]
    requires Remainder(q[..|p| - 1]) == Xor(Remainder(p[..|p| - 1]), Pow(e))
    ensures Remainder(q) == Xor(Remainder(p), Pow(e + 8))
  {
    ByteStepsPow(e);
    AbsorbLinear(Remainder(p[..|p| - 1]), Pow(e), p[|p| - 1]);
  }

  // ---- When one flip, or two, repair a frame ----

  lemma FlipMismatch(frame: seq<Byte>, k: nat)
    requires |frame| >= 4 && k < 8 * (|frame| - 2)
    ensures Payload(Flip(frame, k)) == Flip(Payload(frame), k)
    ensures Trailer(Flip(frame, k)) == Trailer(frame)
    ensures Mismatch(Flip(frame, k)) == Xor(Mismatch(frame), Pow(Exponent(|frame| - 2, k)))
  {
    var p, t := Payload(frame), Trailer(frame);
    assert Payload(Flip(frame, k)) == Flip(p, k);
    CheckIsRemainder(p);
    CheckIsRemainder(Flip(p, k));
    FlipRemainder(p, k);
    XorSwap(Remainder(p), Pow(Exponent(|p|, k)), t);
  }

  lemma PassesIff(frame: seq<Byte>)
    requires |frame| >= 4
    ensures Passes(frame) <==> Mismatch(frame) == ZERO
  {
    var c, t := Check(Payload(frame)), Trailer(frame);
    XorZero(c, t);
  }

  lemma XorZero(a: Word, b: Word)
    ensures Xor(a, b) == ZERO <==> a == b
  {
    if Xor(a, b) == ZERO {
      forall i | 0 <= i < 16
        ensures a[i] == b[i]
      {
        assert Xor(a, b)[i] == ZERO[i];
      }
    }
  }

  lemma RepairsIff(frame: seq<Byte>, k: nat)
    requires |frame| >= 4 && k < 8 * (|frame| - 2)
    ensures Repairs(frame, k) <==> Mismatch(frame) == Pow(Exponent(|frame| - 2, k))
  {
    FlipMismatch(frame, k);
    PassesIff(Flip(frame, k));
    XorZero(Mismatch(frame), Pow(Exponent(|frame| - 2, k)));
  }

  lemma RepairsPairIff(frame: seq<Byte>, i: nat, j: nat)
    requires |frame| >= 4 && i < 8 * (|frame| - 2) && j < 8 * (|frame| - 2) && i != j
    ensures RepairsPair(frame, i, j)
       <==> Xor(Pow(Exponent(|frame| - 2, i)), Mismatch(frame)) == Pow(Exponent(|frame| - 2, j))
  {
    FlipMismatch(frame, i);
    RepairsIff(Flip(frame, i), j);
    XorLaws(Mismatch(frame), Pow(Exponent(|frame| - 2, i)));
  }

  // A frame that one flip repairs has an odd mismatch, one that two flips repair an
  // even one.  The order of the two recovery tiers therefore cannot matter.
  lemma TiersExclusive(frame: seq<Byte>, k: nat, i: nat, j: nat)
    requires |frame| >= 4
    ensures !(Repairs(frame, k) && RepairsPair(frame, i, j))
  {
    if Repairs(frame, k) && RepairsPair(frame, i, j) {
      var n, m := |frame| - 2, Mismatch(frame);
      RepairsIff(frame, k);
      RepairsPairIff(frame, i, j);
      PowParity(Exponent(n, k));
      PowParity(Exponent(n, i));
      PowParity(Exponent(n, j));
      OddXor(Pow(Exponent(n, i)), m);
      assert false;
    }
  }

  // ---- Which frames the one-bit search restores ----

  lemma ExponentInjective(n: nat, i: nat, j: nat)
    requires i < 8 * n && j < 8 * n && Exponent(n, i) == Exponent(n, j)
    ensures i == j
  {}

  // The least bit whose flip repairs the frame, or the number of payload bits.
  function FirstRepair(frame: seq<Byte>): (k: nat)
    requires |frame| >= 4
    ensures k <= 8 * (|frame| - 2) && (k < 8 * (|frame| - 2) ==> Repairs(frame, k))
    ensures forall j :: 0 <= j < k ==> !Repairs(frame, j)
  {
    var p := (k: nat) => Repairs(frame, k);
    assert forall j: nat :: p(j) == Repairs(frame, j);
    Least(p, 0, 8 * (|frame| - 2))
  }

  // What the one-bit search leaves in the buffer.
  function OneBitResult(frame: seq<Byte>): (r: seq<Byte>)
    ensures |r| == |frame|
  {
    if |frame| < 4 then frame
    else
      var k := FirstRepair(frame);
      if k == 8 * (|frame| - 2) then frame else Flip(frame, k)
  }

  lemma FlipTwice(frame: seq<Byte>, k: nat)
    requires k < 8 * |frame|
    ensures Flip(Flip(frame, k), k) == frame
  {
    XorLaws(frame[k / 8], Mask(k % 8));
  }

  // After bit k of a good frame is inverted, the bits that repair it are those
  // standing for the same power of x as k.
  lemma RepairsAfterFlip(frame: seq<Byte>, k: nat, j: nat)
    requires |frame| >= 4 && Passes(frame)
    requires k < 8 * (|frame| - 2) && j < 8 * (|frame| - 2)
    ensures Repairs(Flip(frame, k), j)
       <==> Pow(Exponent(|frame| - 2, k)) == Pow(Exponent(|frame| - 2, j))
  {
    var e := Pow(Exponent(|frame| - 2, k));
    PassesIff(frame);
    FlipMismatch(frame, k);
    RepairsIff(Flip(frame, k), j);
    assert Xor(ZERO, e) == e;
  }

  // A payload of up to 4095 bytes (32760 bits) never has two bits with the same effect.
  lemma DistinctPowers(n: nat, i: nat, j: nat)
    requires n <= 4095 && i < 8 * n && j < 8 * n && i != j
    ensures Pow(Exponent(n, i)) != Pow(Exponent(n, j))
  {
    var a, b := Exponent(n, i), Exponent(n, j);
    if Pow(a) == Pow(b) {
      if a == b {
        ExponentInjective(n, i, j);
      } else if a < b {
        PowEqual(a, b);
        Order(b - a);
      } else {
        PowEqual(b, a);
        Order(a - b);
      }
    }
  }

  lemma OneBitRestores(frame: seq<Byte>, k: nat)
    requires 4 <= |frame| <= 4097 && Passes(frame) && k < 8 * (|frame| - 2)
    ensures OneBitResult(Flip(frame, k)) == frame
  {
    RepairsAfterFlip(frame, k, k);
    var j := FirstRepair(Flip(frame, k));
    assert j <= k;
    RepairsAfterFlip(frame, k, j);
    if j != k {
      DistinctPowers(|frame| - 2, k, j);
    }
    FlipTwice(frame, k);
  }

  // Beyond 4095 payload bytes the last bit of a good frame is never restored: the
  // bit 32767 powers of x above it is found first.
  lemma OneBitMisrepairs(frame: seq<Byte>)
    requires |frame| > 4097 && Passes(frame)
    ensures OneBitResult(Flip(frame, 8 * (|frame| - 3))) != frame
  {
    var n := |frame| - 2;
    var k, j := 8 * (n - 1), 8 * (n - 1 - 4095) + 7;
    assert Exponent(n, k) == 0 && Exponent(n, j) == 32767;
    PowPeriod();
    RepairsAfterFlip(frame, k, j);
    var f := FirstRepair(Flip(frame, k));
    assert f <= j < k;
    assert Flip(Flip(frame, k), f)[n - 1] == Flip(frame, k)[n - 1] == Xor(frame[n - 1], Mask(0));
    assert Xor(frame[n - 1], Mask(0))[0] != frame[n - 1][0];
  }

  // The one-bit search undoes every single-bit error of a frame length exactly
  // when the payload has at most 4095 bytes.
  lemma OneBitRestoresIff(frame: seq<Byte>)
    requires |frame| >= 4 && Passes(frame)
    ensures (forall k :: 0 <= k < 8 * (|frame| - 2) ==> OneBitResult(Flip(frame, k)) == frame)
       <==> |frame| - 2 <= 4095
  {
    if |frame| - 2 <= 4095 {
      forall k | 0 <= k < 8 * (|frame| - 2)
        ensures OneBitResult(Flip(frame, k)) == frame
      {
        OneBitRestores(frame, k);
      }
    } else {
      OneBitMisrepairs(frame);
    }
  }

  // ---- Which frames the two-bit search restores ----

  // The least bit whose flip repairs the frame together with that of bit i.
  function Partner(frame: seq<Byte>, i: nat): (j: nat)
    requires |frame| >= 4
    ensures j <= 8 * (|frame| - 2) && (j < 8 * (|frame| - 2) ==> RepairsPair(frame, i, j))
    ensures forall q :: 0 <= q < j ==> !RepairsPair(frame, i, q)
  {
    var p := (j: nat) => RepairsPair(frame, i, j);
    assert forall j: nat :: p(j) == RepairsPair(frame, i, j);
    Least(p, 0, 8 * (|frame| - 2))
  }

  // The least bit that has a partner, or the number of payload bits.
  function FirstPaired(frame: seq<Byte>): (i: nat)
    requires |frame| >= 4
    ensures i <= 8 * (|frame| - 2) && (i < 8 * (|frame| - 2) ==> Partner(frame, i) < 8 * (|frame| - 2))
    ensures forall k :: 0 <= k < i ==> Partner(frame, k) == 8 * (|frame| - 2)
  {
    var p := (i: nat) => Partner(frame, i) < 8 * (|frame| - 2);
    assert forall i: nat :: p(i) <==> Partner(frame, i) < 8 * (|frame| - 2);
    Least(p, 0, 8 * (|frame| - 2))
  }

  // What the two-bit search leaves in the buffer.
  function TwoBitResult(frame: seq<Byte>): (r: seq<Byte>)
    ensures |r| == |frame|
  {
    if |frame| < 4 || Passes(frame) then frame
    else
      var i := FirstPaired(frame);
      if i == 8 * (|frame| - 2) then frame else Flip(Flip(frame, i), Partner(frame, i))
  }

  lemma FirstPairedIs(frame: seq<Byte>, i: nat, j: nat)
    requires |frame| >= 4 && RepairsPair(frame, i, j)
    requires forall q: nat :: q < j ==> !RepairsPair(frame, i, q)
    requires forall p: nat, q: nat :: p < i ==> !RepairsPair(frame, p, q)
    ensures FirstPaired(frame) == i && Partner(frame, i) == j
  {
    assert Partner(frame, i) == j;
    forall p | 0 <= p < i
      ensures Partner(frame, p) == 8 * (|frame| - 2)
    {}
  }

  // Payload bit k.
  function BitAt(frame: seq<Byte>, k: nat): bool
    requires k < 8 * |frame|
  {
    frame[k / 8][k % 8]
  }

  lemma FlipBit(frame: seq<Byte>, k: nat, m: nat)
    requires k < 8 * |frame| && m < 8 * |frame|
    ensures BitAt(Flip(frame, k), m) == (BitAt(frame, m) != (k == m))
  {}

  lemma FlipSwap(frame: seq<Byte>, i: nat, j: nat)
    requires i < 8 * |frame| && j < 8 * |frame|
    ensures Flip(Flip(frame, i), j) == Flip(Flip(frame, j), i)
  {
    var a, b := Flip(Flip(frame, i), j), Flip(Flip(frame, j), i);
    forall m | 0 <= m < |frame|
      ensures a[m] == b[m]
    {
      if i / 8 == j / 8 == m {
        XorAssociative(frame[m], Mask(i % 8), Mask(j % 8));
        XorAssociative(frame[m], Mask(j % 8), Mask(i % 8));
        XorLaws(Mask(i % 8), Mask(j % 8));
      }
    }
  }

  // The effect of inverting payload bit k of n bytes on the check.
  function Effect(n: nat, k: nat): Word
    requires k < 8 * n
  {
    Pow(Exponent(n, k))
  }

  lemma TwoFlipsMismatch(frame: seq<Byte>, a: nat, b: nat)
    requires |frame| >= 4 && Passes(frame) && a < 8 * (|frame| - 2) && b < 8 * (|frame| - 2)
    ensures Mismatch(Flip(Flip(frame, a), b)) == Xor(Effect(|frame| - 2, a), Effect(|frame| - 2, b))
  {
    PassesIff(frame);
    FlipMismatch(frame, a);
    FlipMismatch(Flip(frame, a), b);
    assert Xor(ZERO, Effect(|frame| - 2, a)) == Effect(|frame| - 2, a);
  }

  // After bits a and b of a good frame are inverted, the pairs that repair it are those
  // with the same joint effect.
  lemma RepairsAfterTwo(frame: seq<Byte>, a: nat, b: nat, i: nat, j: nat)
    requires |frame| >= 4 && Passes(frame) && a < 8 * (|frame| - 2) && b < 8 * (|frame| - 2)
    requires i < 8 * (|frame| - 2) && j < 8 * (|frame| - 2) && i != j
    ensures var n := |frame| - 2;
      RepairsPair(Flip(Flip(frame, a), b), i, j)
      <==> Xor(Effect(n, i), Effect(n, j)) == Xor(Effect(n, a), Effect(n, b))
  {
    var n := |frame| - 2;
    TwoFlipsMismatch(frame, a, b);
    RepairsPairIff(Flip(Flip(frame, a), b), i, j);
    XorMove(Effect(n, i), Effect(n, j), Xor(Effect(n, a), Effect(n, b)));
  }

  lemma XorMove(a: Word, b: Word, m: Word)
    ensures Xor(a, m) == b <==> Xor(a, b) == m
  {
    XorLaws(a, m);
    XorLaws(a, b);
  }

  // No pair with an earlier bit has the joint effect of a and b, no bit before b has the
  // effect of b, and the effects of a and b do not cancel.  This is a matter of the two
  // positions and the payload's length alone.
  predicate Restorable(n: nat, a: nat, b: nat)
    requires a < b < 8 * n
  {
    && Effect(n, a) != Effect(n, b)
    && (forall j :: 0 <= j < b ==> Effect(n, j) != Effect(n, b))
    && (forall i, j :: 0 <= i < a && 0 <= j < 8 * n ==>
        Xor(Effect(n, i), Effect(n, j)) != Xor(Effect(n, a), Effect(n, b)))
  }

  lemma XorSame(a: Word, b: Word, c: Word)
    requires Xor(a, b) == Xor(a, c)
    ensures b == c
  {
    XorLaws(a, b);
    XorLaws(a, c);
  }

  lemma TwoBitRestores(frame: seq<Byte>, a: nat, b: nat)
    requires |frame| >= 4 && Passes(frame) && a < b < 8 * (|frame| - 2) && Restorable(|frame| - 2, a, b)
    ensures TwoBitResult(Flip(Flip(frame, a), b)) == frame
  {
    var n, bad := |frame| - 2, Flip(Flip(frame, a), b);
    TwoFlipsMismatch(frame, a, b);
    XorZero(Effect(n, a), Effect(n, b));
    PassesIff(bad);
    RepairsAfterTwo(frame, a, b, a, b);
    forall q: nat | q < b
      ensures !RepairsPair(bad, a, q)
    {
      if RepairsPair(bad, a, q) {
        RepairsAfterTwo(frame, a, b, a, q);
        XorSame(Effect(n, a), Effect(n, q), Effect(n, b));
      }
    }
    forall p: nat, q: nat | p < a
      ensures !RepairsPair(bad, p, q)
    {
      if RepairsPair(bad, p, q) {
        RepairsAfterTwo(frame, a, b, p, q);
      }
    }
    FirstPairedIs(bad, a, b);
    FlipSwap(Flip(frame, a), b, a);
    FlipTwice(frame, a);
    FlipTwice(frame, b);
  }

  // A repair that begins with neither of the two bits does not restore the frame.
  lemma OtherRepair(frame: seq<Byte>, a: nat, b: nat, i: nat, j: nat)
    requires a < 8 * |frame| && b < 8 * |frame| && i < 8 * |frame| && j < 8 * |frame|
    requires i != a && i != b && i != j
    ensures Flip(Flip(Flip(Flip(frame, a), b), i), j) != frame
  {
    FlipBit(frame, a, i);
    FlipBit(Flip(frame, a), b, i);
    FlipBit(Flip(Flip(frame, a), b), i, i);
    FlipBit(Flip(Flip(Flip(frame, a), b), i), j, i);
  }

  // An earlier pair with the same joint effect is found instead.
  lemma EarlierPairFound(frame: seq<Byte>, a: nat, b: nat, i: nat, j: nat)
    requires |frame| >= 4 && Passes(frame) && a < b < 8 * (|frame| - 2)
    requires i < a && j < 8 * (|frame| - 2)
    requires var n := |frame| - 2; Xor(Effect(n, i), Effect(n, j)) == Xor(Effect(n, a), Effect(n, b))
    ensures TwoBitResult(Flip(Flip(frame, a), b)) != frame
  {
    var n, bad := |frame| - 2, Flip(Flip(frame, a), b);
    TwoFlipsMismatch(frame, a, b);
    PassesIff(bad);
    if Passes(bad) {
      FlipBit(frame, a, a);
      FlipBit(Flip(frame, a), b, a);
    } else {
      XorZero(Effect(n, i), Effect(n, j));
      RepairsAfterTwo(frame, a, b, i, j);
      assert Partner(bad, i) <= j;
      OtherRepair(frame, a, b, FirstPaired(bad), Partner(bad, FirstPaired(bad)));
    }
  }

  // An earlier bit with the effect of b is flipped instead.
  lemma EarlierPartnerFound(frame: seq<Byte>, a: nat, b: nat, j: nat)
    requires |frame| >= 4 && Passes(frame) && a < b < 8 * (|frame| - 2)
    requires var n := |frame| - 2; j < b && Effect(n, j) == Effect(n, b)
    ensures TwoBitResult(Flip(Flip(frame, a), b)) != frame
  {
    var n, bad := |frame| - 2, Flip(Flip(frame, a), b);
    TwoFlipsMismatch(frame, a, b);
    PassesIff(bad);
    if Passes(bad) {
      FlipBit(frame, a, a);
      FlipBit(Flip(frame, a), b, a);
    } else {
      XorZero(Effect(n, a), Effect(n, b));
      RepairsAfterTwo(frame, a, b, a, j);
      var f := FirstPaired(bad);
      assert Partner(bad, a) <= j && f <= a;
      var g := Partner(bad, f);
      if f == a {
        NotBoth(frame, a, b, g);
      } else {
        OtherRepair(frame, a, b, f, g);
      }
    }
  }

  // With a different second bit than b, b stays inverted.
  lemma NotBoth(frame: seq<Byte>, a: nat, b: nat, g: nat)
    requires a < 8 * |frame| && b < 8 * |frame| && g < 8 * |frame| && a != b && g != b
    ensures Flip(Flip(Flip(Flip(frame, a), b), a), g) != frame
  {
    FlipBit(frame, a, b);
    FlipBit(Flip(frame, a), b, b);
    FlipBit(Flip(Flip(frame, a), b), a, b);
    FlipBit(Flip(Flip(Flip(frame, a), b), a), g, b);
  }

  // Exactly which two-bit errors the two-bit search undoes, for frames of any length.
  lemma TwoBitRestoresIff(frame: seq<Byte>, a: nat, b: nat)
    requires |frame| >= 4 && Passes(frame) && a < b < 8 * (|frame| - 2)
    ensures TwoBitResult(Flip(Flip(frame, a), b)) == frame <==> Restorable(|frame| - 2, a, b)
  {
    var n := |frame| - 2;
    if Restorable(n, a, b) {
      TwoBitRestores(frame, a, b);
    } else if j :| 0 <= j < b && Effect(n, j) == Effect(n, b) {
      EarlierPartnerFound(frame, a, b, j);
    } else if i, j :| 0 <= i < a && 0 <= j < 8 * n
                      && Xor(Effect(n, i), Effect(n, j)) == Xor(Effect(n, a), Effect(n, b)) {
      EarlierPairFound(frame, a, b, i, j);
    }
  }

  // In two bytes every bit of the payload is a bit of the check value.
  lemma TwoBytesRestorable(a: nat, b: nat)
    requires a < b < 16
    ensures Restorable(2, a, b)
  {
    forall j | 0 <= j < b
      ensures Effect(2, j) != Effect(2, b)
    {
      DistinctPowers(2, j, b);
    }
    forall i, j | 0 <= i < a && 0 <= j < 16
      ensures Xor(Effect(2, i), Effect(2, j)) != Xor(Effect(2, a), Effect(2, b))
    {
      SingleBits(i, j, a, b);
    }
  }

  lemma SingleBits(i: nat, j: nat, a: nat, b: nat)
    requires i < a < b < 16 && j < 16
    ensures Xor(Effect(2, i), Effect(2, j)) != Xor(Effect(2, a), Effect(2, b))
  {
    EffectIsUnit(i, 2);
    EffectIsUnit(j, 2);
    EffectIsUnit(a, 2);
    EffectIsUnit(b, 2);
    UnitPairs(Effect(2, i), Effect(2, j), Effect(2, a), Effect(2, b), i, j, a, b);
  }

  // Where bit k of two bytes is in the check value: the first byte is the high one.
  function Place(k: nat): nat {
    if k < 8 then k + 8 else k - 8
  }

  // A word with bit e alone.
  predicate IsUnit(w: Word, e: nat) {
    forall i :: 0 <= i < 16 ==> w[i] == (i == e)
  }

  lemma EffectIsUnit(k: nat, n: nat)
    requires k < 16 && n == 2
    ensures IsUnit(Effect(n, k), Place(k))
  {
    assert Exponent(n, k) == Place(k);
    PowIsUnit(Place(k));
  }

  lemma PowIsUnit(e: nat)
    requires e < 16
    ensures IsUnit(Pow(e), e)
  {
    PowSmall(e);
    forall i: nat | i < 16
      ensures Pow(e)[i] == (i == e)
    {
      NoBits(i);
    }
  }

  lemma UnitPairs(p: Word, q: Word, r: Word, s: Word, i: nat, j: nat, a: nat, b: nat)
    requires i < a < b < 16 && j < 16
    requires IsUnit(p, Place(i)) && IsUnit(q, Place(j)) && IsUnit(r, Place(a)) && IsUnit(s, Place(b))
    ensures Xor(p, q) != Xor(r, s)
  {
    var at := Place(if i == j then a else i);
    assert Xor(p, q)[at] != Xor(r, s)[at];
  }

  // x^16 + x^12 is x^5 + 1, so from three bytes on two bits of the last byte are
  // mistaken for two earlier ones.
  lemma GeneratorRelation()
    ensures Xor(Pow(16), Pow(12)) == Xor(Pow(0), Pow(5))
  {
    PowIsUnit(0);
    PowIsUnit(5);
    PowIsUnit(12);
    PowIsUnit(15);
    TopStep(Pow(15), Pow(16));
    TapsAgree(Pow(16), Pow(12), Pow(0), Pow(5));
  }

  // x^16 reduced: the bits of the generator below x^16.
  predicate IsTaps(w: Word) {
    forall i :: 0 <= i < 16 ==> w[i] == (i == 0 || i == 5 || i == 12)
  }

  lemma TopStep(u: Word, w: Word)
    requires IsUnit(u, 15) && w == Step(u)
    ensures IsTaps(w)
  {
    StepIsStepBits(u);
    forall i | 0 <= i < 16
      ensures w[i] == (i == 0 || i == 5 || i == 12)
    {
      assert w[i] == StepBits(u)[i];
    }
  }

  lemma TapsAgree(w: Word, p: Word, q: Word, r: Word)
    requires IsTaps(w) && IsUnit(p, 12) && IsUnit(q, 0) && IsUnit(r, 5)
    ensures Xor(w, p) == Xor(q, r)
  {
    forall i | 0 <= i < 16
      ensures Xor(w, p)[i] == Xor(q, r)[i]
    {}
  }

  lemma TwoBitMisrepairs(frame: seq<Byte>)
    requires |frame| >= 5 && Passes(frame)
    ensures var k := 8 * (|frame| - 3); TwoBitResult(Flip(Flip(frame, k), k + 5)) != frame
  {
    var n := |frame| - 2;
    SameEffect(n);
    EarlierPairFound(frame, 8 * (n - 1), 8 * (n - 1) + 5, 8 * (n - 3), 8 * (n - 2) + 4);
  }

  lemma SameEffect(n: nat)
    requires n >= 3
    ensures Xor(Effect(n, 8 * (n - 3)), Effect(n, 8 * (n - 2) + 4))
         == Xor(Effect(n, 8 * (n - 1)), Effect(n, 8 * (n - 1) + 5))
  {
    GeneratorRelation();
    assert Exponent(n, 8 * (n - 3)) == 16;
    assert Exponent(n, 8 * (n - 2) + 4) == 12;
    assert Exponent(n, 8 * (n - 1)) == 0;
    assert Exponent(n, 8 * (n - 1) + 5) == 5;
  }

  // The two-bit search undoes every two-bit error of a good frame exactly when the
  // payload has two bytes.
  lemma EveryTwoBitRestoredIff(frame: seq<Byte>)
    requires |frame| >= 4 && Passes(frame)
    ensures (forall a, b :: 0 <= a < b < 8 * (|frame| - 2) ==> TwoBitResult(Flip(Flip(frame, a), b)) == frame)
       <==> |frame| - 2 == 2
  {
    if |frame| == 4 {
      forall a, b | 0 <= a < b < 8 * (|frame| - 2)
        ensures TwoBitResult(Flip(Flip(frame, a), b)) == frame
      {
        TwoBytesRestorable(a, b);
        TwoBitRestores(frame, a, b);
      }
    } else {
      TwoBitMisrepairs(frame);
      var k := 8 * (|frame| - 3);
      assert 0 <= k < k + 5 < 8 * (|frame| - 2);
    }
  }

  // ---- The searches ----

  // The inner loop of `lora_crc16`, also used to build the delta table.
  method ByteStep(s: Word) returns (r: Word)
    ensures r == ByteSteps(s)
  {
    r := s;
    for step := 0 to 8
      invariant r == Steps(s, step)
    {
      r := Step(r);
    }
  }

  method ComputeCrc16(data: seq<Byte>) returns (crc: Word)
    ensures crc == Crc16(data)
  {
    crc := ZERO;
    for i := 0 to |data|
      invariant crc == Crc16(data[..i])
    {
      crc := Xor(crc, High(data[i]));
      crc := ByteStep(crc);
      assert data[..i + 1][..i] == data[..i];
    }
    assert data[..|data|] == data;
  }

  method ComputeCheck(bytes: array<Byte>) returns (want: Word)
    requires bytes.Length >= 4
    ensures want == Check(Payload(bytes[..]))
  {
    var payLen := bytes.Length - 2;
    want := ComputeCrc16(bytes[..payLen - 2]);
    want := Xor(want, Low(bytes[payLen - 1]));
    want := Xor(want, High(bytes[payLen - 2]));
    assert Payload(bytes[..])[..payLen - 2] == bytes[..payLen - 2];
  }

  // Invert bit `k` of the buffer in place.
  method FlipInPlace(bytes: array<Byte>, k: nat)
    requires k < 8 * bytes.Length
    modifies bytes
    ensures bytes[..] == Flip(old(bytes[..]), k)
  {
    bytes[k / 8] := Xor(bytes[k / 8], Mask(k % 8));
  }

  // lora_crc_bruteforce_correct
  method BruteForceOne(bytes: array<Byte>) returns (ok: bool)
    modifies bytes
    ensures bytes[..] == OneBitResult(old(bytes[..]))
    ensures ok <==> |old(bytes[..])| >= 4 && exists k: nat :: Repairs(old(bytes[..]), k)
    ensures ok ==> Passes(bytes[..])
  {
    ghost var frame := bytes[..];
    if bytes.Length < 4 { return false; }
    var got := Xor(Low(bytes[bytes.Length - 2]), High(bytes[bytes.Length - 1]));
    var bits := (bytes.Length - 2) * 8;
    var bit := 0;
    while bit < bits
      invariant 0 <= bit <= bits
      invariant bytes[..] == frame
      invariant forall k :: 0 <= k < bit ==> !Repairs(frame, k)
    {
      var fits := TryFlip(bytes, bit, got);
      if fits {
        FirstFound(frame, bit);
        return true;
      }
      bit := bit + 1;
    }
    NoneFound(frame);
    return false;
  }

  lemma FirstFound(frame: seq<Byte>, bit: nat)
    requires |frame| >= 4 && Repairs(frame, bit) && forall k :: 0 <= k < bit ==> !Repairs(frame, k)
    ensures OneBitResult(frame) == Flip(frame, bit) && Passes(Flip(frame, bit))
  {
    assert FirstRepair(frame) == bit;
  }

  lemma NoneFound(frame: seq<Byte>)
    requires |frame| >= 4 && forall k :: 0 <= k < 8 * (|frame| - 2) ==> !Repairs(frame, k)
    ensures OneBitResult(frame) == frame && !exists k: nat :: Repairs(frame, k)
  {
    assert FirstRepair(frame) == 8 * (|frame| - 2);
  }

  // Invert one bit, and undo that unless the check then fits.
  method TryFlip(bytes: array<Byte>, bit: nat, got: Word) returns (fits: bool)
    requires bytes.Length >= 4 && bit < 8 * (bytes.Length - 2) && got == Trailer(bytes[..])
    modifies bytes
    ensures fits <==> Repairs(old(bytes[..]), bit)
    ensures bytes[..] == if fits then Flip(old(bytes[..]), bit) else old(bytes[..])
  {
    ghost var frame := bytes[..];
    FlipInPlace(bytes, bit);
    var want := ComputeCheck(bytes);
    assert Trailer(Flip(frame, bit)) == Trailer(frame);
    fits := got == want;
    if !fits {
      FlipInPlace(bytes, bit);
      FlipTwice(frame, bit);
    }
  }

  // The deltas of the bits of one byte: eight consecutive powers of x.
  ghost predicate IsRow(row: seq<Word>, e: nat) {
    |row| == 8 && forall m :: 0 <= m < 8 ==> row[m] == Pow(e + m)
  }

  ghost predicate DeltasFrom(delta: seq<Word>, payLen: nat, from: nat, to: nat) {
    from <= to <= |delta| == 8 * payLen && forall k :: from <= k < to ==> delta[k] == Pow(Exponent(payLen, k))
  }

  method SeedRow() returns (cur: array<Word>)
    ensures fresh(cur) && IsRow(cur[..], 16)
  {
    cur := new Word[8];
    for m := 0 to 8
      invariant forall i :: 0 <= i < m ==> cur[i] == Pow(16 + i)
    {
      ByteIsPower(m);
      ByteStepsPow(8 + m);
      cur[m] := ByteStep(High(Mask(m)));
    }
  }

  // One byte-step applied to each of the eight entries.
  method AdvanceRow(cur: array<Word>, ghost e: nat)
    requires IsRow(cur[..], e)
    modifies cur
    ensures IsRow(cur[..], e + 8)
  {
    ghost var row := cur[..];
    for m := 0 to 8
      invariant forall i :: 0 <= i < m ==> cur[i] == ByteSteps(row[i])
      invariant forall i :: m <= i < 8 ==> cur[i] == row[i]
    {
      cur[m] := ByteStep(cur[m]);
    }
    forall i | 0 <= i < 8
      ensures cur[..][i] == Pow(e + 8 + i)
    {
      ByteStepsPow(e + i);
    }
  }

  method StoreRow(delta: array<Word>, payLen: nat, j: nat, row: array<Word>, ghost to: nat)
    requires delta != row && j < payLen && 8 * j + 8 <= to
    requires IsRow(row[..], 8 * (payLen - 1 - j)) && DeltasFrom(delta[..], payLen, 8 * j + 8, to)
    modifies delta
    ensures DeltasFrom(delta[..], payLen, 8 * j, to)
  {
    ghost var was := delta[..];
    for m := 0 to 8
      invariant forall i :: 0 <= i < m ==> delta[8 * j + i] == row[i]
      invariant forall k :: 8 * j + 8 <= k < to ==> delta[k] == was[k]
    {
      delta[8 * j + m] := row[m];
    }
    forall k | 8 * j <= k < 8 * j + 8 ensures delta[k] == Pow(Exponent(payLen, k)) {
      var i := k - 8 * j;
      assert delta[8 * j + i] == row[..][i] && Exponent(payLen, k) == 8 * (payLen - 1 - j) + i;
    }
  }

  method RawRows() returns (low: array<Word>, high: array<Word>)
    ensures fresh(low) && fresh(high) && IsRow(low[..], 0) && IsRow(high[..], 8)
  {
    low, high := new Word[8], new Word[8];
    for m := 0 to 8
      invariant forall i :: 0 <= i < m ==> low[i] == Pow(i) && high[i] == Pow(8 + i)
    {
      ByteIsPower(m);
      low[m], high[m] := Low(Mask(m)), High(Mask(m));
    }
  }

  // The effect of each payload bit on the check value, by the backward recurrence
  // of `lora_crc_bruteforce_correct_2bit`.
  method FillDeltas(payLen: nat) returns (delta: array<Word>)
    requires payLen >= 2
    ensures fresh(delta) && DeltasFrom(delta[..], payLen, 0, 8 * payLen)
  {
    delta := new Word[8 * payLen];
    // The last two bytes are XORed in raw.
    var low, high := RawRows();
    StoreRow(delta, payLen, payLen - 1, low, 8 * payLen);
    StoreRow(delta, payLen, payLen - 2, high, 8 * payLen);
    if payLen > 2 {
      FillEarlier(delta, payLen);
    }
  }

  // The bytes that go through the CRC, from the last to the first.
  method FillEarlier(delta: array<Word>, payLen: nat)
    requires payLen > 2 && DeltasFrom(delta[..], payLen, 8 * (payLen - 2), 8 * payLen)
    modifies delta
    ensures DeltasFrom(delta[..], payLen, 0, 8 * payLen)
  {
    var cur := SeedRow();
    var j := payLen - 2;
    while j > 0
      invariant 0 <= j <= payLen - 2 && fresh(cur)
      invariant j > 0 ==> IsRow(cur[..], 8 * (payLen - j))
      invariant DeltasFrom(delta[..], payLen, 8 * j, 8 * payLen)
    {
      j := j - 1;
      StoreRow(delta, payLen, j, cur, 8 * payLen);
      if j > 0 {
        AdvanceRow(cur, 8 * (payLen - 1 - j));
      }
    }
  }

  function Index(w: Word): (v: nat)
    ensures v < 65536
  {
    assert Pow2(4) == 16 && Pow2(8) == 256 && Pow2(12) == 4096 && Pow2(16) == 65536;
    Value(w)
  }

  method EmptyTable() returns (seen: array<int>)
    ensures fresh(seen) && seen.Length == 65536 && forall v :: 0 <= v < 65536 ==> seen[v] == -1
  {
    seen := new int[65536];
    for v := 0 to 65536
      invariant forall u :: 0 <= u < v ==> seen[u] == -1
    {
      seen[v] := -1;
    }
  }

  // The table from a delta value to the first bit that has it, -1 for none.
  method FirstIndexTable(delta: array<Word>) returns (seen: array<int>)
    ensures fresh(seen) && IsTable(seen[..], delta[..])
  {
    seen := EmptyTable();
    for i := 0 to delta.Length
      invariant forall v :: 0 <= v < 65536 ==> seen[v] == -1 || (0 <= seen[v] < i && Index(delta[seen[v]]) == v)
      invariant forall k :: 0 <= k < i ==> 0 <= seen[Index(delta[k])] <= k
    {
      if seen[Index(delta[i])] < 0 {
        seen[Index(delta[i])] := i;
      }
    }
  }

  ghost predicate IsTable(seen: seq<int>, delta: seq<Word>) {
    && |seen| == 65536
    && (forall v :: 0 <= v < 65536 ==> seen[v] == -1 || (0 <= seen[v] < |delta| && Index(delta[seen[v]]) == v))
    && (forall k :: 0 <= k < |delta| ==> 0 <= seen[Index(delta[k])] <= k)
  }

  // Flipping two bits with deltas `a` and `b` cancels `target`.
  predicate Cancels(a: Word, b: Word, target: Word) {
    Xor(a, target) == b
  }

  // Looking entry i up in the table finds its first partner, exactly when it has one.
  ghost predicate LookupFinds(delta: seq<Word>, seen: seq<int>, target: Word, i: nat)
    requires i < |delta| && |seen| == 65536
  {
    var j := seen[Index(Xor(delta[i], target))];
    if j >= 0 && j != i then
      && j < |delta| && Cancels(delta[i], delta[j], target)
      && forall q :: 0 <= q < j ==> !Cancels(delta[i], delta[q], target)
    else forall q :: 0 <= q < |delta| ==> !Cancels(delta[i], delta[q], target)
  }

  lemma TableLookup(delta: seq<Word>, seen: seq<int>, target: Word, i: nat)
    requires target != ZERO && i < |delta| && IsTable(seen, delta)
    ensures LookupFinds(delta, seen, target, i)
  {
    var need := Xor(delta[i], target);
    var j := seen[Index(need)];
    if j >= 0 {
      ValueInjective(delta[j], need);
      if j == i {
        XorLaws(delta[i], target);
        XorZero(delta[i], delta[i]);
      }
    }
  }

  lemma TableLookups(delta: seq<Word>, seen: seq<int>, target: Word)
    requires target != ZERO && IsTable(seen, delta)
    ensures |seen| == 65536 && forall i :: 0 <= i < |delta| ==> LookupFinds(delta, seen, target, i)
  {
    forall i | 0 <= i < |delta|
      ensures LookupFinds(delta, seen, target, i)
    {
      TableLookup(delta, seen, target, i);
    }
  }

  ghost predicate NoneCancels(delta: seq<Word>, target: Word, end: nat)
    requires end <= |delta|
  {
    forall p, q :: 0 <= p < end && 0 <= q < |delta| ==> !Cancels(delta[p], delta[q], target)
  }

  // The first pair of deltas that cancels the target: no earlier entry has a partner, and
  // entry i no earlier one.
  ghost predicate FirstCancels(delta: seq<Word>, target: Word, i: nat, j: nat) {
    && i < |delta| && j < |delta| && i != j && Cancels(delta[i], delta[j], target)
    && (forall q :: 0 <= q < j ==> !Cancels(delta[i], delta[q], target)) && NoneCancels(delta, target, i)
  }

  // The linear search for the first pair of deltas that cancels the mismatch.
  method FindPair(delta: array<Word>, seen: array<int>, target: Word) returns (found: bool, i: nat, j: nat)
    requires seen.Length == 65536
    requires forall i :: 0 <= i < delta.Length ==> LookupFinds(delta[..], seen[..], target, i)
    ensures found ==> FirstCancels(delta[..], target, i, j)
    ensures !found ==> NoneCancels(delta[..], target, delta.Length)
  {
    found, i, j := false, 0, 0;
    while i < delta.Length
      invariant i <= delta.Length
      invariant NoneCancels(delta[..], target, i)
    {
      var s := seen[Index(Xor(delta[i], target))];
      assert LookupFinds(delta[..], seen[..], target, i);
      if s >= 0 && s != i {
        return true, i, s;
      }
      i := i + 1;
    }
  }

  predicate PairCancels(payLen: nat, i: nat, j: nat, target: Word) {
    && i < 8 * payLen && j < 8 * payLen
    && Cancels(Pow(Exponent(payLen, i)), Pow(Exponent(payLen, j)), target)
  }

  // On a failing frame the cancelling pairs are the repairing ones.
  lemma PairCancelsIff(frame: seq<Byte>, i: nat, j: nat)
    requires |frame| >= 4 && !Passes(frame)
    ensures RepairsPair(frame, i, j) <==> PairCancels(|frame| - 2, i, j, Mismatch(frame))
  {
    var n, m := |frame| - 2, Mismatch(frame);
    if i < 8 * n && j < 8 * n {
      if i != j {
        RepairsPairIff(frame, i, j);
      } else {
        PassesIff(frame);
        XorLaws(Effect(n, i), m);
        XorZero(Effect(n, i), Effect(n, i));
      }
    }
  }

  lemma NoPairRepairs(frame: seq<Byte>, payLen: nat)
    requires |frame| >= 4 && payLen == |frame| - 2 && !Passes(frame)
    requires forall p: nat, q: nat :: !PairCancels(payLen, p, q, Mismatch(frame))
    ensures (forall i: nat, j: nat :: !RepairsPair(frame, i, j)) && FirstPaired(frame) == 8 * payLen
  {
    forall i: nat, j: nat
      ensures !RepairsPair(frame, i, j)
    {
      PairCancelsIff(frame, i, j);
    }
  }

  // Nothing before the pair i, j, in the order of the search, cancels the target.
  ghost predicate NoEarlierPair(payLen: nat, i: nat, j: nat, target: Word) {
    && (forall q: nat :: q < j ==> !PairCancels(payLen, i, q, target))
    && (forall p: nat, q: nat :: p < i ==> !PairCancels(payLen, p, q, target))
  }

  lemma FirstPairFound(frame: seq<Byte>, i: nat, j: nat)
    requires |frame| >= 4 && !Passes(frame)
    requires PairCancels(|frame| - 2, i, j, Mismatch(frame)) && NoEarlierPair(|frame| - 2, i, j, Mismatch(frame))
    ensures RepairsPair(frame, i, j) && FirstPaired(frame) == i && Partner(frame, i) == j
  {
    forall p: nat, q: nat
      ensures RepairsPair(frame, p, q) <==> PairCancels(|frame| - 2, p, q, Mismatch(frame))
    {
      PairCancelsIff(frame, p, q);
    }
    FirstPairedIs(frame, i, j);
  }

  lemma DeltaCancels(delta: seq<Word>, payLen: nat, target: Word, p: nat, q: nat)
    requires DeltasFrom(delta, payLen, 0, 8 * payLen)
    ensures PairCancels(payLen, p, q, target)
       <==> p < |delta| && q < |delta| && Cancels(delta[p], delta[q], target)
  {}

  lemma FirstCancelsIs(delta: seq<Word>, payLen: nat, target: Word, i: nat, j: nat)
    requires DeltasFrom(delta, payLen, 0, 8 * payLen) && FirstCancels(delta, target, i, j)
    ensures PairCancels(payLen, i, j, target) && NoEarlierPair(payLen, i, j, target)
  {
    forall p: nat, q: nat
      ensures PairCancels(payLen, p, q, target) ==>
        p < |delta| && q < |delta| && Cancels(delta[p], delta[q], target)
    {
      DeltaCancels(delta, payLen, target, p, q);
    }
    DeltaCancels(delta, payLen, target, i, j);
  }

  lemma NoneCancelsIs(delta: seq<Word>, payLen: nat, target: Word)
    requires DeltasFrom(delta, payLen, 0, 8 * payLen) && NoneCancels(delta, target, |delta|)
    ensures forall p: nat, q: nat :: !PairCancels(payLen, p, q, target)
  {
    forall p: nat, q: nat
      ensures !PairCancels(payLen, p, q, target)
    {
      DeltaCancels(delta, payLen, target, p, q);
    }
  }

  // The first two payload bits whose joint effect is `target`, in time linear in the payload.
  method SearchPair(payLen: nat, target: Word) returns (found: bool, i: nat, j: nat)
    requires payLen >= 2 && target != ZERO
    ensures found ==> i != j && PairCancels(payLen, i, j, target) && NoEarlierPair(payLen, i, j, target)
    ensures !found ==> forall p: nat, q: nat :: !PairCancels(payLen, p, q, target)
  {
    var delta := FillDeltas(payLen);
    var seen := FirstIndexTable(delta);
    TableLookups(delta[..], seen[..], target);
    found, i, j := FindPair(delta, seen, target);
    if found {
      FirstCancelsIs(delta[..], payLen, target, i, j);
    } else {
      NoneCancelsIs(delta[..], payLen, target);
    }
  }

  // lora_crc_bruteforce_correct_2bit; `allocOk` says whether its two tables can be had.
  method BruteForceTwo(bytes: array<Byte>, allocOk: bool) returns (ok: bool)
    modifies bytes
    ensures ok <==>
      (|old(bytes[..])| >= 4 && !Passes(old(bytes[..])) && allocOk
       && exists i: nat, j: nat :: RepairsPair(old(bytes[..]), i, j))
    ensures ok ==> exists i: nat, j: nat :: RepairsPair(old(bytes[..]), i, j)
                                         && bytes[..] == Flip(Flip(old(bytes[..]), i), j)
    ensures !ok ==> bytes[..] == old(bytes[..])
    ensures allocOk ==> bytes[..] == TwoBitResult(old(bytes[..]))
  {
    ghost var frame := bytes[..];
    if bytes.Length < 4 { return false; }
    var got := Xor(Low(bytes[bytes.Length - 2]), High(bytes[bytes.Length - 1]));
    var want := ComputeCheck(bytes);
    var target := Xor(want, got);
    PassesIff(frame);
    if target == ZERO { return false; }
    if !allocOk { return false; }
    var found, i, j := SearchPair(bytes.Length - 2, target);
    assert bytes[..] == frame;
    if !found {
      NoPairRepairs(frame, bytes.Length - 2);
      return false;
    }
    FirstPairFound(frame, i, j);
    FlipInPlace(bytes, i);
    FlipInPlace(bytes, j);
    return true;
  }

  // What becomes of a frame: its bytes, whether they pass the check, and how many bits
  // were corrected.
  datatype Recovery = Recovery(bytes: seq<Byte>, crcOk: bool, correctedBits: nat)

  // The bits of a frame's payload.
  function PayloadBits(frame: seq<Byte>): nat
    requires |frame| >= 4
  {
    8 * (|frame| - 2)
  }

  function Recover(frame: seq<Byte>, bruteForce: bool, bruteForce2: bool, allocOk: bool): Recovery
    requires |frame| >= 4
  {
    if Passes(frame) then Recovery(frame, true, 0)
    else if bruteForce && FirstRepair(frame) < PayloadBits(frame) then Recovery(OneBitResult(frame), true, 1)
    else if bruteForce && bruteForce2 && allocOk && FirstPaired(frame) < PayloadBits(frame) then
      Recovery(TwoBitResult(frame), true, 2)
    else Recovery(frame, false, 0)
  }

  // Each search finds something exactly when there is something to be found.
  lemma TiersApply(frame: seq<Byte>)
    requires |frame| >= 4
    ensures FirstRepair(frame) < PayloadBits(frame) <==> exists k: nat :: Repairs(frame, k)
    ensures FirstPaired(frame) < PayloadBits(frame) <==> exists i: nat, j: nat :: RepairsPair(frame, i, j)
  {
    if FirstPaired(frame) < PayloadBits(frame) {
      assert RepairsPair(frame, FirstPaired(frame), Partner(frame, FirstPaired(frame)));
    }
    forall i: nat, j: nat | RepairsPair(frame, i, j)
      ensures FirstPaired(frame) < PayloadBits(frame)
    {
      assert Partner(frame, i) <= j;
    }
  }

  // The CRC part of `state_tick`: check, then the one-bit tier, then the two-bit tier.
  // The two-bit tier's outcome does not mention the one-bit tier that ran before it.
  method VerifyAndRecover(bytes: array<Byte>, bruteForce: bool, bruteForce2: bool, allocOk: bool)
    returns (crcOk: bool, correctedBits: nat)
    requires bytes.Length >= 4
    modifies bytes
    ensures crcOk <==> Passes(bytes[..])
    ensures correctedBits <= 2 && (correctedBits > 0 ==> crcOk && !Passes(old(bytes[..])))
    ensures correctedBits == 1 <==>
      (!Passes(old(bytes[..])) && bruteForce && exists k: nat :: Repairs(old(bytes[..]), k))
    ensures correctedBits == 2 <==>
      (!Passes(old(bytes[..])) && bruteForce && bruteForce2 && allocOk
       && exists i: nat, j: nat :: RepairsPair(old(bytes[..]), i, j))
    ensures correctedBits == 0 ==> bytes[..] == old(bytes[..])
    ensures correctedBits == 1 ==> bytes[..] == OneBitResult(old(bytes[..]))
    ensures correctedBits == 2 ==> exists i: nat, j: nat :: RepairsPair(old(bytes[..]), i, j)
                                                         && bytes[..] == Flip(Flip(old(bytes[..]), i), j)
    ensures Recovery(bytes[..], crcOk, correctedBits) == Recover(old(bytes[..]), bruteForce, bruteForce2, allocOk)
  {
    ghost var frame := bytes[..];
    TiersApply(frame);
    var got := Xor(Low(bytes[bytes.Length - 2]), High(bytes[bytes.Length - 1]));
    var want := ComputeCheck(bytes);
    crcOk, correctedBits := got == want, 0;
    forall k: nat, i: nat, j: nat
      ensures !(Repairs(frame, k) && RepairsPair(frame, i, j))
    {
      TiersExclusive(frame, k, i, j);
    }
    var fixed := false;
    if !crcOk && bruteForce {
      fixed := BruteForceOne(bytes);
    }
    if fixed {
      crcOk, correctedBits := true, 1;
    } else if !crcOk && bruteForce && bruteForce2 {
      fixed := BruteForceTwo(bytes, allocOk);
      if fixed {
        crcOk, correctedBits := true, 2;
      }
    }
  }
}
