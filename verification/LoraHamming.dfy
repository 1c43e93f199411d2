/**
 The hard-decision Hamming decoder (`lora_hamming_decode`).  A codeword is its bits
 most significant first: four data bits, then one to four parity bits; `cr` in 5..8
 is the codeword length.  A nibble is least significant bit first, so data bit i is
 bit i of the nibble.
 */
module LoraHamming {
  import opened Bits

  // Parity bit k of a nibble; at rate 4/5 the only one is the overall parity.
  function ParityBit(n: Nibble, cr: nat, k: nat): bool {
    if cr == 5 then n[0] != (n[1] != (n[2] != n[3]))
    else if k == 0 then n[0] != (n[1] != n[2])
    else if k == 1 then n[1] != (n[2] != n[3])
    else if k == 2 then n[0] != (n[1] != n[3])
    else n[0] != (n[2] != n[3])
  }

  // The transmitter's codeword for a nibble.
  function Encode(n: Nibble, cr: nat): (cw: seq<bool>)
    requires 5 <= cr <= 8
    ensures |cw| == cr
  {
    n + [ParityBit(n, cr, 0), ParityBit(n, cr, 1), ParityBit(n, cr, 2), ParityBit(n, cr, 3)][..cr - 4]
  }

  function Invert(cw: seq<bool>, k: nat): (r: seq<bool>)
    requires k < |cw|
    ensures |r| == |cw|
  {
    cw[k := !cw[k]]
  }

  // The data bits, one of them inverted when the decoder's syndrome table says so.
  function Decode(cw: seq<bool>): Nibble
    requires 5 <= |cw| <= 8
  {
    if |cw| >= 7 && (|cw| == 8 ==> Odd(cw)) then
      var s0 := cw[0] != (cw[1] != (cw[2] != cw[4]));
      var s1 := cw[1] != (cw[2] != (cw[3] != cw[5]));
      var s2 := cw[0] != (cw[1] != (cw[3] != cw[6]));
      [cw[0] != (!s0 && s1 && s2),    // syndrome 6
       cw[1] != (s0 && s1 && !s2),    // syndrome 3
       cw[2] != (s0 && s1 && s2),     // syndrome 7
       cw[3] != (s0 && !s1 && s2)]    // syndrome 5
    else cw[..4]
  }

  lemma OddCodeword(cw: seq<bool>)
    requires |cw| == 8
    ensures Odd(cw) == (((cw[0] != cw[1]) != (cw[2] != cw[3])) != ((cw[4] != cw[5]) != (cw[6] != cw[7])))
  {
    assert cw == cw[..4] + cw[4..];
    OddConcat(cw[..4], cw[4..]);
    OddNibble(cw[..4]);
    OddNibble(cw[4..]);
  }

  lemma CleanDecodes(n: Nibble, cr: nat)
    requires 5 <= cr <= 8
    ensures Decode(Encode(n, cr)) == n
  {
    var cw := Encode(n, cr);
    if cr == 8 {
      OddCodeword(cw);
    }
    assert cw[..4] == n;
  }

  lemma EncodeBits(n: Nibble, cr: nat)
    requires 5 <= cr <= 8
    ensures forall i :: 0 <= i < cr ==> Encode(n, cr)[i] == if i < 4 then n[i] else ParityBit(n, cr, i - 4)
  {}

  lemma InvertTurnsParity(cw: seq<bool>, k: nat)
    requires |cw| == 8 && k < 8
    ensures Odd(Invert(cw, k)) == !Odd(cw)
  {
    OddCodeword(cw);
    OddCodeword(Invert(cw, k));
  }

  // With an inverted bit the overall parity at rate 4/8 is odd, so correction is tried.
  lemma InvertedIsOdd(n: Nibble, k: nat)
    requires k < 8
    ensures Odd(Invert(Encode(n, 8), k))
  {
    EncodeBits(n, 8);
    OddCodeword(Encode(n, 8));
    InvertTurnsParity(Encode(n, 8), k);
  }

  // An inverted data bit is delivered inverted, and the correction inverts its mirror
  // image as well: the table corrects bit 3 - k where bit k was hit.
  lemma InvertedData(n: Nibble, cr: nat, k: nat)
    requires 7 <= cr <= 8 && k < 4
    ensures Decode(Invert(Encode(n, cr), k)) == Invert(Invert(n, k), 3 - k)
  {
    EncodeBits(n, cr);
    if cr == 8 {
      InvertedIsOdd(n, k);
    }
    var d, e := Decode(Invert(Encode(n, cr), k)), Invert(Invert(n, k), 3 - k);
    assert d[0] == e[0] && d[1] == e[1] && d[2] == e[2] && d[3] == e[3];
  }

  // At rates 4/5 and 4/6 nothing is corrected.
  lemma LowRatesDecode(cw: seq<bool>)
    requires 5 <= |cw| <= 6
    ensures Decode(cw) == cw[..4]
  {}

  // At rate 4/8 any two inverted bits leave the overall parity even: the data bits are
  // delivered as they were received.
  lemma InvertedPair(n: Nibble, j: nat, k: nat)
    requires j < k < 8
    ensures Decode(Invert(Invert(Encode(n, 8), j), k)) == Invert(Invert(Encode(n, 8), j), k)[..4]
  {
    InvertedIsOdd(n, j);
    InvertTurnsParity(Invert(Encode(n, 8), j), k);
  }

  // The codeword of n, its parity bits hit by the pattern e.
  function Hit(n: Nibble, e: seq<bool>): (cw: seq<bool>)
    requires 1 <= |e| <= 4
    ensures |cw| == 4 + |e|
  {
    n + Xor(Encode(n, 4 + |e|)[4..], e)
  }

  // The data bit that the first three hit parity bits make the decoder invert.
  function Blamed(e: seq<bool>): (k: nat)
    requires |e| >= 3
    ensures k <= 4
  {
    if e[..3] == [false, true, true] then 0
    else if e[..3] == [true, true, false] then 1
    else if e[..3] == [true, true, true] then 2
    else if e[..3] == [true, false, true] then 3
    else 4
  }

  lemma BlamedBits(e: seq<bool>)
    requires |e| >= 3
    ensures Blamed(e) == if e[1] && e[2] then (if e[0] then 2 else 0) else if e[0] && e[1] then 1
      else if e[0] && e[2] then 3 else 4
  {
    assert e[..3] == [e[0], e[1], e[2]];
  }

  lemma HitBits(n: Nibble, e: seq<bool>)
    requires 3 <= |e| <= 4
    ensures forall i :: 0 <= i < 4 ==> Hit(n, e)[i] == n[i]
    ensures forall i :: 0 <= i < |e| ==> Hit(n, e)[4 + i] == (ParityBit(n, 4 + |e|, i) != e[i])
    ensures |e| == 4 ==> Odd(Hit(n, e)) == Odd(e)
  {
    EncodeBits(n, 4 + |e|);
    if |e| == 4 {
      OddCodeword(Hit(n, e));
      OddNibble(e);
    }
  }

  // What the decoder makes of every word at rates 4/7 and 4/8, since every word is some
  // nibble with some of its parity bits hit: two or all three of the first three hits
  // make it invert one data bit, at rate 4/8 only if the number of hits is odd.
  lemma HitDecodes(n: Nibble, e: seq<bool>)
    requires 3 <= |e| <= 4
    ensures var k := Blamed(e);
      Decode(Hit(n, e)) == if k < 4 && (|e| == 4 ==> Odd(e)) then Invert(n, k) else n
  {
    var k := Blamed(e);
    BlamedBits(e);
    HitBits(n, e);
    var d := Decode(Hit(n, e));
    var m := if k < 4 && (|e| == 4 ==> Odd(e)) then Invert(n, k) else n;
    assert d[0] == m[0] && d[1] == m[1] && d[2] == m[2] && d[3] == m[3];
  }

  // The parity bits of a word that do not agree with its data bits.
  function Disagreeing(cw: seq<bool>): (e: seq<bool>)
    requires 5 <= |cw| <= 8
    ensures |e| == |cw| - 4
  {
    Xor(Encode(cw[..4], |cw|)[4..], cw[4..])
  }

  lemma EveryWordIsHit(cw: seq<bool>)
    requires 5 <= |cw| <= 8
    ensures Hit(cw[..4], Disagreeing(cw)) == cw
  {}

  // The data bits as received, at rates 4/7 and 4/8 with the blamed one inverted.
  predicate IsDecoded(cw: seq<bool>, out: Nibble)
    requires 5 <= |cw| <= 8
  {
    var data, e := cw[..4], Disagreeing(cw);
    out == if |cw| >= 7 && Blamed(e) < 4 && (|cw| == 8 ==> Odd(e)) then Invert(data, Blamed(e)) else data
  }

  lemma DecodeIs(cw: seq<bool>)
    requires 5 <= |cw| <= 8
    ensures IsDecoded(cw, Decode(cw))
  {
    if |cw| >= 7 {
      EveryWordIsHit(cw);
      HitDecodes(cw[..4], Disagreeing(cw));
    }
  }

  method HammingDecode(cw: seq<bool>) returns (out: Nibble)
    requires 5 <= |cw| <= 8
    ensures out == Decode(cw) && IsDecoded(cw, out)
  {
    DecodeIs(cw);
    var d0, d1, d2, d3 := cw[0], cw[1], cw[2], cw[3];
    var correct := |cw| == 7;
    if |cw| == 8 {
      var total := 0;
      for i := 0 to 8
        invariant total == Ones(cw[..i])
      {
        OnesNext(cw, i);
        total := total + Unit(cw[i]);
      }
      assert cw[..8] == cw;
      correct := total % 2 != 0;
    }
    if correct {
      var s0 := cw[0] != (cw[1] != (cw[2] != cw[4]));
      var s1 := cw[1] != (cw[2] != (cw[3] != cw[5]));
      var s2 := cw[0] != (cw[1] != (cw[3] != cw[6]));
      var syndrome := Unit(s0) + 2 * Unit(s1) + 4 * Unit(s2);
      match syndrome {
        case 5 => d3 := !d3;
        case 7 => d2 := !d2;
        case 3 => d1 := !d1;
        case 6 => d0 := !d0;
        case _ =>
      }
    }
    out := [d0, d1, d2, d3];
  }

  // The syndrome of a codeword with one inverted parity bit names no data bit.
  lemma InvertedParity(n: Nibble, cr: nat, k: nat)
    requires 7 <= cr <= 8 && 4 <= k < cr
    ensures Decode(Invert(Encode(n, cr), k)) == n
  {
    var cw := Invert(Encode(n, cr), k);
    EncodeBits(n, cr);
    if cr == 8 {
      InvertedIsOdd(n, k);
    }
    var d := Decode(cw);
    assert d[0] == n[0] && d[1] == n[1] && d[2] == n[2] && d[3] == n[3];
  }

  // One inverted bit is harmless exactly when it is a parity bit: the correction
  // table never repairs a data bit, at any rate.
  lemma InvertedDecodesIff(n: Nibble, cr: nat, k: nat)
    requires 5 <= cr <= 8 && k < cr
    ensures Decode(Invert(Encode(n, cr), k)) == n <==> k >= 4
  {
    if cr < 7 {
      EncodeBits(n, cr);
      assert k < 4 ==> Decode(Invert(Encode(n, cr), k))[k] != n[k];
    } else if k < 4 {
      InvertedData(n, cr, k);
    } else {
      InvertedParity(n, cr, k);
    }
  }
}
